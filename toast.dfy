/**
 * The toast queue of components/ui/Toast.tsx: the provider keeps a list
 * of notifications, appends one per call and removes one by id.
 */
module Toast {
  import opened Wrappers
  import opened Lists

  datatype ToastType = Success | Error | Info

  datatype Notice = Notice(id: string, message: string, kind: ToastType)

  function OtherThan(id: string): (test: Notice -> bool)
    ensures forall t :: test(t) == (t.id != id)
  {
    (t: Notice) => t.id != id
  }

  predicate HasId(toasts: seq<Notice>, id: string) {
    exists i :: 0 <= i < |toasts| && toasts[i].id == id
  }

  /** Removing an id deletes every toast with that id and keeps the others, in their order. */
  lemma RemovedMeaning(toasts: seq<Notice>, id: string)
    ensures !HasId(Filter(toasts, OtherThan(id)), id)
    ensures forall t :: t in toasts && t.id != id ==> t in Filter(toasts, OtherThan(id))
    ensures SubseqOf(Filter(toasts, OtherThan(id)), toasts)
  {
    FilterSubseq(toasts, OtherThan(id));
  }

  /** Removing an id that is not there changes nothing. */
  lemma RemoveAbsent(toasts: seq<Notice>, id: string)
    requires !HasId(toasts, id)
    ensures Filter(toasts, OtherThan(id)) == toasts
  {
    FilterAll(toasts, OtherThan(id));
  }

  /** The auto-dismiss of a toast with a fresh id undoes exactly its own addition. */
  lemma AddThenRemove(toasts: seq<Notice>, t: Notice)
    requires !HasId(toasts, t.id)
    ensures Filter(toasts + [t], OtherThan(t.id)) == toasts
  {
    FilterAppend(toasts, [t], OtherThan(t.id));
    RemoveAbsent(toasts, t.id);
  }

  class ToastProvider {
    var toasts: seq<Notice>

    constructor ()
      ensures toasts == []
    {
      toasts := [];
    }

    /**
     * `addToast`: one toast at the end, of type 'info' unless another is
     * given. `id` stands for the random identifier the source draws.
     */
    method AddToast(message: string, kind: Option<ToastType>, id: string)
      modifies this
      ensures toasts == old(toasts) + [Notice(id, message, kind.GetOr(Info))]
    {
      toasts := toasts + [Notice(id, message, kind.GetOr(Info))];
    }

    /** `removeToast`. */
    method RemoveToast(id: string)
      modifies this
      ensures toasts == Filter(old(toasts), OtherThan(id))
    {
      toasts := Filter(toasts, OtherThan(id));
    }

    /** `success`: a toast of type 'success'. */
    method Succeed(message: string, id: string)
      modifies this
      ensures toasts == old(toasts) + [Notice(id, message, Success)]
    {
      AddToast(message, Some(Success), id);
    }

    /** `error`: a toast of type 'error'. */
    method Fail(message: string, id: string)
      modifies this
      ensures toasts == old(toasts) + [Notice(id, message, Error)]
    {
      AddToast(message, Some(Error), id);
    }
  }
}
