/**
 * The progress editor of a goal (components/UpdateGoalProgressModal.tsx):
 * a text field holding the current value, the +1/-1 buttons, and the value
 * written back on submit.
 */
module UpdateGoalProgressModal {
  import opened Wrappers
  import opened Text

  /** `parseInt(v) || 0`: the number the field holds, 0 when it holds none. */
  function FieldValue(v: string): (n: int)
    ensures ParseInt(v).Some? ==> n == ParseInt(v).value
    ensures ParseInt(v).None? ==> n == 0
  {
    ParseInt(v).GetOr(0)
  }

  /** `current_value?.toString() || '0'`: the stored value's text, '0' when there is none. */
  function Shown(current: Option<int>): (v: string)
  {
    if current.Some? then IntToString(current.value) else "0"
  }

  /** The field on opening reads back as the stored value, or 0. */
  lemma ShownValue(current: Option<int>)
    ensures FieldValue(Shown(current)) == current.GetOr(0)
  {
    if current.Some? {
      ParseIntOfString(current.value);
    } else {
      ParseIntDigits("0");
    }
  }

  /** `increment`. */
  function Incremented(v: string): (w: string)
    ensures FieldValue(w) == FieldValue(v) + 1
  {
    ParseIntOfString(FieldValue(v) + 1);
    IntToString(FieldValue(v) + 1)
  }

  /** `decrement`: only a positive value goes down. */
  function Decremented(v: string): (w: string)
    ensures FieldValue(v) > 0 ==> FieldValue(w) == FieldValue(v) - 1
    ensures FieldValue(v) <= 0 ==> w == v
  {
    var n := FieldValue(v);
    ParseIntOfString(n - 1);
    if n > 0 then IntToString(n - 1) else v
  }

  /** The buttons never take a non-negative value below zero. */
  lemma ButtonsKeepNonNegative(v: string)
    requires FieldValue(v) >= 0
    ensures FieldValue(Incremented(v)) >= 0 && FieldValue(Decremented(v)) >= 0
  {
  }

  /** +1 then -1 gives back the value. */
  lemma IncrementThenDecrement(v: string)
    ensures FieldValue(Decremented(Incremented(v))) == FieldValue(v) + (if FieldValue(v) + 1 > 0 then 0 else 1)
  {
  }

  /** The value `handleSubmit` writes: none without a goal, else the field's number (0 when unreadable). */
  function Submitted(hasGoal: bool, v: string): (r: Option<int>)
    ensures !hasGoal ==> r.None?
    ensures hasGoal ==> r == Some(FieldValue(v))
  {
    if hasGoal then Some(FieldValue(v)) else None
  }

  class ProgressEditor {
    var currentValue: string

    constructor ()
      ensures currentValue == ""
    {
      currentValue := "";
    }

    /** The opening effect, for a goal whose stored value is `current`. */
    method Open(current: Option<int>)
      modifies this
      ensures currentValue == Shown(current) && FieldValue(currentValue) == current.GetOr(0)
    {
      currentValue := Shown(current);
      ShownValue(current);
    }

    method Increment()
      modifies this
      ensures FieldValue(currentValue) == FieldValue(old(currentValue)) + 1
    {
      currentValue := Incremented(currentValue);
    }

    method Decrement()
      modifies this
      ensures FieldValue(old(currentValue)) > 0 ==> FieldValue(currentValue) == FieldValue(old(currentValue)) - 1
      ensures FieldValue(old(currentValue)) <= 0 ==> currentValue == old(currentValue)
    {
      currentValue := Decremented(currentValue);
    }

    /** Typing into the field. */
    method Type(v: string)
      modifies this
      ensures currentValue == v
    {
      currentValue := v;
    }

    method Submit(hasGoal: bool) returns (r: Option<int>)
      ensures r == Submitted(hasGoal, currentValue)
    {
      r := Submitted(hasGoal, currentValue);
    }
  }
}
