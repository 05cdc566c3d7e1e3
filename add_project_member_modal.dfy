/**
 * The add-members dialog of a project (components/AddProjectMemberModal.tsx):
 * which users it offers, the selection it keeps, and the rows and history
 * entry it writes.
 */
module AddProjectMemberModal {
  import opened Wrappers
  import opened Text
  import opened Lists
  import opened AddProjectModal
  import opened ProjectHistory

  /** A `profiles` row as the dialog lists it. */
  datatype Profile = Profile(id: string, name: string)

  /** `m.user_id || m.profile?.id`: the id a current member is recognised by (`None` is `undefined`). */
  function MemberKey(m: MemberRef): (k: Option<string>)
    ensures m.userId != "" ==> k == Some(m.userId)
    ensures m.userId == "" ==> k == m.profileId
  {
    if m.userId != "" then Some(m.userId) else m.profileId
  }

  function NotMember(members: seq<MemberRef>): (test: Profile -> bool)
    ensures forall u :: test(u) == (Some(u.id) !in Map(members, MemberKey))
  {
    (u: Profile) => Some(u.id) !in Map(members, MemberKey)
  }

  /** `availableUsers`: the users who are not yet members of the project. */
  function AvailableUsers(users: seq<Profile>, members: seq<MemberRef>): (r: seq<Profile>)
    ensures forall u: Profile :: u in r <==> u in users && forall j :: 0 <= j < |members| ==> MemberKey(members[j]) != Some(u.id)
  {
    var keys := Map(members, MemberKey);
    assert forall u: Profile :: Some(u.id) in keys <==> exists j :: 0 <= j < |members| && MemberKey(members[j]) == Some(u.id);
    FilterKeeps(users, NotMember(members));
    FilterComplete(users, NotMember(members));
    Filter(users, NotMember(members))
  }

  /** The offered users keep the order of the user list. */
  lemma AvailableKeepsOrder(users: seq<Profile>, members: seq<MemberRef>)
    ensures SubseqOf(AvailableUsers(users, members), users)
  {
    FilterSubseq(users, NotMember(members));
  }

  /** With no current members every user is offered. */
  lemma NoMembersOffersAll(users: seq<Profile>)
    ensures AvailableUsers(users, []) == users
  {
    FilterAll(users, NotMember([]));
  }

  function IsSelected(selected: seq<string>): (test: Profile -> bool)
    ensures forall u :: test(u) == (u.id in selected)
  {
    (u: Profile) => u.id in selected
  }

  function NameOf(u: Profile): (n: string)
  {
    u.name
  }

  /** The history text names the selected users in the order of the user list. */
  function AddedNames(users: seq<Profile>, selected: seq<string>): (s: string)
  {
    Join(Map(Filter(users, IsSelected(selected)), NameOf), ", ")
  }

  class MemberPicker {
    var selected: seq<string>

    constructor ()
      ensures selected == []
    {
      selected := [];
    }

    /** Opening the dialog clears the selection. */
    method Open()
      modifies this
      ensures selected == []
    {
      selected := [];
    }

    /** `toggleUser`: a selected id is removed, another is appended; other selections are unchanged. */
    method ToggleUser(uid: string)
      modifies this
      ensures selected == Toggle(old(selected), uid)
      ensures uid in selected <==> uid !in old(selected)
      ensures forall v :: v != uid ==> (v in selected <==> v in old(selected))
    {
      if uid in selected {
        selected := Remove(selected, uid);
      } else {
        selected := selected + [uid];
      }
    }

    /**
     * `handleSubmit` when the insert succeeds: nothing with an empty
     * selection, else one 'member' row per selected id and, with a
     * signed-in user, an ADD_MEMBER history entry naming them.
     */
    method Submit(projectId: string, users: seq<Profile>, user: Option<string>)
      returns (rows: seq<MemberRow>, entry: Option<HistoryEntry>)
      ensures selected == [] ==> rows == [] && entry.None?
      ensures selected != [] ==> rows == MemberRows(projectId, selected)
      ensures selected != [] && user.Some? ==>
        entry == Some(HistoryEntry(projectId, user.value, "ADD_MEMBER",
                                   "adicionou os membros: " + AddedNames(users, selected) + "."))
      ensures user.None? ==> entry.None?
    {
      if |selected| == 0 {
        return [], None;
      }
      rows := MemberRows(projectId, selected);
      entry := None;
      if user.Some? {
        entry := Some(HistoryEntry(projectId, user.value, "ADD_MEMBER",
                                   "adicionou os membros: " + AddedNames(users, selected) + "."));
      }
    }
  }

  /** Every row the dialog writes is a 'member' row of the project for one of the selected ids. */
  lemma RowsAreSelected(projectId: string, selected: seq<string>)
    ensures forall r: MemberRow :: r in MemberRows(projectId, selected) <==>
      r.projectId == projectId && r.role == "member" && r.userId in selected
  {
    var rows := MemberRows(projectId, selected);
    forall r: MemberRow | r.projectId == projectId && r.role == "member" && r.userId in selected
      ensures r in rows
    {
      var i :| 0 <= i < |selected| && selected[i] == r.userId;
      assert rows[i] == r;
    }
  }
}
