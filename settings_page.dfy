/**
 * The user administration of pages/SettingsPage.tsx: which controls a
 * user may use, and how deleting a user and changing a role update the
 * listed users.
 */
module SettingsPage {
  import opened Wrappers
  import opened Lists

  /** A `profiles` row as the page lists it. */
  datatype UserProfile = UserProfile(id: string, name: Option<string>, email: string, role: Option<string>)

  /** The name that unlocks the controls whatever the role. */
  const Override: string := "Vinicius Oliveira"

  /** The role select is enabled for a manager, or for the user named `Override`. */
  predicate MayAdminister(role: Option<string>, name: Option<string>) {
    role == Some("manager") || name == Some(Override)
  }

  /** The delete button of a row: as the select, and never on one's own row. */
  predicate MayDelete(rowId: string, currentUserId: Option<string>, role: Option<string>, name: Option<string>) {
    currentUserId != Some(rowId) && MayAdminister(role, name)
  }

  /** Whoever may delete a row may change its role; nobody may delete their own row. */
  lemma DeleteNeedsAdministration(rowId: string, currentUserId: Option<string>, role: Option<string>, name: Option<string>)
    ensures MayDelete(rowId, currentUserId, role, name) ==> MayAdminister(role, name)
    ensures currentUserId == Some(rowId) ==> !MayDelete(rowId, currentUserId, role, name)
    ensures currentUserId != Some(rowId) ==> (MayDelete(rowId, currentUserId, role, name) <==> MayAdminister(role, name))
  {
  }

  function OtherThan(id: string): (test: UserProfile -> bool)
    ensures forall u :: test(u) == (u.id != id)
  {
    (u: UserProfile) => u.id != id
  }

  function SetRole(id: string, role: string): (update: UserProfile -> UserProfile)
    ensures forall u :: update(u) == (if u.id == id then u.(role := Some(role)) else u)
  {
    (u: UserProfile) => if u.id == id then u.(role := Some(role)) else u
  }

  /** How `handleDeleteUser` ends. */
  datatype DeleteOutcome = RefusedSelf | Cancelled | Deleted

  class UserAdmin {
    var users: seq<UserProfile>

    constructor (fetched: seq<UserProfile>)
      ensures users == fetched
    {
      users := fetched;
    }

    /**
     * `handleDeleteUser` when the delete succeeds. One's own user is
     * refused before anything else; an unconfirmed delete does nothing;
     * otherwise the user leaves the list.
     */
    method DeleteUser(userId: string, currentUserId: Option<string>, confirmed: bool) returns (outcome: DeleteOutcome)
      modifies this
      ensures currentUserId == Some(userId) ==> outcome == RefusedSelf
      ensures currentUserId != Some(userId) && !confirmed ==> outcome == Cancelled
      ensures currentUserId != Some(userId) && confirmed ==> outcome == Deleted
      ensures outcome == Deleted ==> users == Filter(old(users), OtherThan(userId))
      ensures outcome != Deleted ==> users == old(users)
    {
      if currentUserId.Some? && currentUserId.value == userId {
        return RefusedSelf;
      }
      if !confirmed {
        return Cancelled;
      }
      users := Filter(users, OtherThan(userId));
      outcome := Deleted;
    }

    /** `handleUpdateRole` when the update succeeds: only the user with that id gets the new role. */
    method UpdateRole(userId: string, newRole: string)
      modifies this
      ensures users == Map(old(users), SetRole(userId, newRole))
    {
      users := Map(users, SetRole(userId, newRole));
    }
  }

  /** After a delete the user is gone, everyone else is still listed, and the order is kept. */
  lemma DeletedMeaning(users: seq<UserProfile>, id: string)
    ensures forall u :: u in Filter(users, OtherThan(id)) <==> u in users && u.id != id
    ensures SubseqOf(Filter(users, OtherThan(id)), users)
  {
    FilterSubseq(users, OtherThan(id));
  }

  /** A role change keeps the list's length, order and ids, and touches only the matching user's role. */
  lemma RoleUpdateMeaning(users: seq<UserProfile>, id: string, role: string)
    ensures var r := Map(users, SetRole(id, role));
      |r| == |users|
      && (forall i :: 0 <= i < |users| ==> r[i].id == users[i].id && r[i].name == users[i].name && r[i].email == users[i].email)
      && (forall i :: 0 <= i < |users| && users[i].id == id ==> r[i].role == Some(role))
      && (forall i :: 0 <= i < |users| && users[i].id != id ==> r[i] == users[i])
  {
  }
}
