/**
 * The create/edit internal-project dialog (components/AddProjectModal.tsx):
 * the prefill and reset run when it opens, the team chips, the project row
 * it writes, and the replacement of the project's member rows.
 */
module AddProjectModal {
  import opened Wrappers
  import opened Text
  import opened Lists

  /** A `project_members` row as the project pages read it, with its joined profile's id. */
  datatype MemberRef = MemberRef(userId: string, profileId: Option<string>)

  /** A `project_members` row as it is written. */
  datatype MemberRow = MemberRow(projectId: string, userId: string, role: string)

  /** The project the dialog is opened on. */
  datatype ProjectToEdit = ProjectToEdit(
    id: string, title: string, description: Option<string>, category: string,
    status: Option<string>, startDate: Option<string>, dueDate: Option<string>,
    members: Option<seq<MemberRef>>)

  /** The dialog's form state. */
  datatype Form = Form(
    title: string, description: string, category: string, status: string,
    startDate: string, dueDate: string, selectedMembers: seq<string>)

  /** The `internal_projects` fields written; `createdBy` and `progress` are sent only for a new project. */
  datatype ProjectPayload = ProjectPayload(
    title: string, description: string, category: string, status: string,
    startDate: Option<string>, dueDate: Option<string>,
    createdBy: Option<string>, progress: Option<int>)

  /** What a submit does: nothing without a signed-in user, else the payload, the project's id and the new member table. */
  datatype SaveResult =
    | NoUser
    | Saved(payload: ProjectPayload, projectId: string, members: seq<MemberRow>)

  /** A new project starts in 'Tecnologia', planning, with no dates and no team. */
  function BlankForm(): (f: Form)
    ensures f.category == "Tecnologia" && f.status == "planning"
    ensures f.title == f.description == f.startDate == f.dueDate == "" && f.selectedMembers == []
  {
    Form("", "", "Tecnologia", "planning", "", "", [])
  }

  /** `m.profile?.id || m.user_id`. */
  function PrefillId(m: MemberRef): (id: string)
    ensures m.profileId.Some? && m.profileId.value != "" ==> id == m.profileId.value
    ensures m.profileId.None? || m.profileId == Some("") ==> id == m.userId
  {
    if m.profileId.Some? && m.profileId.value != "" then m.profileId.value else m.userId
  }

  /** The form for a project being edited. */
  function Prefill(p: ProjectToEdit): (f: Form)
    ensures f.title == p.title && f.category == p.category
    ensures f.description == OrEmpty(p.description)
    ensures f.status == (if p.status.Some? && p.status.value != "" then p.status.value else "planning")
    ensures f.startDate == OrEmpty(p.startDate) && f.dueDate == OrEmpty(p.dueDate)
    ensures p.members.None? ==> f.selectedMembers == []
    ensures p.members.Some? ==> (|f.selectedMembers| == |p.members.value|
      && forall i :: 0 <= i < |p.members.value| ==> f.selectedMembers[i] == PrefillId(p.members.value[i]))
  {
    Form(p.title, OrEmpty(p.description), p.category,
         if p.status.Some? && p.status.value != "" then p.status.value else "planning",
         OrEmpty(p.startDate), OrEmpty(p.dueDate),
         if p.members.Some? then Map(p.members.value, PrefillId) else [])
  }

  /** The project row for the form: empty dates become `null`; only a new project gets its creator and progress 0. */
  function PayloadOf(f: Form, editing: bool, user: string): (p: ProjectPayload)
    ensures p.title == f.title && p.description == f.description
    ensures p.category == f.category && p.status == f.status
    ensures p.startDate == OrNull(f.startDate) && p.dueDate == OrNull(f.dueDate)
    ensures editing ==> p.createdBy.None? && p.progress.None?
    ensures !editing ==> p.createdBy == Some(user) && p.progress == Some(0)
  {
    ProjectPayload(f.title, f.description, f.category, f.status, OrNull(f.startDate), OrNull(f.dueDate),
                   if editing then None else Some(user), if editing then None else Some(0))
  }

  function MemberRowOf(projectId: string): (make: string -> MemberRow)
    ensures forall uid :: make(uid) == MemberRow(projectId, uid, "member")
  {
    (uid: string) => MemberRow(projectId, uid, "member")
  }

  /** One 'member' row per selected id, in the order of selection. */
  function MemberRows(projectId: string, ids: seq<string>): (rows: seq<MemberRow>)
    ensures |rows| == |ids|
    ensures forall i :: 0 <= i < |ids| ==> rows[i] == MemberRow(projectId, ids[i], "member")
  {
    Map(ids, MemberRowOf(projectId))
  }

  function InProject(projectId: string): (test: MemberRow -> bool)
    ensures forall r :: test(r) == (r.projectId == projectId)
  {
    (r: MemberRow) => r.projectId == projectId
  }

  function OutsideProject(projectId: string): (test: MemberRow -> bool)
    ensures forall r :: test(r) == (r.projectId != projectId)
  {
    (r: MemberRow) => r.projectId != projectId
  }

  /**
   * The member table after a save: an edit first deletes every row of the
   * project; then one row per selected id is inserted.
   */
  function SavedMembers(rows: seq<MemberRow>, projectId: string, ids: seq<string>, editing: bool): (r: seq<MemberRow>)
  {
    (if editing then Filter(rows, OutsideProject(projectId)) else rows) + MemberRows(projectId, ids)
  }

  /** The selected ids are set for the project, whatever rows it had (on create it has none); other projects keep theirs. */
  lemma MembersReplaced(rows: seq<MemberRow>, projectId: string, ids: seq<string>, editing: bool)
    requires !editing ==> forall i :: 0 <= i < |rows| ==> rows[i].projectId != projectId
    ensures Filter(SavedMembers(rows, projectId, ids, editing), InProject(projectId)) == MemberRows(projectId, ids)
    ensures Filter(SavedMembers(rows, projectId, ids, editing), OutsideProject(projectId))
         == Filter(rows, OutsideProject(projectId))
  {
    var kept := if editing then Filter(rows, OutsideProject(projectId)) else rows;
    var added := MemberRows(projectId, ids);
    FilterAppend(kept, added, InProject(projectId));
    FilterAppend(kept, added, OutsideProject(projectId));
    FilterAll(added, InProject(projectId));
    FilterNone(added, OutsideProject(projectId));
    FilterNone(kept, InProject(projectId));
    if editing {
      FilterAll(kept, OutsideProject(projectId));
    } else {
      FilterAll(rows, OutsideProject(projectId));
    }
  }

  /**
   * Opening on a project and saving it unchanged writes back its fields
   * (a missing status as planning, an empty date as `null`) and sets its
   * team to the ids its members were shown under.
   */
  lemma SaveUnchanged(p: ProjectToEdit, user: string, rows: seq<MemberRow>)
    ensures var pay := PayloadOf(Prefill(p), true, user);
      pay.title == p.title && pay.category == p.category
      && pay.startDate == (if p.startDate == Some("") then None else p.startDate)
      && pay.dueDate == (if p.dueDate == Some("") then None else p.dueDate)
      && pay.createdBy.None? && pay.progress.None?
    ensures p.members.Some? ==>
      Filter(SavedMembers(rows, p.id, Prefill(p).selectedMembers, true), InProject(p.id))
        == Map(p.members.value, (m: MemberRef) => MemberRow(p.id, PrefillId(m), "member"))
  {
    MembersReplaced(rows, p.id, Prefill(p).selectedMembers, true);
  }

  class ProjectDialog {
    var form: Form

    constructor ()
      ensures form == BlankForm()
    {
      form := BlankForm();
    }

    /** The opening effect: prefill from the project being edited, else a blank form. */
    method Open(edit: Option<ProjectToEdit>)
      modifies this
      ensures form == (if edit.Some? then Prefill(edit.value) else BlankForm())
    {
      if edit.Some? {
        form := Prefill(edit.value);
      } else {
        form := BlankForm();
      }
    }

    /** A team chip: a selected id is removed, another is appended; nothing else changes. */
    method ToggleMember(uid: string)
      modifies this
      ensures form == old(form).(selectedMembers := Toggle(old(form).selectedMembers, uid))
      ensures uid in form.selectedMembers <==> uid !in old(form).selectedMembers
    {
      if uid in form.selectedMembers {
        form := form.(selectedMembers := Remove(form.selectedMembers, uid));
      } else {
        form := form.(selectedMembers := form.selectedMembers + [uid]);
      }
    }

    /**
     * `handleSubmit` when the requests succeed. `user` is the signed-in
     * user, `newId` the id the database gives a new project and `rows` the
     * member table before the save.
     */
    method Submit(user: Option<string>, edit: Option<ProjectToEdit>, newId: string, rows: seq<MemberRow>)
      returns (r: SaveResult)
      ensures user.None? ==> r == NoUser
      ensures user.Some? ==> (r.Saved?
        && r.payload == PayloadOf(form, edit.Some?, user.value)
        && r.projectId == (if edit.Some? then edit.value.id else newId)
        && r.members == SavedMembers(rows, r.projectId, form.selectedMembers, edit.Some?))
    {
      if user.None? {
        return NoUser;
      }
      var payload := ProjectPayload(form.title, form.description, form.category, form.status,
                                    OrNull(form.startDate), OrNull(form.dueDate), None, None);
      if edit.None? {
        payload := payload.(createdBy := Some(user.value), progress := Some(0));
      }
      var projectId := if edit.Some? then edit.value.id else newId;
      var table := rows;
      if edit.Some? {
        table := Filter(table, OutsideProject(projectId));
      }
      if |form.selectedMembers| > 0 {
        table := table + MemberRows(projectId, form.selectedMembers);
      } else {
        assert MemberRows(projectId, form.selectedMembers) == [];
        assert table + [] == table;
      }
      r := Saved(payload, projectId, table);
    }
  }
}
