/**
 * The create/edit project-task dialog (components/AddProjectTaskModal.tsx):
 * how the form is initialised, which project the task goes to, the task
 * row it writes and the history entry it logs.
 */
module AddProjectTaskModal {
  import opened Wrappers
  import opened Text
  import opened ProjectHistory

  /** The task the dialog is opened on. */
  datatype TaskToEdit = TaskToEdit(
    id: string, title: string, assigneeId: Option<string>, projectId: Option<string>,
    dueDate: Option<string>, priority: Option<string>)

  datatype Form = Form(title: string, assigneeId: string, projectId: string, dueDate: string, priority: string)

  /** The `project_tasks` fields written; `status` is sent only for a new task. */
  datatype TaskPayload = TaskPayload(
    projectId: Option<string>, title: string, assigneeId: Option<string>,
    dueDate: Option<string>, priority: string, status: Option<string>)

  /**
   * `initForm`. For an edit, the task's fields, its project or else the
   * page's, its due date cut to the day by `isoDay` (which stands for
   * `new Date(d).toISOString().split('T')[0]`), and 'medium' for a missing
   * priority. For a new task, the signed-in user as assignee and the
   * page's project.
   */
  function InitialForm(edit: Option<TaskToEdit>, pageProject: string, user: Option<string>,
                       isoDay: string -> string): (f: Form)
    ensures edit.Some? ==> (f.title == edit.value.title && f.assigneeId == OrEmpty(edit.value.assigneeId)
      && f.projectId == OrDefault(edit.value.projectId, pageProject)
      && f.priority == OrDefault(edit.value.priority, "medium"))
    ensures edit.Some? && (edit.value.dueDate.None? || edit.value.dueDate == Some("")) ==> f.dueDate == ""
    ensures edit.Some? && edit.value.dueDate.Some? && edit.value.dueDate.value != "" ==>
      f.dueDate == isoDay(edit.value.dueDate.value)
    ensures edit.None? ==> f == Form("", OrEmpty(user), pageProject, "", "medium")
  {
    match edit
    case Some(t) =>
      Form(t.title, OrEmpty(t.assigneeId), OrDefault(t.projectId, pageProject),
           if t.dueDate.Some? && t.dueDate.value != "" then isoDay(t.dueDate.value) else "",
           OrDefault(t.priority, "medium"))
    case None => Form("", OrEmpty(user), pageProject, "", "medium")
  }

  /** `formData.project_id || projectId || null`. */
  function TargetProject(f: Form, pageProject: string): (p: Option<string>)
    ensures f.projectId != "" ==> p == Some(f.projectId)
    ensures f.projectId == "" && pageProject != "" ==> p == Some(pageProject)
    ensures p.None? <==> f.projectId == "" && pageProject == ""
  {
    if f.projectId != "" then Some(f.projectId) else OrNull(pageProject)
  }

  /** The task row: empty assignee and due date become `null`; only a new task gets status 'todo'. */
  function PayloadOf(f: Form, pageProject: string, editing: bool): (p: TaskPayload)
    ensures p.projectId == TargetProject(f, pageProject) && p.title == f.title && p.priority == f.priority
    ensures p.assigneeId == OrNull(f.assigneeId) && p.dueDate == OrNull(f.dueDate)
    ensures editing <==> p.status.None?
    ensures !editing ==> p.status == Some("todo")
  {
    TaskPayload(TargetProject(f, pageProject), f.title, OrNull(f.assigneeId), OrNull(f.dueDate), f.priority,
                if editing then None else Some("todo"))
  }

  /**
   * The history entry logged after the write: an edit is logged on the
   * page's project, a creation on the target project; neither is logged
   * without a signed-in user or without that project.
   */
  function LogEntry(f: Form, pageProject: string, editing: bool, user: Option<string>): (e: Option<HistoryEntry>)
    ensures e.Some? <==> user.Some? && (if editing then pageProject != "" else TargetProject(f, pageProject).Some?)
    ensures e.Some? ==> e.value.userId == user.value
    ensures e.Some? && editing ==> e.value.projectId == pageProject && e.value.action == "UPDATE"
    ensures e.Some? && !editing ==> Some(e.value.projectId) == TargetProject(f, pageProject) && e.value.action == "CREATE"
  {
    if user.None? then None
    else if editing then
      if pageProject == "" then None
      else Some(HistoryEntry(pageProject, user.value, "UPDATE", "atualizou os detalhes da tarefa \"" + f.title + "\"."))
    else
      var target := TargetProject(f, pageProject);
      if target.None? then None
      else Some(HistoryEntry(target.value, user.value, "CREATE", "criou a tarefa \"" + f.title + "\"."))
  }

  /**
   * Opening on a task and saving it unchanged writes back its title, its
   * project (or the page's), its assignee and its priority (medium when
   * missing), and leaves its status alone.
   */
  lemma EditUnchanged(t: TaskToEdit, pageProject: string, user: Option<string>, isoDay: string -> string)
    ensures var p := PayloadOf(InitialForm(Some(t), pageProject, user, isoDay), pageProject, true);
      p.title == t.title && p.status.None?
      && p.assigneeId == (if t.assigneeId == Some("") then None else t.assigneeId)
      && p.priority == OrDefault(t.priority, "medium")
      && (t.projectId.Some? && t.projectId.value != "" ==> p.projectId == t.projectId)
      && (pageProject != "" ==> p.projectId.Some?)
  {
  }

  /** A new task opened on a project page goes to that page's project, assigned to whoever is signed in. */
  lemma NewTaskOnPage(pageProject: string, user: string, isoDay: string -> string)
    requires pageProject != "" && user != ""
    ensures var p := PayloadOf(InitialForm(None, pageProject, Some(user), isoDay), pageProject, false);
      p.projectId == Some(pageProject) && p.assigneeId == Some(user) && p.status == Some("todo")
      && p.priority == "medium" && p.dueDate.None?
  {
  }

  class TaskDialog {
    var form: Form

    constructor ()
      ensures form == Form("", "", "", "", "medium")
    {
      form := Form("", "", "", "", "medium");
    }

    /** The opening effect. */
    method Open(edit: Option<TaskToEdit>, pageProject: string, user: Option<string>, isoDay: string -> string)
      modifies this
      ensures form == InitialForm(edit, pageProject, user, isoDay)
    {
      form := InitialForm(edit, pageProject, user, isoDay);
    }

    /** `handleSubmit` when the write succeeds: the task row, built field by field, and the history entry. */
    method Submit(pageProject: string, editing: bool, user: Option<string>)
      returns (payload: TaskPayload, entry: Option<HistoryEntry>)
      ensures payload == PayloadOf(form, pageProject, editing)
      ensures entry == LogEntry(form, pageProject, editing, user)
    {
      var target := if form.projectId != "" then Some(form.projectId) else if pageProject != "" then Some(pageProject) else None;
      payload := TaskPayload(target, form.title, OrNull(form.assigneeId), OrNull(form.dueDate), form.priority, None);
      if editing {
        entry := None;
        if user.Some? && pageProject != "" {
          entry := Some(HistoryEntry(pageProject, user.value, "UPDATE", "atualizou os detalhes da tarefa \"" + form.title + "\"."));
        }
      } else {
        payload := payload.(status := Some("todo"));
        entry := None;
        if user.Some? && target.Some? {
          entry := Some(HistoryEntry(target.value, user.value, "CREATE", "criou a tarefa \"" + form.title + "\"."));
        }
      }
    }
  }
}
