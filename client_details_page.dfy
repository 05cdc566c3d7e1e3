/**
 * The deal detail page (pages/ClientDetailsPage.tsx): the section editor
 * and the fields each section saves, the task dialog with its coupled
 * priority and urgency, the task list's toggles and filter, and the
 * pipeline tracker.
 */
module ClientDetailsPage {
  import opened Wrappers
  import opened Text
  import opened Lists
  import opened Records
  import Numbers

  // ------------------------------------------------------------- sections

  datatype Section = ClientSection | ContactSection | AssigneeSection | TagsSection

  /** The deal columns each section edits. */
  function SectionFields(section: Section): (keys: seq<string>)
    ensures |keys| >= 1
  {
    match section
    case ClientSection => ["client_name"]
    case ContactSection => ["contact_name", "email", "phone"]
    case AssigneeSection => ["assignee_id"]
    case TagsSection => ["tag"]
  }

  /** The value of one of those columns on a deal (`null` as `None`). */
  function FieldValue(d: Deal, key: string): Option<string> {
    match key
    case "client_name" => Some(d.clientName)
    case "contact_name" => d.contactName
    case "email" => d.email
    case "phone" => d.phone
    case "assignee_id" => d.assigneeId
    case _ => d.tag
  }

  /** `handleSaveEdit`: the update holds exactly the edited section's columns, valued from the edit form; no section sends nothing. */
  function SaveEdit(section: Option<Section>, form: Deal): (updates: seq<(string, Option<string>)>)
    ensures section.None? ==> updates == []
    ensures section.Some? ==>
      |updates| == |SectionFields(section.value)|
      && forall i :: 0 <= i < |updates| ==>
        updates[i].0 == SectionFields(section.value)[i] && updates[i].1 == FieldValue(form, updates[i].0)
  {
    if section.None? then []
    else Map(SectionFields(section.value), (k: string) => (k, FieldValue(form, k)))
  }

  /** No two sections share a column, so saving one section never overwrites another's columns. */
  lemma SectionsDisjoint(a: Section, b: Section, i: int, j: int)
    requires a != b && 0 <= i < |SectionFields(a)| && 0 <= j < |SectionFields(b)|
    ensures SectionFields(a)[i] != SectionFields(b)[j]
  {
  }

  // ---------------------------------------------------------- task dialog

  /** A `deal_tasks` row as the page holds it. */
  datatype ClientTask = ClientTask(
    id: string, title: string, isCompleted: bool, isUrgent: bool, priority: Option<string>,
    description: Option<string>, dueDate: Option<string>, assigneeIds: Option<seq<string>>)

  /** What the task dialog saves. */
  datatype TaskPayload = TaskPayload(
    title: string, isUrgent: bool, priority: string, description: string,
    dueDate: Option<string>, assigneeIds: seq<string>, assigneeId: Option<string>)

  /** The priority shown when editing a task: its own, else high for an urgent task and medium otherwise. */
  function EditPriority(t: ClientTask): (p: string)
    ensures t.priority.Some? && t.priority.value != "" ==> p == t.priority.value
    ensures (t.priority.None? || t.priority.value == "") ==> p == (if t.isUrgent then "alta" else "média")
  {
    if t.priority.Some? && t.priority.value != "" then t.priority.value
    else if t.isUrgent then "alta" else "média"
  }

  /**
   * The task dialog's fields. `today` is today's date as the date input
   * shows it; `dayOf` turns a stored due instant into that form, and
   * `noonOf` turns an input date into the instant stored (noon that day).
   */
  class TaskDialog {
    var title: string
    var urgent: bool
    var priority: string
    var description: string
    var dueDate: string
    var assigneeIds: seq<string>

    constructor (today: string)
      ensures title == "" && !urgent && priority == "média" && description == "" && dueDate == today && assigneeIds == []
    {
      title := "";
      urgent := false;
      priority := "média";
      description := "";
      dueDate := today;
      assigneeIds := [];
    }

    /** The effect run on opening: an edited task's fields, or a new task due today. */
    method Open(taskToEdit: Option<ClientTask>, today: string, dayOf: string -> string)
      modifies this
      ensures taskToEdit.None? ==>
        title == "" && !urgent && priority == "média" && description == "" && dueDate == today && assigneeIds == []
      ensures taskToEdit.Some? ==>
        var t := taskToEdit.value;
        title == t.title && urgent == t.isUrgent && priority == EditPriority(t)
        && description == (if t.description.Some? then t.description.value else "")
        && dueDate == (if t.dueDate.Some? && t.dueDate.value != "" then dayOf(t.dueDate.value) else "")
        && assigneeIds == (if t.assigneeIds.Some? then t.assigneeIds.value else [])
    {
      if taskToEdit.Some? {
        var t := taskToEdit.value;
        title := t.title;
        urgent := t.isUrgent;
        priority := EditPriority(t);
        description := if t.description.Some? then t.description.value else "";
        dueDate := if t.dueDate.Some? && t.dueDate.value != "" then dayOf(t.dueDate.value) else "";
        assigneeIds := if t.assigneeIds.Some? then t.assigneeIds.value else [];
      } else {
        title := "";
        urgent := false;
        priority := "média";
        description := "";
        dueDate := today;
        assigneeIds := [];
      }
    }

    /** A priority button: high marks the task urgent, any other priority clears the mark. */
    method ChoosePriority(p: string)
      modifies this
      ensures priority == p && (urgent <==> p == "alta")
      ensures title == old(title) && description == old(description)
      ensures dueDate == old(dueDate) && assigneeIds == old(assigneeIds)
    {
      priority := p;
      if p == "alta" {
        urgent := true;
      } else if urgent {
        urgent := false;
      }
    }

    /** The urgent box: checking it forces high priority; unchecking keeps the priority. */
    method SetUrgent(checked: bool)
      modifies this
      ensures urgent == checked
      ensures checked ==> priority == "alta"
      ensures !checked ==> priority == old(priority)
      ensures title == old(title) && description == old(description)
      ensures dueDate == old(dueDate) && assigneeIds == old(assigneeIds)
    {
      urgent := checked;
      if checked {
        priority := "alta";
      }
    }

    /** An assignee chip: removed when present, appended otherwise. */
    method ToggleAssignee(id: string)
      modifies this
      ensures assigneeIds == Toggle(old(assigneeIds), id)
      ensures title == old(title) && urgent == old(urgent) && priority == old(priority)
      ensures description == old(description) && dueDate == old(dueDate)
    {
      assigneeIds := Toggle(assigneeIds, id);
    }

    method Save(noonOf: string -> string) returns (payload: Option<TaskPayload>)
      ensures payload == TaskSave(title, urgent, priority, description, dueDate, assigneeIds, noonOf)
    {
      payload := TaskSave(title, urgent, priority, description, dueDate, assigneeIds, noonOf);
    }
  }

  /**
   * `handleSave`: nothing for a blank title; otherwise the task is urgent
   * when marked so or of high priority, and its single assignee is the
   * first of the chosen ones.
   */
  function TaskSave(title: string, urgent: bool, priority: string, description: string, dueDate: string,
                    assigneeIds: seq<string>, noonOf: string -> string): (r: Option<TaskPayload>)
    ensures r.None? <==> IsBlank(title)
    ensures r.Some? ==>
      r.value.title == title && (r.value.isUrgent <==> urgent || priority == "alta")
      && r.value.priority == priority && r.value.assigneeIds == assigneeIds
      && r.value.description == description
      && r.value.dueDate == (if dueDate == "" then None else Some(noonOf(dueDate)))
      && (r.value.assigneeId.Some? ==> |assigneeIds| > 0 && r.value.assigneeId.value == assigneeIds[0])
      && (|assigneeIds| > 0 && assigneeIds[0] != "" ==> r.value.assigneeId == Some(assigneeIds[0]))
  {
    TrimEmptyIffBlank(title);
    if Trim(title) == [] then None
    else Some(TaskPayload(
      title, urgent || priority == "alta", priority, description,
      if dueDate != "" then Some(noonOf(dueDate)) else None,
      assigneeIds,
      if |assigneeIds| > 0 && assigneeIds[0] != "" then Some(assigneeIds[0]) else None))
  }

  /** Two clicks on a chip not yet chosen restore the assignee list. */
  lemma ToggleAssigneeTwice(ids: seq<string>, id: string)
    requires id !in ids
    ensures Toggle(Toggle(ids, id), id) == ids
  {
    ToggleTwice(ids, id);
  }

  // ------------------------------------------------------------ task list

  /** The task list's filter: 'pending' or 'done' after the completion flag, anything else every task. */
  predicate Listed(filter: string, t: ClientTask) {
    if filter == "pending" then !t.isCompleted
    else if filter == "done" then t.isCompleted
    else true
  }

  function ListedTasks(tasks: seq<ClientTask>, filter: string): (r: seq<ClientTask>)
    ensures |r| <= |tasks|
    ensures forall i :: 0 <= i < |r| ==> r[i] in tasks && Listed(filter, r[i])
    ensures forall i :: 0 <= i < |tasks| && Listed(filter, tasks[i]) ==> tasks[i] in r
  {
    FilterKeeps(tasks, (t: ClientTask) => Listed(filter, t));
    FilterComplete(tasks, (t: ClientTask) => Listed(filter, t));
    Filter(tasks, (t: ClientTask) => Listed(filter, t))
  }

  /** The pending and done lists split the tasks between them. */
  lemma ListedSplit(tasks: seq<ClientTask>)
    ensures |ListedTasks(tasks, "pending")| + |ListedTasks(tasks, "done")| == |tasks|
    ensures ListedTasks(tasks, "all") == tasks
  {
    CountComplement(tasks, (t: ClientTask) => Listed("pending", t), (t: ClientTask) => Listed("done", t));
    FilterAll(tasks, (t: ClientTask) => Listed("all", t));
  }

  /** The update a completion checkbox sends: the flag negated. */
  function ToggleCompletedUpdate(t: ClientTask): (isCompleted: bool)
    ensures isCompleted != t.isCompleted
  {
    !t.isCompleted
  }

  /** The optimistic urgency flip of one task: urgency negated, priority high or medium to match. */
  function FlipUrgency(t: ClientTask, target: ClientTask): (r: ClientTask)
    ensures t.id != target.id ==> r == t
    ensures t.id == target.id ==>
      r == t.(isUrgent := !target.isUrgent, priority := Some(if !target.isUrgent then "alta" else "média"))
  {
    if t.id == target.id then t.(isUrgent := !target.isUrgent, priority := Some(if !target.isUrgent then "alta" else "média"))
    else t
  }

  // -------------------------------------------------------------- tracker

  datatype StepState = Completed | Active | Upcoming

  /** A stage's mark on the tracker, for the deal's stage at `current` (-1 when it is in none). */
  function StepOf(idx: int, current: int): (s: StepState)
    ensures s == Completed <==> idx < current
    ensures s == Active <==> idx == current
  {
    if idx < current then Completed else if idx == current then Active else Upcoming
  }

  /** The stages' marks: those before the deal's stage done, its own active, the rest to come. */
  function TrackerSteps(stages: seq<Column>, pipelineId: Option<string>): (steps: seq<StepState>)
    ensures |steps| == |stages|
    ensures var current := ColumnIndex(stages, pipelineId);
      forall i :: 0 <= i < |steps| ==> (steps[i] == Completed <==> i < current) && (steps[i] == Active <==> i == current)
  {
    var current := ColumnIndex(stages, pipelineId);
    Map(seq(|stages|, i => i), (i: int) => StepOf(i, current))
  }

  /** Exactly one stage is active when the deal is in a stage, and none when it is in none. */
  lemma OneActiveStep(stages: seq<Column>, pipelineId: Option<string>, i: int, j: int)
    requires 0 <= i < j < |stages|
    ensures var steps := TrackerSteps(stages, pipelineId); !(steps[i] == Active && steps[j] == Active)
    ensures ColumnIndex(stages, pipelineId) == -1 ==> TrackerSteps(stages, pipelineId)[i] == Upcoming
  {
  }

  /** The filled bar's width in percent, drawn only with at least two stages. */
  function BarWidth(current: int, n: int): (w: Option<real>)
    ensures n > 1 <==> w.Some?
    ensures w.Some? ==> 0.0 <= w.value <= 100.0
    ensures w.Some? && current <= 0 ==> w.value == 0.0
    ensures w.Some? && current == n - 1 ==> w.value == 100.0
    ensures w.Some? && 0 <= current <= n - 1 ==> w.value == current as real / (n - 1) as real * 100.0
    ensures w.Some? && current >= n - 1 ==> w.value == 100.0
  {
    if n > 1 then
      var x := current as real / (n - 1) as real * 100.0;
      assert current == n - 1 ==> x == 100.0 by {
        if current == n - 1 {
          assert current as real / (n - 1) as real == 1.0;
        }
      }
      Numbers.RatioAgainstOne(current as real, (n - 1) as real);
      assert current <= 0 ==> x <= 0.0 by {
        if current <= 0 {
          assert current as real / (n - 1) as real <= 0.0;
        }
      }
      Some(if x > 100.0 then 100.0 else if x < 0.0 then 0.0 else x)
    else None
  }

  // ----------------------------------------------------------------- page

  /** The page's state for one deal. */
  class ClientPage {
    var deal: Deal
    var tasks: seq<ClientTask>
    var editingSection: Option<Section>
    var editForm: Deal

    constructor (deal: Deal, tasks: seq<ClientTask>)
      ensures this.deal == deal && this.tasks == tasks && editingSection.None? && editForm == deal
    {
      this.deal := deal;
      this.tasks := tasks;
      editingSection := None;
      editForm := deal;
    }

    /** `handleOpenEdit`: the form starts as a copy of the deal. */
    method OpenEdit(section: Section)
      modifies this
      ensures editingSection == Some(section) && editForm == deal
      ensures deal == old(deal) && tasks == old(tasks)
    {
      editForm := deal;
      editingSection := Some(section);
    }

    /** Saving a section sends its columns; the page then reloads the deal and closes the editor. */
    method SaveSection(reloaded: Deal) returns (updates: seq<(string, Option<string>)>)
      modifies this
      ensures updates == SaveEdit(old(editingSection), old(editForm))
      ensures deal == reloaded && editingSection.None? && tasks == old(tasks)
    {
      updates := SaveEdit(editingSection, editForm);
      deal := reloaded;
      editingSection := None;
    }

    /** `handleToggleUrgent`, optimistically: only that task changes. */
    method ToggleUrgent(task: ClientTask) returns (isUrgent: bool, priority: string)
      modifies this
      ensures isUrgent == !task.isUrgent && priority == (if isUrgent then "alta" else "média")
      ensures |tasks| == |old(tasks)| && forall i :: 0 <= i < |tasks| ==> tasks[i] == FlipUrgency(old(tasks)[i], task)
      ensures deal == old(deal) && editingSection == old(editingSection) && editForm == old(editForm)
    {
      isUrgent := !task.isUrgent;
      priority := if isUrgent then "alta" else "média";
      tasks := Map(tasks, (t: ClientTask) => FlipUrgency(t, task));
    }
  }

  /** Flipping a task's urgency twice restores it when its priority already matched its urgency. */
  lemma FlipUrgencyTwice(t: ClientTask)
    requires t.priority == Some(if t.isUrgent then "alta" else "média")
    ensures FlipUrgency(FlipUrgency(t, t), FlipUrgency(t, t)) == t
  {
  }
}
