/**
 * The internal-project detail page (pages/ProjectDetailsPage.tsx): the
 * done/to-do toggle of a task, the task filter, the progress ring, the
 * priority label, and the storage path a document's URL is deleted by.
 */
module ProjectDetailsPage {
  import opened Wrappers
  import opened Text
  import opened Lists
  import opened Numbers
  import CalendarPage

  /** A row of `project_tasks` as the page shows it. */
  datatype ProjectTask = ProjectTask(
    id: string, title: string, status: string, priority: Option<string>,
    isUrgent: bool, assigneeId: Option<string>, dueDate: Option<string>)

  /** The status a click gives (the same rule as the agenda's): done becomes to-do, anything else done. */
  function NextStatus(status: string): (r: string)
    ensures r == CalendarPage.Toggled(status)
    ensures r == "done" <==> status != "done"
  {
    CalendarPage.Toggled(status)
  }

  /** The page's copy of the project's tasks. */
  class ProjectView {
    var tasks: seq<ProjectTask>

    constructor (tasks: seq<ProjectTask>)
      ensures this.tasks == tasks
    {
      this.tasks := tasks;
    }

    /**
     * `toggleTaskStatus`, optimistically: only the tasks with that id take the
     * new status; the status sent is returned with the activity-log text.
     */
    method ToggleTaskStatus(task: ProjectTask) returns (newStatus: string, logText: string)
      modifies this
      ensures newStatus == NextStatus(task.status)
      ensures logText == "atualizou o status da tarefa \"" + task.title + "\" para "
                         + (if newStatus == "done" then "Concluída" else "Pendente") + "."
      ensures |tasks| == |old(tasks)|
      ensures forall i :: 0 <= i < |tasks| ==>
        tasks[i] == (if old(tasks)[i].id == task.id then old(tasks)[i].(status := newStatus) else old(tasks)[i])
    {
      newStatus := NextStatus(task.status);
      tasks := Map(tasks, (t: ProjectTask) => if t.id == task.id then t.(status := newStatus) else t);
      logText := "atualizou o status da tarefa \"" + task.title + "\" para "
                 + (if newStatus == "done" then "Concluída" else "Pendente") + ".";
    }
  }

  /** The task filter: 'pending' keeps what is not done, 'done' what is, anything else every task. */
  predicate Listed(filter: string, t: ProjectTask) {
    if filter == "pending" then t.status != "done"
    else if filter == "done" then t.status == "done"
    else true
  }

  function ListedTasks(tasks: seq<ProjectTask>, filter: string): (r: seq<ProjectTask>)
    ensures |r| <= |tasks|
    ensures forall i :: 0 <= i < |r| ==> r[i] in tasks && Listed(filter, r[i])
    ensures forall i :: 0 <= i < |tasks| && Listed(filter, tasks[i]) ==> tasks[i] in r
  {
    FilterKeeps(tasks, (t: ProjectTask) => Listed(filter, t));
    FilterComplete(tasks, (t: ProjectTask) => Listed(filter, t));
    Filter(tasks, (t: ProjectTask) => Listed(filter, t))
  }

  /** The pending and done lists split the tasks. */
  lemma ListedSplit(tasks: seq<ProjectTask>)
    ensures |ListedTasks(tasks, "pending")| + |ListedTasks(tasks, "done")| == |tasks|
  {
    CountComplement(tasks, (t: ProjectTask) => Listed("pending", t), (t: ProjectTask) => Listed("done", t));
  }

  /** The progress ring: the rounded share of done tasks, 0 without tasks. */
  function Progress(tasks: seq<ProjectTask>): (p: int)
    ensures 0 <= p <= 100
    ensures tasks == [] ==> p == 0
    ensures tasks != [] && Count(tasks, (t: ProjectTask) => t.status == "done") == |tasks| ==> p == 100
    ensures Count(tasks, (t: ProjectTask) => t.status == "done") == 0 ==> p == 0
    ensures tasks != [] ==>
      RoundsTo(p, Count(tasks, (t: ProjectTask) => t.status == "done") as real / |tasks| as real * 100.0)
  {
    var total := |tasks|;
    var done := Count(tasks, (t: ProjectTask) => t.status == "done");
    if total > 0 then Percent(done as real, total as real) else 0
  }

  /** Toggling a to-do task raises the progress, never lowering it. */
  lemma ToggleRaisesProgress(tasks: seq<ProjectTask>, i: int)
    requires 0 <= i < |tasks| && tasks[i].status != "done"
    ensures Progress(tasks[i := tasks[i].(status := "done")]) >= Progress(tasks)
  {
    var f := (t: ProjectTask) => t.status == "done";
    var after := tasks[i := tasks[i].(status := "done")];
    CountRaise(tasks, i, f, tasks[i].(status := "done"));
    ScaleMonotone(Count(tasks, f) as real, Count(after, f) as real, |tasks| as real);
    RoundMonotone(Count(tasks, f) as real / |tasks| as real * 100.0, Count(after, f) as real / |tasks| as real * 100.0);
  }

  lemma ScaleMonotone(x: real, y: real, n: real)
    requires x <= y && n > 0.0
    ensures x / n * 100.0 <= y / n * 100.0
  {
    assert y / n * 100.0 - x / n * 100.0 == (y - x) / n * 100.0;
  }

  /** Replacing an element failing `f` by one passing it adds one to the count. */
  lemma {:induction false} CountRaise<T>(xs: seq<T>, i: int, f: T -> bool, y: T)
    requires 0 <= i < |xs| && !f(xs[i]) && f(y)
    ensures Count(xs[i := y], f) == Count(xs, f) + 1
  {
    if i > 0 {
      assert xs[i := y][1..] == xs[1..][i - 1 := y];
      CountRaise(xs[1..], i - 1, f, y);
    } else {
      assert xs[i := y][1..] == xs[1..];
    }
  }

  /** The priority badge: the three known priorities in Portuguese, any other shown as stored, 'Normal' when empty. */
  function PriorityLabel(priority: Option<string>): (badge: string)
    ensures priority == Some("low") ==> badge == "Baixa"
    ensures priority == Some("medium") ==> badge == "Média"
    ensures priority == Some("high") ==> badge == "Alta"
    ensures priority.None? || priority == Some("") ==> badge == "Normal"
    ensures priority.Some? && priority.value !in {"low", "medium", "high", ""} ==> badge == priority.value
  {
    match priority
    case None => "Normal"
    case Some(p) =>
      if p == "low" then "Baixa"
      else if p == "medium" then "Média"
      else if p == "high" then "Alta"
      else if p == "" then "Normal"
      else p
  }

  const StorageMarker: string := "/project-files/"

  /**
   * The storage object of a document, from its URL's path: the text after
   * the first '/project-files/', up to the next one if there is one, URL-
   * decoded by `decode`. A path without the marker is an error (`None`).
   */
  function StoragePath(pathname: string, decode: string -> string): (r: Option<string>)
    ensures r.None? <==> forall j :: !OccursAt(pathname, StorageMarker, j)
    ensures r.Some? ==>
      exists i, k :: FirstSegment(pathname, StorageMarker, i, k)
        && r == Some(decode(pathname[i + |StorageMarker|..][..k]))
  {
    var parts := Split(pathname, StorageMarker);
    SecondPiece(pathname, StorageMarker);
    if |parts| < 2 then None else Some(decode(parts[1]))
  }

  /** The first piece of a split ends where the separator first occurs, or runs to the end. */
  lemma SplitHead(s: string, sep: string)
    requires |sep| > 0
    ensures IndexOf(s, sep).None? ==> Split(s, sep) == [s]
    ensures IndexOf(s, sep).Some? ==>
      var i := IndexOf(s, sep).value;
      |Split(s, sep)| >= 2 && Split(s, sep)[0] == s[..i] && Split(s, sep)[1..] == Split(s[i + |sep|..], sep)
  {
  }

  /**
   * `k` ends the first piece after the first marker of `s`, at `i`: the piece
   * runs to the next marker or to the end of the text.
   */
  predicate FirstSegment(s: string, sep: string, i: int, k: int) {
    OccursAt(s, sep, i)
    && NoneBefore(s, sep, i)
    && 0 <= k <= |s| - i - |sep|
    && (k == |s| - i - |sep| || OccursAt(s[i + |sep|..], sep, k))
    && NoneBefore(s[i + |sep|..], sep, k)
  }

  /** `sep` does not occur in `s` before position `k`. */
  predicate NoneBefore(s: string, sep: string, k: int) {
    forall j :: 0 <= j < k ==> !OccursAt(s, sep, j)
  }

  /** The second piece of a split is the text between the first separator and the next (or the end); without a separator there is none. */
  lemma SecondPiece(s: string, sep: string)
    requires |sep| > 0
    ensures |Split(s, sep)| < 2 <==> forall j :: !OccursAt(s, sep, j)
    ensures |Split(s, sep)| >= 2 ==>
      exists i, k :: FirstSegment(s, sep, i, k) && Split(s, sep)[1] == s[i + |sep|..][..k]
  {
    SplitHead(s, sep);
    var first := IndexOf(s, sep);
    if first.Some? {
      var i := first.value;
      var rest := s[i + |sep|..];
      SplitHead(rest, sep);
      var k := if IndexOf(rest, sep).Some? then IndexOf(rest, sep).value else |rest|;
      assert rest[..|rest|] == rest;
      assert FirstSegment(s, sep, i, k);
    }
  }
}
