/**
 * The agenda page (pages/CalendarPage.tsx): project and deal tasks merged
 * into one list, their filters, their order, the grid limit and the
 * statistics, the done/to-do toggle, and the week and month grids with
 * their navigation. Instants are minutes since 1970-01-01 00:00 and dates
 * are `Civil` values, both in one fixed time zone.
 */
module CalendarPage {
  import opened Wrappers
  import opened Lists
  import opened Numbers
  import opened Dates

  datatype Source = ProjectSource | DealSource

  /** A task as the page lists it, whichever table it came from. */
  datatype CalendarTask = CalendarTask(
    id: string, title: string, description: Option<string>, dueDate: Option<int>,
    status: string, priority: string, projectId: Option<string>, assigneeIds: Option<seq<string>>,
    source: Source, sourceTitle: Option<string>, category: Option<string>)

  /** A row of `project_tasks` joined with its project's title and category. */
  datatype ProjectTaskRow = ProjectTaskRow(
    id: string, title: string, description: Option<string>, dueDate: Option<int>,
    status: string, priority: string, projectId: Option<string>, assigneeIds: Option<seq<string>>,
    projectTitle: Option<string>, projectCategory: Option<string>)

  /** A row of `deal_tasks` joined with its deal's client name. */
  datatype DealTaskRow = DealTaskRow(
    id: string, title: string, dueDate: Option<int>, isCompleted: bool, isUrgent: bool,
    assigneeIds: Option<seq<string>>, clientName: Option<string>)

  // -------------------------------------------------------- normalisation

  /** A project task in the page's shape: every field of the row kept, tagged with its project's title and category. */
  function FromProject(t: ProjectTaskRow): (c: CalendarTask)
    ensures c.source == ProjectSource && c.id == t.id && c.status == t.status && c.priority == t.priority
    ensures c.title == t.title && c.description == t.description
    ensures c.projectId == t.projectId && c.assigneeIds == t.assigneeIds
    ensures c.sourceTitle == t.projectTitle && c.category == t.projectCategory && c.dueDate == t.dueDate
  {
    CalendarTask(t.id, t.title, t.description, t.dueDate, t.status, t.priority, t.projectId, t.assigneeIds,
                 ProjectSource, t.projectTitle, t.projectCategory)
  }

  /** A deal task in the page's shape: done or to-do after its flag, high or medium priority after its urgency, filed under sales. */
  function FromDeal(t: DealTaskRow): (c: CalendarTask)
    ensures c.source == DealSource && c.id == t.id && c.title == t.title
    ensures c.dueDate == t.dueDate && c.assigneeIds == t.assigneeIds
    ensures c.status == "done" <==> t.isCompleted
    ensures c.status == "todo" <==> !t.isCompleted
    ensures c.priority == "high" <==> t.isUrgent
    ensures c.priority == "medium" <==> !t.isUrgent
    ensures c.category == Some("Vendas") && c.projectId.None? && c.sourceTitle == t.clientName
  {
    var client := if t.clientName.Some? then t.clientName.value else "undefined";
    CalendarTask(t.id, t.title, Some("Tarefa da oportunidade: " + client), t.dueDate,
                 if t.isCompleted then "done" else "todo",
                 if t.isUrgent then "high" else "medium",
                 None, t.assigneeIds, DealSource, t.clientName, Some("Vendas"))
  }

  // ---------------------------------------------------------------- order

  /** `new Date('9999-12-31')`, the due date a task without one sorts at. */
  const FarFuture: int := DayNumber(Civil(9999, 11, 31)) * MinutesPerDay

  /** The order of the task list: tasks not done first, then by due date, a missing date last in its group. */
  function TaskKey(t: CalendarTask): (k: (int, int))
    ensures k.0 == (if t.status == "done" then 1 else 0)
    ensures k.1 == t.dueDate.GetOr(FarFuture)
  {
    (if t.status == "done" then 1 else 0, t.dueDate.GetOr(FarFuture))
  }

  function SortTasks(tasks: seq<CalendarTask>): (r: seq<CalendarTask>)
    ensures multiset(r) == multiset(tasks)
  {
    SortBy(tasks, TaskKey)
  }

  /** The merged list as fetched: the normalised project tasks and deal tasks, sorted. */
  function MergeTasks(projectRows: seq<ProjectTaskRow>, dealRows: seq<DealTaskRow>): (r: seq<CalendarTask>)
    ensures |r| == |projectRows| + |dealRows|
    ensures multiset(r) == multiset(Map(projectRows, FromProject) + Map(dealRows, FromDeal))
  {
    SortTasks(Map(projectRows, FromProject) + Map(dealRows, FromDeal))
  }

  /** In a sorted list a done task never precedes one not done, and within either group due dates never decrease. */
  lemma SortTasksOrder(tasks: seq<CalendarTask>, i: int, j: int)
    requires 0 <= i < j < |SortTasks(tasks)|
    ensures var s := SortTasks(tasks); InAgendaOrder(s[i], s[j])
  {
    SortBySorted(tasks, TaskKey);
  }

  /** `a` may come before `b` in the sorted agenda: tasks not done first, then the earlier due date. */
  predicate InAgendaOrder(a: CalendarTask, b: CalendarTask) {
    (a.status == "done" ==> b.status == "done")
    && ((a.status == "done") == (b.status == "done") ==> a.dueDate.GetOr(FarFuture) <= b.dueDate.GetOr(FarFuture))
  }

  /** The tasks on show are loaded tasks that pass the filters, all of them in the list view. */
  lemma AgendaListed(tasks: seq<CalendarTask>, f: TaskFilters, now: int, gridView: bool)
    ensures var r := DisplayedTasks(SortTasks(FilteredTasks(tasks, f, now)), gridView);
      (forall i :: 0 <= i < |r| ==> r[i] in tasks && TaskPasses(f, r[i], now))
      && (!gridView ==> multiset(r) == multiset(FilteredTasks(tasks, f, now)))
  {
    var l := FilteredTasks(tasks, f, now);
    var s := SortTasks(l);
    var r := DisplayedTasks(s, gridView);
    forall i | 0 <= i < |r| ensures r[i] in tasks && TaskPasses(f, r[i], now) {
      assert r[i] == s[i];
      assert s[i] in multiset(l);
    }
  }

  /** The tasks on show come in the agenda's order. */
  lemma AgendaOrdered(tasks: seq<CalendarTask>, f: TaskFilters, now: int, gridView: bool)
    ensures var r := DisplayedTasks(SortTasks(FilteredTasks(tasks, f, now)), gridView);
      forall i, j :: 0 <= i < j < |r| ==> InAgendaOrder(r[i], r[j])
  {
    var l := FilteredTasks(tasks, f, now);
    var s := SortTasks(l);
    var r := DisplayedTasks(s, gridView);
    forall i, j | 0 <= i < j < |r| ensures InAgendaOrder(r[i], r[j]) {
      assert r[i] == s[i] && r[j] == s[j];
      SortTasksOrder(l, i, j);
    }
  }

  /** Sorting keeps the tasks with equal keys in their previous order. */
  lemma SortTasksStable(tasks: seq<CalendarTask>, k: (int, int))
    ensures Filter(SortTasks(tasks), HasKey(TaskKey, k)) == Filter(tasks, HasKey(TaskKey, k))
  {
    SortByStable(tasks, TaskKey, k);
  }

  // -------------------------------------------------------------- filters

  /** The filter bar: status 'all' | 'pending' | 'done', a priority or 'all', a date filter, an assignee id or 'all'. */
  datatype TaskFilters = TaskFilters(status: string, priority: string, date: string, assignee: string)

  /** A stored filter choice, or the default when nothing (or the empty text) is stored. */
  function StoredOr(stored: Option<string>, default: string): (r: string)
    ensures stored.Some? && stored.value != "" ==> r == stored.value
    ensures stored.None? || stored.value == "" ==> r == default
  {
    if stored.Some? && stored.value != "" then stored.value else default
  }

  /** The filters restored from storage: pending tasks, any priority, any date, anyone's. */
  function RestoredFilters(status: Option<string>, priority: Option<string>, date: Option<string>, assignee: Option<string>): (f: TaskFilters)
    ensures status.None? && priority.None? && date.None? && assignee.None? ==> f == TaskFilters("pending", "all", "all", "all")
  {
    TaskFilters(StoredOr(status, "pending"), StoredOr(priority, "all"), StoredOr(date, "all"), StoredOr(assignee, "all"))
  }

  predicate StatusPasses(filter: string, status: string) {
    !(filter == "pending" && status == "done") && !(filter == "done" && status != "done")
  }

  predicate PriorityPasses(filter: string, priority: string) {
    filter == "all" || priority == filter
  }

  predicate IsDateFilter(filter: string) {
    filter == "today" || filter == "overdue" || filter == "week"
  }

  /** A date filter's own test, for the start of today `today`: a task without a due date fails all three. */
  predicate DatePasses(filter: string, t: CalendarTask, today: int)
    requires IsDateFilter(filter)
  {
    match t.dueDate
    case None => false
    case Some(due) =>
      if filter == "today" then DayStart(due) == today
      else if filter == "overdue" then due < today && t.status != "done"
      else today <= due <= today + 7 * MinutesPerDay
  }

  predicate AssigneePasses(filter: string, assigneeIds: Option<seq<string>>) {
    filter == "all" || (assigneeIds.Some? && filter in assigneeIds.value)
  }

  /** `getFilteredTasks` on one task at minute `now`: a date filter decides on its own, before the assignee filter is reached. */
  predicate TaskPasses(f: TaskFilters, t: CalendarTask, now: int) {
    StatusPasses(f.status, t.status) && PriorityPasses(f.priority, t.priority)
    && if IsDateFilter(f.date) then DatePasses(f.date, t, DayStart(now)) else AssigneePasses(f.assignee, t.assigneeIds)
  }

  function PassesAt(f: TaskFilters, now: int): CalendarTask -> bool {
    (t: CalendarTask) => TaskPasses(f, t, now)
  }

  function FilteredTasks(tasks: seq<CalendarTask>, f: TaskFilters, now: int): (r: seq<CalendarTask>)
    ensures |r| <= |tasks|
    ensures forall i :: 0 <= i < |r| ==> r[i] in tasks && TaskPasses(f, r[i], now)
    ensures forall i :: 0 <= i < |tasks| && TaskPasses(f, tasks[i], now) ==> tasks[i] in r
  {
    FilterKeeps(tasks, PassesAt(f, now));
    FilterComplete(tasks, PassesAt(f, now));
    Filter(tasks, PassesAt(f, now))
  }

  /** Under a date filter the chosen assignee makes no difference. */
  lemma DateFilterIgnoresAssignee(tasks: seq<CalendarTask>, f: TaskFilters, other: string, now: int)
    requires IsDateFilter(f.date)
    ensures FilteredTasks(tasks, f, now) == FilteredTasks(tasks, f.(assignee := other), now)
  {
    FilterCongruent(tasks, PassesAt(f, now), PassesAt(f.(assignee := other), now));
  }

  /** The three date filters, spelled out; a task without a due date passes none of them. */
  lemma DateFilterMeaning(f: TaskFilters, t: CalendarTask, now: int)
    requires IsDateFilter(f.date) && StatusPasses(f.status, t.status) && PriorityPasses(f.priority, t.priority)
    ensures t.dueDate.None? ==> !TaskPasses(f, t, now)
    ensures f.date == "overdue" ==> (TaskPasses(f, t, now) <==> t.dueDate.Some? && t.dueDate.value < DayStart(now) && t.status != "done")
    ensures f.date == "week" ==>
      (TaskPasses(f, t, now) <==> t.dueDate.Some? && DayStart(now) <= t.dueDate.value <= DayStart(now) + 7 * MinutesPerDay)
    ensures f.date == "today" ==>
      (TaskPasses(f, t, now) <==> t.dueDate.Some? && DayStart(now) <= t.dueDate.value < DayStart(now) + MinutesPerDay)
  {
    if f.date == "today" && t.dueDate.Some? {
      SameDay(t.dueDate.value, now);
    }
  }

  /** An instant within the day starting at midnight `s` has `s` as its day start. */
  lemma DayStartOf(a: int, s: int)
    requires s % MinutesPerDay == 0 && s <= a < s + MinutesPerDay
    ensures DayStart(a) == s
  {
    var q := s / MinutesPerDay;
    assert s == MinutesPerDay * q;
    assert a == MinutesPerDay * q + (a - s);
  }

  /** Two instants share a day exactly when the first lies between the other's midnight and the next. */
  lemma SameDay(a: int, b: int)
    ensures DayStart(a) == DayStart(b) <==> DayStart(b) <= a < DayStart(b) + MinutesPerDay
  {
    if DayStart(b) <= a < DayStart(b) + MinutesPerDay {
      DayStartOf(a, DayStart(b));
    }
  }

  /** With the 'pending' status filter no done task is listed; with 'done' only done ones. */
  lemma StatusFilterMeaning(tasks: seq<CalendarTask>, f: TaskFilters, now: int, i: int)
    requires 0 <= i < |FilteredTasks(tasks, f, now)|
    ensures f.status == "pending" ==> FilteredTasks(tasks, f, now)[i].status != "done"
    ensures f.status == "done" ==> FilteredTasks(tasks, f, now)[i].status == "done"
    ensures f.priority != "all" ==> FilteredTasks(tasks, f, now)[i].priority == f.priority
  {
  }

  // -------------------------------------------------------- grid and stats

  /** The tasks shown: at most the first eight in the grid view, all of them in the list view. */
  function DisplayedTasks(sorted: seq<CalendarTask>, gridView: bool): (r: seq<CalendarTask>)
    ensures gridView ==> |r| == (if |sorted| < 8 then |sorted| else 8) && r == sorted[..|r|]
    ensures !gridView ==> r == sorted
  {
    if gridView && |sorted| > 8 then sorted[..8] else sorted
  }

  predicate IsDone(t: CalendarTask) { t.status == "done" }

  /** The header figures, over every loaded task whatever the filters. */
  datatype TaskStats = TaskStats(pending: nat, completed: nat, total: nat, progress: int)

  function Stats(tasks: seq<CalendarTask>): (s: TaskStats)
    ensures s.pending + s.completed == s.total == |tasks|
    ensures 0 <= s.progress <= 100
    ensures s.total == 0 ==> s.progress == 0
    ensures s.total > 0 && s.completed == s.total ==> s.progress == 100
    ensures s.completed == 0 ==> s.progress == 0
    ensures s.completed == Count(tasks, (t: CalendarTask) => IsDone(t))
    ensures s.pending == Count(tasks, (t: CalendarTask) => !IsDone(t))
    ensures s.total > 0 ==> RoundsTo(s.progress, s.completed as real / s.total as real * 100.0)
  {
    var pending := Count(tasks, (t: CalendarTask) => !IsDone(t));
    var completed := Count(tasks, (t: CalendarTask) => IsDone(t));
    CountComplement(tasks, (t: CalendarTask) => IsDone(t), (t: CalendarTask) => !IsDone(t));
    var total := |tasks|;
    TaskStats(pending, completed, total, if total > 0 then Percent(completed as real, total as real) else 0)
  }

  // --------------------------------------------------------------- toggle

  /** The status a click gives: done becomes to-do, anything else done. */
  function Toggled(status: string): (r: string)
    ensures r == "done" <==> status != "done"
    ensures r == "todo" || r == "done"
  {
    if status == "done" then "todo" else "done"
  }

  /** Two clicks restore a done or to-do task; an in-progress task comes back as to-do. */
  lemma ToggledTwice(status: string)
    ensures status == "done" || status == "todo" ==> Toggled(Toggled(status)) == status
    ensures status != "done" && status != "todo" ==> Toggled(Toggled(status)) == "todo"
  {
  }

  /** The stored update a toggle sends: a deal task's completion flag, or a project task's status. */
  datatype TaskUpdate = DealCompleted(dealTaskId: string, isCompleted: bool) | ProjectStatus(projectTaskId: string, status: string)

  function ToggleUpdate(task: CalendarTask): (u: TaskUpdate)
    ensures task.source == DealSource ==> u == DealCompleted(task.id, task.status != "done")
    ensures task.source == ProjectSource ==> u == ProjectStatus(task.id, Toggled(task.status))
  {
    var next := Toggled(task.status);
    if task.source == DealSource then DealCompleted(task.id, next == "done") else ProjectStatus(task.id, next)
  }

  // ---------------------------------------------------------------- grids

  lemma DayNumberIsMakeDay(c: Civil)
    requires c.Valid()
    ensures DayNumber(c) == MakeDay(c.year, c.month, c.day)
  {
    assert c.month / 12 == 0 && c.month % 12 == c.month;
  }

  /** `setDate(getDate() + k)` moves a valid date by exactly `k` days. */
  lemma ShiftDays(c: Civil, k: int)
    requires c.Valid() && -27 <= c.day + k <= 56
    ensures DayNumber(Normalize(c.year, c.month, c.day + k)) == DayNumber(c) + k
  {
    NormalizeDay(c.year, c.month, c.day + k);
    DayNumberIsMakeDay(c);
  }

  lemma ModShift(a: int, k: int)
    ensures (a % 7 + k) % 7 == (a + k) % 7
  {
    var q := a / 7;
    assert a == 7 * q + a % 7;
    assert a + k == 7 * q + (a % 7 + k);
  }

  /** The offset from a weekday `w` back to that week's Monday, a Sunday counting with the week before. */
  function MondayOffset(w: int): (d: int)
    requires 0 <= w < 7
    ensures 0 <= d <= 6
    ensures (w + 7 - d) % 7 == 1
  {
    if w == 0 then 6 else w - 1
  }

  /** The day of the month `getDate() - day + (day === 0 ? -6 : 1)` names: the Monday's, counted in the month of `current`. */
  function WeekDiff(current: Civil): (diff: int)
    requires current.Valid()
    ensures current.day - 6 <= diff <= current.day
    ensures diff == current.day - Weekday(DayNumber(current)) + (if Weekday(DayNumber(current)) == 0 then -6 else 1)
  {
    current.day - MondayOffset(Weekday(DayNumber(current)))
  }

  /** The Monday the week of `current` starts on, as `setDate(getDate() - day + (day == 0 ? -6 : 1))` finds it. */
  function WeekStart(current: Civil): (monday: Civil)
    requires current.Valid()
    ensures monday.Valid()
    ensures Weekday(DayNumber(monday)) == 1
    ensures DayNumber(monday) <= DayNumber(current) <= DayNumber(monday) + 6
  {
    var n := DayNumber(current);
    var day := Weekday(n);
    var diff := WeekDiff(current);
    ShiftDays(current, -MondayOffset(day));
    ModShift(n + 4, 7 - MondayOffset(day));
    assert (n - MondayOffset(day) + 4 + 7) % 7 == (n - MondayOffset(day) + 4) % 7;
    Normalize(current.year, current.month, diff)
  }

  /**
   * `getWeekDays`: the seven days from the Monday of the week holding
   * `current`, a Sunday belonging to the week that ends on it.
   */
  method WeekDays(current: Civil) returns (week: seq<Civil>)
    requires current.Valid()
    ensures |week| == 7
    ensures forall i :: 0 <= i < 7 ==> week[i].Valid()
    ensures Weekday(DayNumber(week[0])) == 1
    ensures DayNumber(week[0]) <= DayNumber(current) <= DayNumber(week[0]) + 6
    ensures forall i :: 0 <= i < 7 ==> DayNumber(week[i]) == DayNumber(week[0]) + i
  {
    var monday := WeekStart(current);
    ghost var start := DayNumber(monday);
    week := [];
    for i := 0 to 7
      invariant |week| == i
      invariant forall j :: 0 <= j < i ==> week[j].Valid() && DayNumber(week[j]) == start + j
    {
      var d := Normalize(monday.year, monday.month, monday.day + i);
      ShiftDays(monday, i);
      assert d.Valid() && DayNumber(d) == start + i;
      week := week + [d];
    }
    assert DayNumber(week[0]) == start;
  }

  // ---------------------------------------------------------------- fetch range

  /** The appointment range of the month view: `new Date(y, m, 1)` to `new Date(y, m + 1, 0)`. */
  function MonthRange(current: Civil): (r: (Civil, Civil))
    requires current.Valid()
    ensures r.0 == Civil(current.year, current.month, 1)
    ensures r.1 == Civil(current.year, current.month, DaysInMonth(current.year, current.month))
    ensures r.0.Valid() && r.1.Valid() && r.0.day <= current.day <= r.1.day
  {
    assert (current.month + 1) / 12 * 12 + (current.month + 1) % 12 == current.month + 1;
    assert current.month == 11 ==> (current.month + 1) / 12 == 1 && (current.month + 1) % 12 == 0;
    assert current.month < 11 ==> (current.month + 1) / 12 == 0 && (current.month + 1) % 12 == current.month + 1;
    (Normalize(current.year, current.month, 1), Normalize(current.year, current.month + 1, 0))
  }

  /**
   * The appointment range of the week view as the fetch computes it:
   * `setDate(diff)` moves the date on show to the Monday, and the second call
   * `setDate(diff + 6)` then counts from the Monday's month rather than from
   * the month `diff` was computed in. The range ends six days after the Monday
   * exactly when the Monday lies in the same month as the date on show, and
   * otherwise it ends before it starts.
   */
  function WeekRangeAsWritten(current: Civil): (r: (Civil, Civil))
    requires current.Valid()
    ensures r.0 == WeekStart(current) && r.1.Valid()
    ensures WeekDiff(current) >= 1 ==> DayNumber(r.1) == DayNumber(r.0) + 6
    ensures WeekDiff(current) < 1 ==> DayNumber(r.1) < DayNumber(r.0)
  {
    var monday := WeekStart(current);
    var diff := WeekDiff(current);
    MondayDay(current);
    NormalizeDay(monday.year, monday.month, diff + 6);
    DayNumberIsMakeDay(monday);
    assert MakeDay(monday.year, monday.month, diff + 6) == MakeDay(monday.year, monday.month, monday.day) + diff + 6 - monday.day;
    (monday, Normalize(monday.year, monday.month, diff + 6))
  }

  /** The Monday is day `diff` of the month on show, or, when `diff` is not positive, that many days back into the month before. */
  lemma MondayDay(current: Civil)
    requires current.Valid()
    ensures WeekDiff(current) >= 1 ==> WeekStart(current) == Civil(current.year, current.month, WeekDiff(current))
    ensures WeekDiff(current) < 1 ==> WeekStart(current).day == WeekDiff(current) + DaysInMonth(WeekStart(current).year, WeekStart(current).month)
  {
    assert current.month / 12 == 0 && current.month % 12 == current.month;
  }

  /** The week view's range as intended: the Monday of the week on show through the Sunday six days later. */
  function WeekRange(current: Civil): (r: (Civil, Civil))
    requires current.Valid()
    ensures r.0 == WeekStart(current) && r.1.Valid()
    ensures Weekday(DayNumber(r.0)) == 1
    ensures DayNumber(r.1) == DayNumber(r.0) + 6
    ensures DayNumber(r.0) <= DayNumber(current) <= DayNumber(r.1)
  {
    var monday := WeekStart(current);
    ShiftDays(monday, 6);
    (monday, Normalize(monday.year, monday.month, monday.day + 6))
  }

  /** The fetch's week range is the intended one exactly when the Monday falls in the month on show. */
  lemma WeekRangeAsWrittenAgrees(current: Civil)
    requires current.Valid()
    ensures WeekRangeAsWritten(current) == WeekRange(current) <==> WeekDiff(current) >= 1
  {
    var a := WeekRangeAsWritten(current);
    var b := WeekRange(current);
    DayNumberInjective(a.1, b.1);
  }

  /** The day number of 1 January 1985, counted one year at a time. */
  lemma YearStart1985()
    ensures YearStart(1985) == 5479
  {
    assert YearStart(1971) == 365;
    assert YearStart(1972) == 730;
    assert YearStart(1973) == 1096;
    assert YearStart(1974) == 1461;
    assert YearStart(1975) == 1826;
    assert YearStart(1976) == 2191;
    assert YearStart(1977) == 2557;
    assert YearStart(1978) == 2922;
    assert YearStart(1979) == 3287;
    assert YearStart(1980) == 3652;
    assert YearStart(1981) == 4018;
    assert YearStart(1982) == 4383;
    assert YearStart(1983) == 4748;
    assert YearStart(1984) == 5113;
  }

  lemma YearStart2000()
    ensures YearStart(2000) == 10957
  {
    YearStart1985();
    assert YearStart(1986) == 5844;
    assert YearStart(1987) == 6209;
    assert YearStart(1988) == 6574;
    assert YearStart(1989) == 6940;
    assert YearStart(1990) == 7305;
    assert YearStart(1991) == 7670;
    assert YearStart(1992) == 8035;
    assert YearStart(1993) == 8401;
    assert YearStart(1994) == 8766;
    assert YearStart(1995) == 9131;
    assert YearStart(1996) == 9496;
    assert YearStart(1997) == 9862;
    assert YearStart(1998) == 10227;
    assert YearStart(1999) == 10592;
  }

  lemma YearStart2012()
    ensures YearStart(2012) == 15340
  {
    YearStart2000();
    assert YearStart(2001) == 11323;
    assert YearStart(2002) == 11688;
    assert YearStart(2003) == 12053;
    assert YearStart(2004) == 12418;
    assert YearStart(2005) == 12784;
    assert YearStart(2006) == 13149;
    assert YearStart(2007) == 13514;
    assert YearStart(2008) == 13879;
    assert YearStart(2009) == 14245;
    assert YearStart(2010) == 14610;
    assert YearStart(2011) == 14975;
  }

  lemma YearStart2025()
    ensures YearStart(2025) == 20089
  {
    YearStart2012();
    assert YearStart(2013) == 15706;
    assert YearStart(2014) == 16071;
    assert YearStart(2015) == 16436;
    assert YearStart(2016) == 16801;
    assert YearStart(2017) == 17167;
    assert YearStart(2018) == 17532;
    assert YearStart(2019) == 17897;
    assert YearStart(2020) == 18262;
    assert YearStart(2021) == 18628;
    assert YearStart(2022) == 18993;
    assert YearStart(2023) == 19358;
    assert YearStart(2024) == 19723;
  }

  /**
   * On Wednesday 1 October 2025 the week view asks for appointments from
   * Monday 29 September to 5 September, and leaves 5 September on show.
   */
  lemma WeekRangeAsWrittenOctober2025()
    ensures WeekRangeAsWritten(Civil(2025, 9, 1)) == (Civil(2025, 8, 29), Civil(2025, 8, 5))
    ensures WeekRange(Civil(2025, 9, 1)) == (Civil(2025, 8, 29), Civil(2025, 9, 5))
  {
    var c := Civil(2025, 9, 1);
    YearStart2025();
    assert MonthStart(2025, 9) == 273;
    assert DayNumber(c) == 20362;
    assert Weekday(20362) == 3;
    assert WeekDiff(c) == -1;
    assert WeekStart(c) == Normalize(2025, 9, -1) == Civil(2025, 8, 29);
  }

  /** The k-th date of a month falls on the weekday k days after the first's. */
  lemma GridColumn(year: int, month: int, k: int, start: int)
    requires 0 <= month < 12 && 0 <= k < DaysInMonth(year, month)
    requires start == FirstOfMonth(year, month)
    ensures Weekday(DayNumber(Civil(year, month, k + 1))) == (Weekday(start) + k) % 7
  {
    DayOfMonth(year, month, k);
    WeekdayShift(DayNumber(Civil(year, month, k + 1)), start, k);
  }

  /** The k-th date of a month is k days after its first. */
  lemma DayOfMonth(year: int, month: int, k: int)
    requires 0 <= month < 12 && 0 <= k < DaysInMonth(year, month)
    ensures DayNumber(Civil(year, month, k + 1)) == FirstOfMonth(year, month) + k
  {
    DayNumberIsMakeDay(Civil(year, month, k + 1));
  }

  /** A day `k` days after another falls `k` weekdays on, modulo the week. */
  lemma WeekdayShift(n: int, m: int, k: int)
    requires n == m + k
    ensures Weekday(n) == (Weekday(m) + k) % 7
  {
    ModShift(m + 4, k);
  }

  /**
   * The month grid: one blank per weekday before the first of the month,
   * then every date of the month in order, so a date's cell lies in the
   * column (Sunday first) of its weekday.
   */
  method MonthGrid(year: int, month: int) returns (cells: seq<Option<Civil>>)
    requires 0 <= month < 12
    ensures var first := Weekday(FirstOfMonth(year, month));
      |cells| == first + DaysInMonth(year, month)
      && (forall i :: 0 <= i < first ==> cells[i].None?)
      && (forall i :: first <= i < |cells| ==> cells[i] == Some(Civil(year, month, i - first + 1)))
    ensures UnderOwnWeekday(cells)
  {
    var daysInMonth := DaysInMonth(year, month);
    var firstDayOfWeek := Weekday(FirstOfMonth(year, month));
    cells := [];
    for i := 0 to firstDayOfWeek
      invariant |cells| == i && forall j :: 0 <= j < i ==> cells[j].None?
    {
      cells := cells + [None];
    }
    for d := 1 to daysInMonth + 1
      invariant |cells| == firstDayOfWeek + d - 1
      invariant forall j :: 0 <= j < firstDayOfWeek ==> cells[j].None?
      invariant forall j :: firstDayOfWeek <= j < |cells| ==> cells[j] == Some(Civil(year, month, j - firstDayOfWeek + 1))
    {
      cells := cells + [Some(Civil(year, month, d))];
    }
    GridAligned(year, month, cells);
  }

  /** Every date of a grid is a real date standing in the column (Sunday first) of its weekday. */
  predicate UnderOwnWeekday(cells: seq<Option<Civil>>)
  {
    forall i :: 0 <= i < |cells| && cells[i].Some? ==>
      cells[i].value.Valid() && Weekday(DayNumber(cells[i].value)) == i % 7
  }

  /** A grid laid out as above puts every date under its own weekday's column. */
  lemma GridAligned(year: int, month: int, cells: seq<Option<Civil>>)
    requires 0 <= month < 12
    requires var first := Weekday(FirstOfMonth(year, month));
      |cells| == first + DaysInMonth(year, month)
      && (forall i :: 0 <= i < first ==> cells[i].None?)
      && (forall i :: first <= i < |cells| ==> cells[i] == Some(Civil(year, month, i - first + 1)))
    ensures UnderOwnWeekday(cells)
  {
    var first := Weekday(FirstOfMonth(year, month));
    forall i | 0 <= i < |cells| && cells[i].Some?
      ensures cells[i].value.Valid() && Weekday(DayNumber(cells[i].value)) == i % 7
    {
      GridColumn(year, month, i - first, FirstOfMonth(year, month));
    }
  }

  /** `handleNavigate` in the month view: `setMonth(getMonth() ± 1)` keeps the day, which carries into the month after when too large. */
  function StepMonth(c: Civil, forward: bool): (r: Civil)
    requires c.Valid()
    ensures r.Valid()
    ensures DayNumber(r) == MakeDay(c.year, c.month + (if forward then 1 else -1), c.day)
    ensures c.day <= 28 ==> r.day == c.day && r.month == (c.month + (if forward then 1 else -1)) % 12
  {
    var m := c.month + (if forward then 1 else -1);
    NormalizeDay(c.year, m, c.day);
    var r := Normalize(c.year, m, c.day);
    assert c.day <= 28 ==> r == Civil(c.year + m / 12, m % 12, c.day) by {
      if c.day <= 28 {
        assert c.day <= DaysInMonth(c.year + m / 12, m % 12);
      }
    }
    r
  }

  /** `handleNavigate` in the week view: seven days on or back. */
  function StepWeek(c: Civil, forward: bool): (r: Civil)
    requires c.Valid()
    ensures r.Valid()
    ensures DayNumber(r) == DayNumber(c) + (if forward then 7 else -7)
    ensures Weekday(DayNumber(r)) == Weekday(DayNumber(c))
  {
    var k := if forward then 7 else -7;
    ShiftDays(c, k);
    WeekdayPeriodic(DayNumber(c));
    Normalize(c.year, c.month, c.day + k)
  }

  /** A week forward then back (or back then forward) returns to the same date. */
  lemma StepWeekInverse(c: Civil, forward: bool)
    requires c.Valid()
    ensures StepWeek(StepWeek(c, forward), !forward) == c
  {
    var r := StepWeek(StepWeek(c, forward), !forward);
    DayNumberInjective(r, c);
  }

  /** Two distinct valid dates have distinct day numbers. */
  lemma DayNumberInjective(a: Civil, b: Civil)
    requires a.Valid() && b.Valid()
    ensures a != b ==> DayNumber(a) != DayNumber(b)
  {
    if CivilLess(a, b) {
      DayNumberOrder(a, b);
    } else if CivilLess(b, a) {
      DayNumberOrder(b, a);
    }
  }

  predicate CivilLess(a: Civil, b: Civil) {
    a.year < b.year || (a.year == b.year && (a.month < b.month || (a.month == b.month && a.day < b.day)))
  }

  /** Day numbers follow the calendar order. */
  lemma DayNumberOrder(a: Civil, b: Civil)
    requires a.Valid() && b.Valid() && CivilLess(a, b)
    ensures DayNumber(a) < DayNumber(b)
  {
    MonthWithinYear(a.year, a.month);
    if a.year < b.year {
      YearStartOrder(a.year, b.year);
    } else if a.month < b.month {
      MonthStartOrder(a.year, a.month + 1, b.month);
    }
  }

  lemma {:induction false} YearStartOrder(a: int, b: int)
    requires a < b
    ensures YearStart(a) + DaysInYear(a) <= YearStart(b)
    decreases b - a
  {
    YearStep(a);
    if a + 1 < b {
      YearStartOrder(a + 1, b);
    }
  }

  lemma {:induction false} MonthStartOrder(y: int, m: int, n: int)
    requires 0 <= m <= n <= 12
    ensures MonthStart(y, m) <= MonthStart(y, n)
    decreases n - m
  {
    if m < n {
      MonthStartOrder(y, m, n - 1);
    }
  }

  /** A month ends within its year. */
  lemma MonthWithinYear(y: int, m: int)
    requires 0 <= m < 12
    ensures MonthStart(y, m) + DaysInMonth(y, m) <= DaysInYear(y)
  {
    MonthStartOrder(y, m + 1, 12);
    YearLength(y);
  }

  datatype CalendarView = MonthView | WeekView

  /** The page's state: the loaded tasks, the date on show and the view. */
  class Agenda {
    var tasks: seq<CalendarTask>
    var currentDate: Civil
    var currentView: CalendarView
    var filters: TaskFilters
    var gridView: bool

    constructor (today: Civil, filters: TaskFilters, storedMode: Option<string>)
      requires today.Valid()
      ensures tasks == [] && currentDate == today && currentView == WeekView && this.filters == filters
      ensures gridView <==> StoredOr(storedMode, "grid") == "grid"
      ensures Valid()
    {
      tasks := [];
      currentDate := today;
      currentView := WeekView;
      this.filters := filters;
      gridView := StoredOr(storedMode, "grid") == "grid";
    }

    predicate Valid()
      reads this
    {
      currentDate.Valid()
    }

    /**
     * The fetch: both task tables merged, normalised and sorted, and the range
     * of appointments asked for. In the week view the two `setDate` calls
     * change the date on show itself, which is left on the range's last day.
     */
    method Load(projectRows: seq<ProjectTaskRow>, dealRows: seq<DealTaskRow>) returns (range: (Civil, Civil))
      requires Valid()
      modifies this
      ensures Valid()
      ensures tasks == MergeTasks(projectRows, dealRows)
      ensures currentView == MonthView ==> range == MonthRange(old(currentDate)) && currentDate == old(currentDate)
      ensures currentView == WeekView ==> range == WeekRangeAsWritten(old(currentDate)) && currentDate == range.1
      ensures currentView == old(currentView) && filters == old(filters) && gridView == old(gridView)
    {
      tasks := MergeTasks(projectRows, dealRows);
      range := FetchRange();
    }

    /**
     * The range of the fetch. In the week view the date on show moves to the
     * Monday and then to day `diff + 6` of the Monday's month.
     */
    method FetchRange() returns (range: (Civil, Civil))
      requires Valid()
      modifies this
      ensures Valid()
      ensures currentView == MonthView ==> range == MonthRange(old(currentDate)) && currentDate == old(currentDate)
      ensures currentView == WeekView ==> range == WeekRangeAsWritten(old(currentDate)) && currentDate == range.1
      ensures currentView == old(currentView) && filters == old(filters) && gridView == old(gridView) && tasks == old(tasks)
    {
      if currentView == MonthView {
        range := MonthRange(currentDate);
      } else {
        var diff := WeekDiff(currentDate);
        var monday := Normalize(currentDate.year, currentDate.month, diff);
        currentDate := monday;
        currentDate := Normalize(currentDate.year, currentDate.month, diff + 6);
        range := (monday, currentDate);
      }
    }

    /** The tasks on show at minute `now`: filtered, sorted, and cut to eight in the grid view. */
    function Shown(now: int): (r: seq<CalendarTask>)
      reads this
      ensures |r| <= |tasks|
      ensures gridView ==> |r| <= 8
      ensures r == DisplayedTasks(SortTasks(FilteredTasks(tasks, filters, now)), gridView)
      ensures forall i :: 0 <= i < |r| ==> r[i] in tasks && TaskPasses(filters, r[i], now)
      ensures !gridView ==> multiset(r) == multiset(FilteredTasks(tasks, filters, now))
      ensures gridView ==> |r| == (if |FilteredTasks(tasks, filters, now)| < 8 then |FilteredTasks(tasks, filters, now)| else 8)
      ensures forall i, j :: 0 <= i < j < |r| ==> InAgendaOrder(r[i], r[j])
    {
      AgendaListed(tasks, filters, now, gridView);
      AgendaOrdered(tasks, filters, now, gridView);
      DisplayedTasks(SortTasks(FilteredTasks(tasks, filters, now)), gridView)
    }

    /** `toggleTask`: only the tasks with that id change, to the toggled status; the update for the right table is sent. */
    method ToggleTask(task: CalendarTask) returns (update: TaskUpdate)
      modifies this
      ensures update == ToggleUpdate(task)
      ensures |tasks| == |old(tasks)|
      ensures forall i :: 0 <= i < |tasks| ==>
        tasks[i] == (if old(tasks)[i].id == task.id then old(tasks)[i].(status := Toggled(task.status)) else old(tasks)[i])
      ensures currentDate == old(currentDate) && currentView == old(currentView)
      ensures filters == old(filters) && gridView == old(gridView)
    {
      var next := Toggled(task.status);
      update := ToggleUpdate(task);
      tasks := Map(tasks, (t: CalendarTask) => if t.id == task.id then t.(status := next) else t);
    }

    method Navigate(forward: bool)
      requires Valid()
      modifies this
      ensures Valid()
      ensures currentView == MonthView ==> currentDate == StepMonth(old(currentDate), forward)
      ensures currentView == WeekView ==> currentDate == StepWeek(old(currentDate), forward)
      ensures tasks == old(tasks) && currentView == old(currentView)
      ensures filters == old(filters) && gridView == old(gridView)
    {
      if currentView == MonthView {
        currentDate := StepMonth(currentDate, forward);
      } else {
        currentDate := StepWeek(currentDate, forward);
      }
    }
  }
}
