/**
 * The Kanban pipeline page (pages/PipelinePage.tsx): saved filters and the
 * active-filter badge, deal filtering and search, stage progress, column
 * totals, column and deal editing, drag and drop between and across
 * columns, spreadsheet import, and each deal's next pending task.
 */
module PipelinePage {
  import opened Wrappers
  import opened Text
  import opened Numbers
  import opened Lists
  import opened Dates
  import opened Records
  import opened FilterModal
  import NewDealModal

  // -------------------------------------------------------------- filters

  /** The filters of a fresh page, and what "clear filters" restores: active deals only. */
  function DefaultFilters(): (f: FilterState)
    ensures f.status == ["active"]
    ensures f.tags == [] && f.assigneeIds == []
    ensures f.minValue == f.maxValue == f.startDate == f.endDate == ""
  {
    FilterState([], [], ["active"], "", "", "", "")
  }

  /**
   * The filters as read back from local storage: each field may be missing,
   * and older versions stored a single `assigneeId` instead of a list.
   */
  datatype SavedFilters = SavedFilters(
    tags: Option<seq<string>>,
    assigneeIds: Option<seq<string>>,
    assigneeId: Option<string>,
    status: Option<seq<string>>,
    minValue: Option<string>,
    maxValue: Option<string>,
    startDate: Option<string>,
    endDate: Option<string>)

  /** The old single `assigneeId` becomes a one-element list when no list was saved. */
  function Migrate(s: SavedFilters): (m: SavedFilters)
    ensures s.assigneeId.Some? && s.assigneeId.value != "" && s.assigneeIds.None? ==>
      m.assigneeIds == Some([s.assigneeId.value]) && m.assigneeId.None?
    ensures !(s.assigneeId.Some? && s.assigneeId.value != "" && s.assigneeIds.None?) ==> m == s
    ensures m.tags == s.tags && m.status == s.status
  {
    if s.assigneeId.Some? && s.assigneeId.value != "" && s.assigneeIds.None? then
      s.(assigneeIds := Some([s.assigneeId.value]), assigneeId := None)
    else s
  }

  /** `{ ...defaultFilters, ...parsed }`: each saved field overrides the default one. */
  function Merge(s: SavedFilters): (f: FilterState)
    ensures s.tags.Some? ==> f.tags == s.tags.value
    ensures s.tags.None? ==> f.tags == []
    ensures s.status.Some? ==> f.status == s.status.value
    ensures s.status.None? ==> f.status == ["active"]
    ensures f.assigneeIds == s.assigneeIds.GetOr([])
    ensures f.minValue == s.minValue.GetOr("") && f.maxValue == s.maxValue.GetOr("")
    ensures f.startDate == s.startDate.GetOr("") && f.endDate == s.endDate.GetOr("")
  {
    var d := DefaultFilters();
    FilterState(
      s.tags.GetOr(d.tags), s.assigneeIds.GetOr(d.assigneeIds), s.status.GetOr(d.status),
      s.minValue.GetOr(d.minValue), s.maxValue.GetOr(d.maxValue),
      s.startDate.GetOr(d.startDate), s.endDate.GetOr(d.endDate))
  }

  /** The page's initial filters, from what local storage holds (`None`: nothing, or unreadable JSON). */
  function LoadFilters(saved: Option<SavedFilters>): (f: FilterState)
    ensures saved.None? ==> f == DefaultFilters()
  {
    if saved.None? then DefaultFilters() else Merge(Migrate(saved.value))
  }

  /** What the persistence effect writes: every field of the filters. */
  function Stored(f: FilterState): (s: SavedFilters)
    ensures s.assigneeId.None? && s.tags.Some? && s.assigneeIds.Some? && s.status.Some?
  {
    SavedFilters(Some(f.tags), Some(f.assigneeIds), None, Some(f.status), Some(f.minValue),
                 Some(f.maxValue), Some(f.startDate), Some(f.endDate))
  }

  /** Reloading the page restores exactly the filters that were last persisted. */
  lemma LoadStored(f: FilterState)
    ensures LoadFilters(Some(Stored(f))) == f
  {
  }

  /** An old save holding only `assigneeId` loads as that one assignee, every other criterion at its default. */
  lemma LoadLegacyAssignee(a: string)
    requires a != ""
    ensures LoadFilters(Some(SavedFilters(None, None, Some(a), None, None, None, None, None)))
         == DefaultFilters().(assigneeIds := [a])
  {
  }

  /** A status list that is exactly `['active']`. */
  predicate OnlyActive(status: seq<string>) {
    |status| == 1 && status[0] == "active"
  }

  /** The seven criteria of the filter dialog. */
  datatype Criterion = Tags | Assignees | Status | MinValue | MaxValue | StartDate | EndDate

  /** Whether the filters restrict on criterion `c`; status only when it differs from `['active']`. */
  predicate Restricts(f: FilterState, c: Criterion) {
    match c
    case Tags => f.tags != []
    case Assignees => f.assigneeIds != []
    case Status => f.status != [] && !OnlyActive(f.status)
    case MinValue => f.minValue != ""
    case MaxValue => f.maxValue != ""
    case StartDate => f.startDate != ""
    case EndDate => f.endDate != ""
  }

  function Flag(f: FilterState, c: Criterion): (r: seq<Criterion>)
    ensures Restricts(f, c) ==> r == [c]
    ensures !Restricts(f, c) ==> r == []
  {
    if Restricts(f, c) then [c] else []
  }

  /** The restricting criteria, in the dialog's order. */
  function ActiveCriteria(f: FilterState): (cs: seq<Criterion>)
  {
    Flag(f, Tags) + Flag(f, Assignees) + Flag(f, Status) + Flag(f, MinValue)
    + Flag(f, MaxValue) + Flag(f, StartDate) + Flag(f, EndDate)
  }

  /** A criterion is listed exactly when the filters restrict on it, and at most once. */
  lemma ActiveCriteriaMeaning(f: FilterState, c: Criterion)
    ensures c in ActiveCriteria(f) <==> Restricts(f, c)
  {
    var cs := ActiveCriteria(f);
    var all := [Tags, Assignees, Status, MinValue, MaxValue, StartDate, EndDate];
    assert forall i :: 0 <= i < |cs| ==> cs[i] in all && Restricts(f, cs[i]);
  }

  /**
   * Filters the badge does not count: no tags, assignees, value bounds or
   * dates, and a status list that is empty or exactly `['active']`. An empty
   * status list shows inactive deals too, so this is not "shows what the
   * defaults show".
   */
  predicate NothingCounted(f: FilterState) {
    f.tags == [] && f.assigneeIds == [] && (f.status == [] || OnlyActive(f.status))
    && f.minValue == "" && f.maxValue == "" && f.startDate == "" && f.endDate == ""
  }

  /** `activeFiltersCount`: one per restricting criterion, starting from 0. */
  method ActiveFiltersCount(f: FilterState) returns (count: nat)
    ensures count == |ActiveCriteria(f)|
    ensures count <= 7
    ensures count == 0 <==> NothingCounted(f)
  {
    count := 0;
    if |f.tags| > 0 { count := count + 1; }
    ghost var counted: seq<Criterion> := Flag(f, Tags);
    if |f.assigneeIds| > 0 { count := count + 1; }
    counted := counted + Flag(f, Assignees);
    assert count == |counted|;
    if |f.status| > 0 && (|f.status| != 1 || f.status[0] != "active") {
      count := count + 1;
    }
    counted := counted + Flag(f, Status);
    assert count == |counted|;
    if f.minValue != "" { count := count + 1; }
    counted := counted + Flag(f, MinValue);
    if f.maxValue != "" { count := count + 1; }
    counted := counted + Flag(f, MaxValue);
    assert count == |counted|;
    if f.startDate != "" { count := count + 1; }
    counted := counted + Flag(f, StartDate);
    if f.endDate != "" { count := count + 1; }
    counted := counted + Flag(f, EndDate);
    assert counted == ActiveCriteria(f);
    NoCriteriaIffNothingCounted(f);
  }

  /** No criterion restricts exactly when the badge has nothing to count. */
  lemma NoCriteriaIffNothingCounted(f: FilterState)
    ensures ActiveCriteria(f) == [] <==> NothingCounted(f)
  {
  }

  /** The default filters count as no filter at all. */
  lemma DefaultFiltersInactive()
    ensures ActiveCriteria(DefaultFilters()) == [] && NothingCounted(DefaultFilters())
  {
    assert OnlyActive(DefaultFilters().status);
  }

  // ------------------------------------------------------ search and filter

  /** An optional text that is present and not empty (JavaScript truthiness). */
  predicate Truthy(s: Option<string>) {
    s.Some? && s.value != ""
  }

  predicate Mentions(field: Option<string>, needle: string) {
    field.Some? && Contains(Lower(field.value), needle)
  }

  /** Some custom field's text holds the needle. */
  predicate AnyCustomMentions(fields: seq<(string, string)>, needle: string) {
    exists i :: 0 <= i < |fields| && Contains(Lower(fields[i].1), needle)
  }

  /** The search box: a case-insensitive substring of a main field or of any custom field's value. */
  predicate SearchMatches(d: Deal, term: string) {
    var needle := Lower(term);
    Contains(Lower(d.clientName), needle) || Mentions(d.contactName, needle) || Mentions(d.cnpj, needle)
    || Mentions(d.email, needle) || Contains(Lower(d.title), needle)
    || AnyCustomMentions(d.customFields, needle)
  }

  /** `a` falls on an earlier calendar day than `b`; an unreadable date (`None`, JavaScript's `NaN`) is never earlier. */
  predicate DayBefore(a: Option<int>, b: Option<int>) {
    a.Some? && b.Some? && DayStart(a.value) < DayStart(b.value)
  }

  /** The value bound excludes the deal: the bound parses and the deal's value (0 when missing) lies beyond it. */
  predicate BelowMin(d: Deal, minText: string) {
    var m := ParseFloat(minText);
    m.Some? && OrZero(d.value) < m.value
  }

  predicate AboveMax(d: Deal, maxText: string) {
    var m := ParseFloat(maxText);
    m.Some? && OrZero(d.value) > m.value
  }

  /**
   * One deal against the search and the filters. `parseDate` stands for the
   * `Date` constructor reading the filter's date text, as a minute instant.
   */
  predicate DealPasses(d: Deal, f: FilterState, term: string, parseDate: string -> Option<int>) {
    (Trim(term) == [] || SearchMatches(d, term))
    && (f.status == [] || (d.status.Some? && d.status.value in f.status))
    && (f.tags == [] || (Truthy(d.tag) && d.tag.value in f.tags))
    && (f.assigneeIds == [] || (Truthy(d.assigneeId) && d.assigneeId.value in f.assigneeIds))
    && (f.minValue == "" || !BelowMin(d, f.minValue))
    && (f.maxValue == "" || !AboveMax(d, f.maxValue))
    && (f.startDate == "" || !DayBefore(d.createdAt, parseDate(f.startDate)))
    && (f.endDate == "" || !DayBefore(parseDate(f.endDate), d.createdAt))
  }

  function Passes(f: FilterState, term: string, parseDate: string -> Option<int>): Deal -> bool {
    d => DealPasses(d, f, term, parseDate)
  }

  /** `filteredDeals`. */
  function FilteredDeals(deals: seq<Deal>, f: FilterState, term: string, parseDate: string -> Option<int>): (r: seq<Deal>)
    ensures |r| <= |deals|
  {
    Filter(deals, Passes(f, term, parseDate))
  }

  /**
   * Every shown deal is one of the deals and meets each criterion: the
   * search, a listed status, tag and assignee when those lists are not
   * empty, and the value bounds that parse, with a missing value read as 0.
   */
  lemma FilteredDealsMeetCriteria(deals: seq<Deal>, f: FilterState, term: string, parseDate: string -> Option<int>, i: int)
    requires 0 <= i < |FilteredDeals(deals, f, term, parseDate)|
    ensures var d := FilteredDeals(deals, f, term, parseDate)[i];
      && d in deals
      && (!IsBlank(term) ==> SearchMatches(d, term))
      && (f.status != [] ==> d.status.Some? && d.status.value in f.status)
      && (f.tags != [] ==> d.tag.Some? && d.tag.value in f.tags)
      && (f.assigneeIds != [] ==> d.assigneeId.Some? && d.assigneeId.value in f.assigneeIds)
      && (f.minValue != "" && ParseFloat(f.minValue).Some? ==> ParseFloat(f.minValue).value <= OrZero(d.value))
      && (f.maxValue != "" && ParseFloat(f.maxValue).Some? ==> OrZero(d.value) <= ParseFloat(f.maxValue).value)
  {
    TrimEmptyIffBlank(term);
    FilterKeeps(deals, Passes(f, term, parseDate));
  }

  /** The shown deals keep the order they have among all deals. */
  lemma FilteredDealsInOrder(deals: seq<Deal>, f: FilterState, term: string, parseDate: string -> Option<int>)
    ensures SubseqOf(FilteredDeals(deals, f, term, parseDate), deals)
  {
    FilterSubseq(deals, Passes(f, term, parseDate));
  }

  /** No deal that meets every criterion is hidden. */
  lemma FilteredDealsComplete(deals: seq<Deal>, f: FilterState, term: string, parseDate: string -> Option<int>, i: int)
    requires 0 <= i < |deals| && DealPasses(deals[i], f, term, parseDate)
    ensures deals[i] in FilteredDeals(deals, f, term, parseDate)
  {
    FilterComplete(deals, Passes(f, term, parseDate));
  }

  /** A value bound that does not parse (`NaN`) excludes nothing. */
  lemma UnreadableBoundIgnored(d: Deal, f: FilterState, term: string, parseDate: string -> Option<int>)
    requires ParseFloat(f.minValue).None?
    ensures DealPasses(d, f, term, parseDate) == DealPasses(d, f.(minValue := ""), term, parseDate)
  {
  }

  predicate IsActive(d: Deal) {
    d.status == Some("active")
  }

  /** With the default filters and a blank search the board shows exactly the active deals, in order. */
  lemma DefaultFiltersShowActive(deals: seq<Deal>, term: string, parseDate: string -> Option<int>)
    requires IsBlank(term)
    ensures FilteredDeals(deals, DefaultFilters(), term, parseDate) == Filter(deals, d => IsActive(d))
  {
    TrimEmptyIffBlank(term);
    forall i | 0 <= i < |deals|
      ensures Passes(DefaultFilters(), term, parseDate)(deals[i]) == IsActive(deals[i])
    {
      DefaultPasses(deals[i], term, parseDate);
    }
    FilterCongruent(deals, Passes(DefaultFilters(), term, parseDate), d => IsActive(d));
  }

  lemma DefaultPasses(d: Deal, term: string, parseDate: string -> Option<int>)
    requires Trim(term) == []
    ensures DealPasses(d, DefaultFilters(), term, parseDate) == IsActive(d)
  {
    var f := DefaultFilters();
    assert d.status.Some? && d.status.value in f.status <==> d.status == Some("active");
  }

  // ------------------------------------------------------------- columns

  predicate InColumn(d: Deal, columnId: string) {
    d.pipelineId == Some(columnId)
  }

  /** `getColumnDeals`: the shown deals of one column, in board order. */
  function ColumnDeals(shown: seq<Deal>, columnId: string): (r: seq<Deal>)
    ensures forall i :: 0 <= i < |r| ==> r[i] in shown && InColumn(r[i], columnId)
    ensures forall i :: 0 <= i < |shown| && InColumn(shown[i], columnId) ==> shown[i] in r
  {
    FilterKeeps(shown, d => InColumn(d, columnId));
    FilterComplete(shown, d => InColumn(d, columnId));
    Filter(shown, d => InColumn(d, columnId))
  }

  function DealValue(d: Deal): real {
    OrZero(d.value)
  }

  /** `calculateColumnTotal`: the sum of the values (0 when missing) of the column's shown deals. */
  function ColumnTotal(shown: seq<Deal>, columnId: string): (total: real)
    ensures (forall i :: 0 <= i < |shown| ==> !InColumn(shown[i], columnId)) ==> total == 0.0
  {
    var deals := ColumnDeals(shown, columnId);
    assert (forall i :: 0 <= i < |shown| ==> !InColumn(shown[i], columnId)) ==> deals == [] by {
      if deals != [] {
        assert deals[0] in shown && InColumn(deals[0], columnId);
      }
    }
    Sum(deals, DealValue)
  }

  /** With non-negative values a column total is non-negative and at most the total of all shown deals. */
  lemma {:induction false} ColumnTotalBounded(shown: seq<Deal>, columnId: string)
    requires forall i :: 0 <= i < |shown| ==> DealValue(shown[i]) >= 0.0
    ensures 0.0 <= ColumnTotal(shown, columnId) <= Sum(shown, DealValue)
  {
    if shown != [] {
      ColumnTotalBounded(shown[1..], columnId);
      assert ColumnDeals(shown, columnId)
          == (if InColumn(shown[0], columnId) then [shown[0]] else []) + ColumnDeals(shown[1..], columnId);
      SumAppend((if InColumn(shown[0], columnId) then [shown[0]] else []), ColumnDeals(shown[1..], columnId), DealValue);
    }
  }

  /** The column-deletion guard only sees shown deals: a column whose deals are all filtered out has no shown deals. */
  lemma HiddenDealsDoNotBlock(deals: seq<Deal>, f: FilterState, term: string, parseDate: string -> Option<int>, columnId: string)
    requires forall i :: 0 <= i < |deals| && InColumn(deals[i], columnId) ==> !DealPasses(deals[i], f, term, parseDate)
    ensures ColumnDeals(FilteredDeals(deals, f, term, parseDate), columnId) == []
  {
    var shown := FilteredDeals(deals, f, term, parseDate);
    FilterKeeps(deals, Passes(f, term, parseDate));
    forall d | d in shown ensures !InColumn(d, columnId) {
      var i :| 0 <= i < |shown| && shown[i] == d;
      var j :| 0 <= j < |deals| && deals[j] == d;
    }
    FilterNone(shown, d => InColumn(d, columnId));
  }

  /** The largest `order_index` among the columns. */
  function MaxOrderIndex(columns: seq<Column>): (m: int)
    requires columns != []
    ensures forall i :: 0 <= i < |columns| ==> columns[i].orderIndex <= m
    ensures exists i :: 0 <= i < |columns| && columns[i].orderIndex == m
  {
    if |columns| == 1 then columns[0].orderIndex
    else
      var rest := MaxOrderIndex(columns[1..]);
      assert forall i :: 1 <= i < |columns| ==> columns[i] == columns[1..][i - 1];
      if columns[0].orderIndex >= rest then columns[0].orderIndex else rest
  }

  /** A new column goes after every existing one: one past the largest index, or 0 on an empty board. */
  function NewOrderIndex(columns: seq<Column>): (n: int)
    ensures columns == [] ==> n == 0
    ensures forall i :: 0 <= i < |columns| ==> columns[i].orderIndex < n
    ensures columns != [] ==> exists i :: 0 <= i < |columns| && columns[i].orderIndex == n - 1
  {
    if columns == [] then 0 else MaxOrderIndex(columns) + 1
  }

  /** A deal's stage progress: the 1-based position of its column over the number of columns, as a rounded percentage. */
  function Progress(columns: seq<Column>, pipelineId: Option<string>): (p: int)
    ensures 0 <= p <= 100
    ensures ColumnIndex(columns, pipelineId) == -1 ==> p == 0
    ensures columns != [] && ColumnIndex(columns, pipelineId) == |columns| - 1 ==> p == 100
    ensures ColumnIndex(columns, pipelineId) >= 0 ==>
      RoundsTo(p, (ColumnIndex(columns, pipelineId) + 1) as real / |columns| as real * 100.0)
  {
    var i := ColumnIndex(columns, pipelineId);
    if |columns| > 0 && i >= 0 then Percent((i + 1) as real, |columns| as real) else 0
  }

  /** A deal in a found column has progress at least 1 when there are at most 200 columns; beyond that the rounding can reach 0. */
  lemma ProgressPositive(columns: seq<Column>, pipelineId: Option<string>)
    requires 0 < |columns| <= 200 && ColumnIndex(columns, pipelineId) >= 0
    ensures Progress(columns, pipelineId) >= 1
  {
    var i := ColumnIndex(columns, pipelineId);
    PercentAtLeastOne((i + 1) as real, |columns| as real);
  }

  /** The progress the refresh attaches to every deal, nothing else changed. */
  function WithProgress(deals: seq<Deal>, columns: seq<Column>): (r: seq<Deal>)
    ensures |r| == |deals|
    ensures forall i :: 0 <= i < |r| ==> r[i] == deals[i].(progress := Progress(columns, deals[i].pipelineId))
  {
    Map(deals, (d: Deal) => d.(progress := Progress(columns, d.pipelineId)))
  }

  /** `arrayMove` from @dnd-kit: take the element out of `from` and put it back at `to`. */
  function ArrayMove<T>(s: seq<T>, from: nat, to: nat): (r: seq<T>)
    requires from < |s| && to < |s|
    ensures |r| == |s|
    ensures r[to] == s[from]
    ensures multiset(r) == multiset(s)
  {
    var rest := s[..from] + s[from + 1..];
    assert s == s[..from] + [s[from]] + s[from + 1..];
    assert multiset(s) == multiset(rest) + multiset{s[from]};
    assert rest == rest[..to] + rest[to..];
    var r := rest[..to] + [s[from]] + rest[to..];
    assert multiset(r) == multiset(rest[..to]) + multiset{s[from]} + multiset(rest[to..]);
    r
  }

  /** Moving an element onto its own place changes nothing. */
  lemma ArrayMoveSame<T>(s: seq<T>, i: nat)
    requires i < |s|
    ensures ArrayMove(s, i, i) == s
  {
    assert s == s[..i] + [s[i]] + s[i + 1..];
  }

  /** The column rows the reorder persists: each column's id and name with its new position as `order_index`. */
  function ReorderPayload(columns: seq<Column>): (r: seq<Column>)
    ensures |r| == |columns|
    ensures forall i :: 0 <= i < |r| ==> r[i].id == columns[i].id && r[i].name == columns[i].name && r[i].orderIndex == i
  {
    seq(|columns|, i requires 0 <= i < |columns| => Column(columns[i].id, columns[i].name, i))
  }

  /** The column a dragged deal is over: the column hovered, or the column of the deal hovered; `None` when none or empty. */
  function DropTarget(columns: seq<Column>, deals: seq<Deal>, overId: string): (target: Option<string>)
    ensures target.Some? ==> target.value != ""
    ensures ColumnIndex(columns, Some(overId)) >= 0 && overId != "" ==> target == Some(overId)
  {
    if ColumnIndex(columns, Some(overId)) >= 0 then
      (if overId == "" then None else Some(overId))
    else
      match FindDeal(deals, overId)
      case None => None
      case Some(d) => if Truthy(d.pipelineId) then d.pipelineId else None
  }

  /** The deals with every deal of id `id` moved to column `c`. */
  function MoveDeal(deals: seq<Deal>, id: string, c: string): (r: seq<Deal>)
    ensures |r| == |deals|
    ensures forall i :: 0 <= i < |deals| && deals[i].id != id ==> r[i] == deals[i]
    ensures forall i :: 0 <= i < |deals| && deals[i].id == id ==> r[i] == deals[i].(pipelineId := Some(c))
  {
    Map(deals, (d: Deal) => if d.id == id then d.(pipelineId := Some(c)) else d)
  }

  /** The deals with every deal of id `id` given progress `p`. */
  function SetProgress(deals: seq<Deal>, id: string, p: int): (r: seq<Deal>)
    ensures |r| == |deals|
    ensures forall i :: 0 <= i < |deals| && deals[i].id != id ==> r[i] == deals[i]
    ensures forall i :: 0 <= i < |deals| && deals[i].id == id ==> r[i] == deals[i].(progress := p)
  {
    Map(deals, (d: Deal) => if d.id == id then d.(progress := p) else d)
  }

  /** A saved deal replaces every deal with its id. */
  function ReplaceDeal(deals: seq<Deal>, saved: Deal): (r: seq<Deal>)
    ensures |r| == |deals|
    ensures forall i :: 0 <= i < |deals| && deals[i].id != saved.id ==> r[i] == deals[i]
    ensures forall i :: 0 <= i < |deals| && deals[i].id == saved.id ==> r[i] == saved
  {
    Map(deals, (d: Deal) => if d.id == saved.id then saved else d)
  }

  function RenameColumn(columns: seq<Column>, id: string, name: string): (r: seq<Column>)
    ensures |r| == |columns|
    ensures forall i :: 0 <= i < |columns| && columns[i].id != id ==> r[i] == columns[i]
    ensures forall i :: 0 <= i < |columns| && columns[i].id == id ==> r[i] == columns[i].(name := name)
  {
    Map(columns, (c: Column) => if c.id == id then c.(name := name) else c)
  }

  function WithoutColumn(columns: seq<Column>, id: string): (r: seq<Column>)
    ensures forall i :: 0 <= i < |r| ==> r[i] in columns && r[i].id != id
    ensures forall i :: 0 <= i < |columns| && columns[i].id != id ==> columns[i] in r
  {
    FilterKeeps(columns, (c: Column) => c.id != id);
    FilterComplete(columns, (c: Column) => c.id != id);
    Filter(columns, (c: Column) => c.id != id)
  }

  function WithoutDeal(deals: seq<Deal>, id: string): (r: seq<Deal>)
    ensures forall i :: 0 <= i < |r| ==> r[i] in deals && r[i].id != id
    ensures forall i :: 0 <= i < |deals| && deals[i].id != id ==> deals[i] in r
  {
    FilterKeeps(deals, (d: Deal) => d.id != id);
    FilterComplete(deals, (d: Deal) => d.id != id);
    Filter(deals, (d: Deal) => d.id != id)
  }

  /** `handleSaveDeal`: a new deal sent without a column goes to the first column (none when the board has no columns). */
  function DealToSave(data: NewDealModal.DealPayload, columns: seq<Column>): (r: NewDealModal.DealPayload)
    ensures !Truthy(data.pipelineId) && !Truthy(data.id) ==>
      r == data.(pipelineId := if columns == [] then None else Some(columns[0].id))
    ensures Truthy(data.pipelineId) || Truthy(data.id) ==> r == data
  {
    if !Truthy(data.pipelineId) && !Truthy(data.id) then
      data.(pipelineId := if columns == [] then None else Some(columns[0].id))
    else data
  }

  // --------------------------------------------------------------- import

  /** One spreadsheet row, each cell read as text (`None` when absent); `value` is `Number(cell)` with `None` for `NaN`. */
  datatype ImportRow = ImportRow(
    clientName: Option<string>,
    contactName: Option<string>,
    value: Option<real>,
    phone: Option<string>,
    phoneSecondary: Option<string>,
    email: Option<string>,
    cnpj: Option<string>,
    tag: Option<string>,
    assigneeId: Option<string>)

  /** The deal row inserted for one spreadsheet row (its random avatar colour aside). */
  datatype ImportedDeal = ImportedDeal(
    clientName: Option<string>,
    contactName: Option<string>,
    title: string,
    value: real,
    phone: Option<string>,
    phoneSecondary: Option<string>,
    email: Option<string>,
    cnpj: Option<string>,
    tag: string,
    assigneeId: Option<string>,
    pipelineId: string,
    status: string)

  /** `cell || null`. */
  function NullIfEmpty(s: Option<string>): (r: Option<string>)
    ensures r.Some? ==> r == s && r.value != ""
    ensures Truthy(s) ==> r == s
  {
    if Truthy(s) then s else None
  }

  function ImportDeal(row: ImportRow, columnId: string): (d: ImportedDeal)
    ensures d.pipelineId == columnId && d.status == "active"
    ensures d.tag == (if Truthy(row.tag) then row.tag.value else "Novo")
    ensures d.title == (if Truthy(row.clientName) then row.clientName.value else "Nova Oportunidade")
    ensures d.value == OrElse(row.value, 0.0)
    ensures d.clientName == row.clientName
  {
    ImportedDeal(
      row.clientName, NullIfEmpty(row.contactName),
      if Truthy(row.clientName) then row.clientName.value else "Nova Oportunidade",
      OrElse(row.value, 0.0), NullIfEmpty(row.phone), NullIfEmpty(row.phoneSecondary),
      NullIfEmpty(row.email), NullIfEmpty(row.cnpj),
      if Truthy(row.tag) then row.tag.value else "Novo",
      NullIfEmpty(row.assigneeId), columnId, "active")
  }

  /** `handleImportDeals`: refused (`None`) on a board without columns; otherwise one active deal per row, all in the first column. */
  function ImportDeals(rows: seq<ImportRow>, columns: seq<Column>): (r: Option<seq<ImportedDeal>>)
    ensures r.None? <==> columns == []
    ensures r.Some? ==> |r.value| == |rows|
    ensures r.Some? ==> forall i :: 0 <= i < |rows| ==>
      r.value[i].pipelineId == columns[0].id && r.value[i].status == "active"
      && r.value[i].title != "" && r.value[i].tag != ""
    ensures r.Some? ==> forall i :: 0 <= i < |rows| ==> r.value[i] == ImportDeal(rows[i], columns[0].id)
  {
    if columns == [] then None
    else Some(Map(rows, (row: ImportRow) => ImportDeal(row, columns[0].id)))
  }

  // ------------------------------------------------------------ next task

  /** A pending task of a deal; `due` is its due instant, `None` when it has none. */
  datatype DealTask = DealTask(id: string, dealId: string, title: string, due: Option<int>)

  /** The comparator the page sorts a deal's tasks with. */
  function NextTaskCompareAsWritten(a: DealTask, b: DealTask): (c: int)
    ensures a.due.None? ==> c == 1
    ensures a.due.Some? && b.due.None? ==> c == -1
    ensures a.due.Some? && b.due.Some? ==> c == a.due.value - b.due.value
  {
    if a.due.None? then 1
    else if b.due.None? then -1
    else a.due.value - b.due.value
  }

  /**
   * The comparator is not consistent: two undated tasks each compare
   * greater than the other, which `Array.prototype.sort` (ECMA-262,
   * section 23.1.3.30) does not allow, leaving their order to the engine.
   */
  lemma NextTaskCompareInconsistent()
    ensures var a := DealTask("a", "d", "first", None);
      var b := DealTask("b", "d", "second", None);
      NextTaskCompareAsWritten(a, b) > 0 && NextTaskCompareAsWritten(b, a) > 0
  {
  }

  /** The intended order: dated tasks first, by due instant; undated ones after, in fetch order. */
  function TaskKey(t: DealTask): (k: (int, int))
    ensures t.due.Some? ==> k == (0, t.due.value)
    ensures t.due.None? ==> k == (1, 0)
  {
    if t.due.Some? then (0, t.due.value) else (1, 0)
  }

  /** The intended key order agrees with the written comparator whenever at least one of the two tasks has a date. */
  lemma TaskKeyAgrees(a: DealTask, b: DealTask)
    requires a.due.Some? || b.due.Some?
    ensures KeyLess(TaskKey(a), TaskKey(b)) <==> NextTaskCompareAsWritten(a, b) < 0
  {
  }

  function OfDeal(dealId: string): DealTask -> bool {
    (t: DealTask) => t.dealId == dealId
  }

  /** The deal's next task: the first of its tasks in the intended order; `None` is "Sem tarefas pendentes". */
  function NextTask(tasks: seq<DealTask>, dealId: string): (r: Option<DealTask>)
    ensures r.None? <==> Filter(tasks, OfDeal(dealId)) == []
    ensures r.Some? ==> r.value in tasks && r.value.dealId == dealId
  {
    var own := Filter(tasks, OfDeal(dealId));
    var sorted := SortBy(own, TaskKey);
    if sorted == [] then None
    else
      assert sorted[0] in multiset(own);
      FilterKeeps(tasks, OfDeal(dealId));
      Some(sorted[0])
  }

  /** The next task is due no later than any other of the deal's tasks, and is dated whenever one of them is. */
  lemma NextTaskEarliest(tasks: seq<DealTask>, dealId: string, t: DealTask)
    requires t in tasks && t.dealId == dealId
    ensures NextTask(tasks, dealId).Some?
    ensures t.due.Some? ==>
      NextTask(tasks, dealId).value.due.Some? && NextTask(tasks, dealId).value.due.value <= t.due.value
  {
    var own := Filter(tasks, OfDeal(dealId));
    var sorted := SortBy(own, TaskKey);
    FilterComplete(tasks, OfDeal(dealId));
    assert t in own;
    assert t in multiset(sorted);
    var j :| 0 <= j < |sorted| && sorted[j] == t;
    SortBySorted(own, TaskKey);
    if j > 0 {
      assert !KeyLess(TaskKey(sorted[j]), TaskKey(sorted[0]));
    }
  }

  // ---------------------------------------------------------------- board

  datatype DragType = ColumnDrag | DealDrag

  /** The page's state: columns, deals, filters, search text, and the item being dragged. */
  class Board {
    var columns: seq<Column>
    var deals: seq<Deal>
    var filters: FilterState
    var searchTerm: string
    var activeId: Option<string>
    var activeType: Option<DragType>

    /** The page opens with the persisted filters and an empty board until the first fetch. */
    constructor (saved: Option<SavedFilters>)
      ensures filters == LoadFilters(saved)
      ensures columns == [] && deals == [] && searchTerm == ""
      ensures activeId.None? && activeType.None?
    {
      filters := LoadFilters(saved);
      columns := [];
      deals := [];
      searchTerm := "";
      activeId := None;
      activeType := None;
    }

    /** The refresh after a fetch: the columns in order, each deal with its computed progress. */
    method Refresh(fetchedColumns: seq<Column>, fetchedDeals: seq<Deal>)
      modifies this
      ensures columns == fetchedColumns && deals == WithProgress(fetchedDeals, fetchedColumns)
      ensures filters == old(filters) && searchTerm == old(searchTerm)
      ensures activeId == old(activeId) && activeType == old(activeType)
    {
      columns := fetchedColumns;
      deals := WithProgress(fetchedDeals, fetchedColumns);
    }

    method ApplyFilters(f: FilterState)
      modifies this
      ensures filters == f
      ensures columns == old(columns) && deals == old(deals) && searchTerm == old(searchTerm)
      ensures activeId == old(activeId) && activeType == old(activeType)
    {
      filters := f;
    }

    /** "Clear filters" in the filter dialog. */
    method ClearFilters()
      modifies this
      ensures filters == DefaultFilters()
      ensures columns == old(columns) && deals == old(deals) && searchTerm == old(searchTerm)
      ensures activeId == old(activeId) && activeType == old(activeType)
    {
      filters := DefaultFilters();
    }

    /**
     * `handleDeleteColumn`. Refused while the column shows any deal;
     * otherwise, once `confirmed`, the column is removed.
     */
    method DeleteColumn(columnId: string, confirmed: bool, parseDate: string -> Option<int>) returns (refused: bool)
      modifies this
      ensures refused <==> ColumnDeals(FilteredDeals(old(deals), old(filters), old(searchTerm), parseDate), columnId) != []
      ensures !refused && confirmed ==> columns == WithoutColumn(old(columns), columnId)
      ensures refused || !confirmed ==> columns == old(columns)
      ensures deals == old(deals) && filters == old(filters) && searchTerm == old(searchTerm)
      ensures activeId == old(activeId) && activeType == old(activeType)
    {
      var shown := FilteredDeals(deals, filters, searchTerm, parseDate);
      refused := |ColumnDeals(shown, columnId)| > 0;
      if refused || !confirmed {
        return;
      }
      columns := WithoutColumn(columns, columnId);
    }

    /**
     * `handleSaveColumn`. A blank name does nothing. Editing renames the
     * column in place; adding appends the inserted row, `newId` being the id
     * the database gave it.
     */
    method SaveColumn(name: string, editing: Option<Column>, newId: string)
      modifies this
      ensures IsBlank(name) ==> columns == old(columns)
      ensures !IsBlank(name) && editing.Some? ==> columns == RenameColumn(old(columns), editing.value.id, name)
      ensures !IsBlank(name) && editing.None? ==> columns == old(columns) + [Column(newId, name, NewOrderIndex(old(columns)))]
      ensures deals == old(deals) && filters == old(filters) && searchTerm == old(searchTerm)
      ensures activeId == old(activeId) && activeType == old(activeType)
    {
      TrimEmptyIffBlank(name);
      if Trim(name) == [] {
        return;
      }
      if editing.Some? {
        columns := RenameColumn(columns, editing.value.id, name);
      } else {
        var orderIndex := NewOrderIndex(columns);
        columns := columns + [Column(newId, name, orderIndex)];
      }
    }

    /**
     * `handleSaveDeal`: returns what is sent to the database; `saved` is the
     * row it returns, which replaces the deal of that id on an update and is
     * appended on a create.
     */
    method SaveDeal(data: NewDealModal.DealPayload, saved: Deal) returns (sent: NewDealModal.DealPayload)
      modifies this
      ensures sent == DealToSave(data, old(columns))
      ensures Truthy(data.id) ==> deals == ReplaceDeal(old(deals), saved)
      ensures !Truthy(data.id) ==> deals == old(deals) + [saved]
      ensures columns == old(columns) && filters == old(filters) && searchTerm == old(searchTerm)
      ensures activeId == old(activeId) && activeType == old(activeType)
    {
      sent := DealToSave(data, columns);
      if Truthy(data.id) {
        deals := ReplaceDeal(deals, saved);
      } else {
        deals := deals + [saved];
      }
    }

    /** `handleDeleteDeal`: the deal leaves the board at once. */
    method DeleteDeal(dealId: string)
      modifies this
      ensures deals == WithoutDeal(old(deals), dealId)
      ensures columns == old(columns) && filters == old(filters) && searchTerm == old(searchTerm)
      ensures activeId == old(activeId) && activeType == old(activeType)
    {
      deals := WithoutDeal(deals, dealId);
    }

    method DragStart(id: string, isColumn: bool)
      modifies this
      ensures activeId == Some(id)
      ensures activeType == Some(if isColumn then ColumnDrag else DealDrag)
      ensures columns == old(columns) && deals == old(deals)
      ensures filters == old(filters) && searchTerm == old(searchTerm)
    {
      activeId := Some(id);
      activeType := Some(if isColumn then ColumnDrag else DealDrag);
    }

    /**
     * `handleDragOver`: a dragged deal that hovers a different column (or a
     * deal of one) moves there; only its `pipeline_id` changes.
     */
    method DragOver(dragged: string, overId: Option<string>)
      modifies this
      ensures |deals| == |old(deals)|
      ensures forall i :: 0 <= i < |deals| && old(deals)[i].id != dragged ==> deals[i] == old(deals)[i]
      ensures forall i :: 0 <= i < |deals| ==>
        deals[i] == old(deals)[i] || deals[i] == old(deals)[i].(pipelineId := deals[i].pipelineId)
      ensures var d := FindDeal(old(deals), dragged);
        var t := if overId.Some? then DropTarget(old(columns), old(deals), overId.value) else None;
        if old(activeType) == Some(DealDrag) && overId.Some? && dragged != overId.value && d.Some? && t.Some? && d.value.pipelineId != t
        then deals == MoveDeal(old(deals), dragged, t.value)
        else deals == old(deals)
      ensures columns == old(columns) && filters == old(filters) && searchTerm == old(searchTerm)
      ensures activeId == old(activeId) && activeType == old(activeType)
    {
      if overId.None? || dragged == overId.value || activeType == Some(ColumnDrag) {
        return;
      }
      var activeDeal := FindDeal(deals, dragged);
      if activeDeal.None? || activeType != Some(DealDrag) {
        return;
      }
      var target := DropTarget(columns, deals, overId.value);
      if target.None? {
        return;
      }
      if activeDeal.value.pipelineId != target {
        deals := MoveDeal(deals, dragged, target.value);
      }
    }

    /**
     * `handleDragEnd`. A column dropped on another column is moved there
     * and the new positions are returned as the rows to upsert; a deal gets
     * the progress of the column it now sits in, and its column is the
     * update to send. A drag without both ids (a missing or empty one) only
     * ends. The drag then ends.
     */
    method DragEnd(dragged: Option<string>, overId: Option<string>)
      returns (upserts: seq<Column>, moved: Option<Deal>)
      modifies this
      ensures activeId.None? && activeType.None?
      ensures filters == old(filters) && searchTerm == old(searchTerm)
      ensures upserts != [] ==> upserts == ReorderPayload(columns)
      ensures multiset(columns) == multiset(old(columns))
      ensures !Truthy(dragged) || !Truthy(overId) ==> columns == old(columns) && deals == old(deals) && upserts == [] && moved.None?
      ensures Truthy(dragged) && Truthy(overId) && old(activeType) == Some(ColumnDrag) ==>
        deals == old(deals) && moved.None?
        && var i := ColumnIndex(old(columns), dragged);
          var j := ColumnIndex(old(columns), overId);
          if dragged != overId && i != -1 && j != -1
          then columns == ArrayMove(old(columns), i, j) && upserts == ReorderPayload(columns)
          else columns == old(columns) && upserts == []
      ensures old(activeType) != Some(ColumnDrag) ==> columns == old(columns) && upserts == []
      ensures Truthy(dragged) && Truthy(overId) && old(activeType) != Some(ColumnDrag) ==> moved == FindDeal(old(deals), dragged.value)
      ensures moved.Some? ==> Truthy(dragged)
      ensures moved.Some? && dragged.Some? ==> moved == FindDeal(old(deals), dragged.value)
      ensures moved.Some? && dragged.Some? && moved.value.progress != Progress(old(columns), moved.value.pipelineId) ==>
        deals == SetProgress(old(deals), dragged.value, Progress(old(columns), moved.value.pipelineId))
      ensures moved.Some? && moved.value.progress == Progress(old(columns), moved.value.pipelineId) ==> deals == old(deals)
      ensures moved.None? ==> deals == old(deals)
    {
      upserts := [];
      moved := None;
      if !Truthy(dragged) || !Truthy(overId) {
        activeId := None;
        activeType := None;
        return;
      }
      if activeType == Some(ColumnDrag) {
        upserts := DropColumn(dragged.value, overId.value);
      } else {
        moved := DropDeal(dragged.value);
      }
      activeId := None;
      activeType := None;
    }

    /** A column dropped on another one takes its place; nothing moves when either is not found. */
    method DropColumn(dragged: string, over: string) returns (upserts: seq<Column>)
      modifies this`columns
      ensures upserts != [] ==> upserts == ReorderPayload(columns)
      ensures multiset(columns) == multiset(old(columns))
      ensures var i := ColumnIndex(old(columns), Some(dragged));
        var j := ColumnIndex(old(columns), Some(over));
        if dragged != over && i != -1 && j != -1
        then columns == ArrayMove(old(columns), i, j) && upserts == ReorderPayload(columns)
        else columns == old(columns) && upserts == []
    {
      upserts := [];
      if dragged != over {
        var oldIndex := ColumnIndex(columns, Some(dragged));
        var newIndex := ColumnIndex(columns, Some(over));
        if oldIndex != -1 && newIndex != -1 {
          columns := ArrayMove(columns, oldIndex, newIndex);
          upserts := ReorderPayload(columns);
        }
      }
    }

    /** A dropped deal gets the progress of the column it sits in. */
    method DropDeal(dragged: string) returns (moved: Option<Deal>)
      modifies this`deals
      ensures moved == FindDeal(old(deals), dragged)
      ensures moved.Some? && moved.value.progress != Progress(columns, moved.value.pipelineId) ==>
        deals == SetProgress(old(deals), dragged, Progress(columns, moved.value.pipelineId))
      ensures moved.Some? && moved.value.progress == Progress(columns, moved.value.pipelineId) ==> deals == old(deals)
      ensures moved.None? ==> deals == old(deals)
    {
      moved := FindDeal(deals, dragged);
      if moved.Some? {
        var newProgress := Progress(columns, moved.value.pipelineId);
        if moved.value.progress != newProgress {
          deals := SetProgress(deals, dragged, newProgress);
        }
      }
    }
  }

  /** A reorder keeps every column and numbers them 0..n-1 in their new order. */
  lemma ReorderIsPermutation(columns: seq<Column>, from: nat, to: nat)
    requires from < |columns| && to < |columns|
    ensures var moved := ArrayMove(columns, from, to);
      multiset(moved) == multiset(columns)
      && forall i :: 0 <= i < |moved| ==> ReorderPayload(moved)[i].orderIndex == i
  {
  }
}
