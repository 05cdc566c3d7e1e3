# K&O CRM core in Dafny

A model of the deterministic core of a small CRM for a consultancy. The CRM is a React
front end written in TypeScript over a Supabase database. The model covers the logic
that sits between the screens and the database calls:

- **Access rules** (`utils/roles.ts`): the three roles, and `hasPermission`, which lowercases the role.
- **Goal periods** (`utils/goals.ts`): the key of the current period and the label shown for a key.
- **Sales pipeline**:
  - the board (`pages/PipelinePage.tsx`): saved filters and their migration, the
    active-filter count, deal filtering, column totals and progress, column ordering,
    drag and drop, deal import, and the choice of each deal's next task;
  - the list view (`components/PipelineListView.tsx`): column configuration, the
    sort cycle, multi-select filters, row selection and cell edits;
  - the filter dialog (`components/FilterModal.tsx`).
- **Tasks**:
  - the calendar (`pages/CalendarPage.tsx`): merging project and deal tasks,
    filters, order, statistics, and the week and month grids;
  - client tasks and the pipeline tracker (`pages/ClientDetailsPage.tsx`);
  - project tasks and their progress (`pages/ProjectDetailsPage.tsx`);
  - the project list (`pages/InternalProjectsPage.tsx`).
- **Goals** (`pages/GoalsPage.tsx` and `components/UpdateGoalProgressModal.tsx`,
  `components/AddGoalModal.tsx`): the progress of each goal, the statistics, the
  per-user ranking, the badges, and the progress editor.
- **Finance** (`pages/FinancialPage.tsx` and the recovery and retainer dialogs):
  - the fee split of a recovery and a retainer's commission share;
  - realised and pending revenue and net profit;
  - the six-month chart window;
  - marking a retainer as paid for the month.
- **Dialogs and small state machines**: deal, project, project task, project member and
  project document dialogs (including the file-name sanitiser); the toast queue;
  navigation and the sign-in redirect in `App.tsx`; user administration; the profile
  editor; the sidebar menu; the project card's lookups.

Modelling conventions:

- There is one Dafny module per source file, plus helper modules for the JavaScript built-ins the code relies on:
  - `Wrappers`: `Option`, which stands for `null` and `undefined`;
  - `Text`: strings, ASCII `toLowerCase`, `trim`, `includes`, `split` and `join`, and `parseInt` and `parseFloat` on decimal text;
  - `Numbers`: `Math.round` as round-half-up, percentages, and form fields;
  - `Lists`: `filter`, `map`, counts, sums, and the stable sort of `Array.prototype.sort`;
  - `Dates`: the proleptic Gregorian calendar behind `new Date(y, m, d)`, with days counted from 1970-01-01;
  - `Records`: the deal and pipeline-column records the board and the list view share.
- A screen whose handlers change its state step by step is a `class`. Its fields are the React state, and its methods are the handlers.
- Each handler's call to the database is taken to succeed. What it would send is returned as a value.
- Lookups, filters and payload builders are functions, with lemmas that relate them.
- Money is `real`. Goal values are `int`. Times are whole minutes counted from 1970-01-01 00:00 local time.
- A form field is either the text the user typed (`Typed`) or a stored number written into the field (`Shown`). `Shown(x)` reads back as `x`.
- The clock, random identifiers, object and public URLs, Unicode decomposition (`normalize('NFD')`) and the display formatters are parameters of the members that use them.

## Model

| member | source | states |
|---|---|---|
| Roles.Roles | utils/roles.ts:3-7 | `ROLES` maps MANAGER to the manager, CONSULTANT to the consultant and ANALYST to the analyst, and nothing else |
| Roles.RoleLabelsDistinct | utils/roles.ts:1-13 | the three roles have pairwise different stored names and labels, so `ROLE_LABELS` has one entry per role |
| Roles.RoleLabel | utils/roles.ts:9-13 | 'Gestor' labels exactly the manager, 'Consultor' the consultant and 'Analista' the analyst |
| Roles.Allowed | utils/roles.ts:15-20 | every permission is granted to the 'manager' role alone |
| Roles.HasPermission | utils/roles.ts:22-27 | a missing or empty role is refused; otherwise the answer is membership of the lowercased role in the list |
| Roles.HasPermissionLowerInvariant | utils/roles.ts:25-26 | lowercasing the role before the call does not change the answer |
| Roles.OnlyManagers | utils/roles.ts:15-20 | each of the four permissions is granted exactly to roles that lowercase to 'manager' |
| Roles.CaseInsensitiveManager | utils/roles.ts:15-26 | 'Manager', 'MANAGER' and 'manager' hold every permission; 'consultant' and 'analyst' hold none |
| GoalPeriods.DayOfYear | utils/goals.ts:14-15 | the whole days since January 1st lie between 0 and the length of the year minus one |
| GoalPeriods.WeekNumber | utils/goals.ts:16 | the week number is at least 1 and at most 54 |
| GoalPeriods.Quarter | utils/goals.ts:21 | the quarter lies in 1..4 and is the one whose three months hold the month |
| GoalPeriods.Semester | utils/goals.ts:24 | the semester is 1 exactly for months 0..5 and 2 otherwise |
| GoalPeriods.CurrentPeriodKey | utils/goals.ts:3-31 | every key starts with the year, and the key is the bare year exactly for the annual period |
| GoalPeriods.Pad2Digits | utils/goals.ts:6 | a number below 100 padded with `padStart(2, '0')` is two digits |
| GoalPeriods.MonthlyKeyShape | utils/goals.ts:18-19 | monthly and unrecognised periods both give 'YYYY-MM' with a two-digit month |
| GoalPeriods.MonthName | utils/goals.ts:47-48 | a parsed month 1..12 picks the abbreviation at index month-1 |
| GoalPeriods.PeriodLabel | utils/goals.ts:33-35 | an empty key is labelled 'Período Desconhecido' |
| GoalPeriods.DashFreeLabel | utils/goals.ts:34-37 | an empty key gives 'Período Desconhecido'; a non-empty key without a dash gives 'Ano ' followed by the key |
| GoalPeriods.YearText | utils/goals.ts:5 | the decimal text of a non-negative year is non-empty and holds no dash |
| GoalPeriods.AnnualLabel | utils/goals.ts:26-27 | the label of the current annual key is 'Ano YYYY' |
| GoalPeriods.SplitKey | utils/goals.ts:36 | a key joined from dash-free pieces splits back into exactly those pieces |
| GoalPeriods.QuarterLabelAsWritten | utils/goals.ts:41 | the label of 'Y-Q<n>' as written is 'º Trimestre', then n, then ' de Y' |
| GoalPeriods.SemesterLabelAsWritten | utils/goals.ts:42 | the label of 'Y-S<n>' as written is 'º Semestre', then n, then ' de Y' |
| GoalPeriods.QuarterLabelMisplaced | utils/goals.ts:41 | the label of '2024-Q2' is 'º Trimestre2 de 2024' |
| GoalPeriods.SemesterLabelMisplaced | utils/goals.ts:42 | the label of '2024-S1' is 'º Semestre1 de 2024' |
| GoalPeriods.IntendedLabelAgrees | utils/goals.ts:33-50 | the corrected label differs from the label as written only on quarter and semester keys |
| GoalPeriods.QuarterKeyLabel | utils/goals.ts:41 | the corrected label of 'Y-Q<n>' is n, then 'º Trimestre de Y' |
| GoalPeriods.SemesterKeyLabel | utils/goals.ts:42 | the corrected label of 'Y-S<n>' is n, then 'º Semestre de Y' |
| GoalPeriods.QuarterLabel | utils/goals.ts:20-22 | the corrected label of the current quarter key is '<q>º Trimestre de YYYY' |
| GoalPeriods.SemesterLabel | utils/goals.ts:23-25 | the corrected label of the current semester key is '<s>º Semestre de YYYY' |
| GoalPeriods.TaggedKeySplits | utils/goals.ts:36-39 | 'Y-<tag><n>' splits into the year and the tagged number, whose tail is n |
| GoalPeriods.WeekKeyLabel | utils/goals.ts:43 | the label of 'Y-W<n>' is 'Semana <n> de Y' |
| GoalPeriods.WeekLabel | utils/goals.ts:12-17 | the label of the current weekly key is 'Semana WW de YYYY' with the padded week number |
| GoalPeriods.DayLabel | utils/goals.ts:44 | a three-part key 'Y-MM-DD' gives 'DD/MM/Y' |
| GoalPeriods.DailyLabel | utils/goals.ts:9-11 | the label of the current daily key is 'DD/MM/YYYY' with padded day and month |
| GoalPeriods.MonthLabel | utils/goals.ts:46-49 | 'Y-MM' with a padded month gives the month's abbreviation, ' / ' and the year |
| GoalPeriods.MonthlyLabel | utils/goals.ts:18-19 | the label of the current monthly or unrecognised key is '<abbrev> / YYYY' |
| PipelinePage.DefaultFilters | pages/PipelinePage.tsx:293-301 | the default filters list only active deals and leave every other criterion empty |
| PipelinePage.Migrate | pages/PipelinePage.tsx:310-313 | an old non-empty `assigneeId` without a saved list becomes the one-element `assigneeIds`; any other save is kept as it is |
| PipelinePage.Merge | pages/PipelinePage.tsx:315-316 | every saved field (tags, assignees, status, value bounds, dates) overrides the default one; a missing one keeps the default: no tags or assignees, status `['active']`, empty bounds and dates |
| PipelinePage.LoadFilters | pages/PipelinePage.tsx:304-323 | with nothing saved, or a save that does not parse, the page starts from the default filters |
| PipelinePage.Stored | pages/PipelinePage.tsx:326-328 | the persisted filters carry every field and no legacy `assigneeId` |
| PipelinePage.LoadStored | pages/PipelinePage.tsx:304-328 | reloading the page restores exactly the filters last persisted |
| PipelinePage.LoadLegacyAssignee | pages/PipelinePage.tsx:310-316 | a save holding only a legacy assignee loads as that assignee with every other criterion at its default |
| PipelinePage.Flag | pages/PipelinePage.tsx:332-338 | one criterion contributes itself exactly when it restricts, and nothing otherwise |
| PipelinePage.ActiveCriteriaMeaning | pages/PipelinePage.tsx:330-340 | a criterion is counted exactly when the filters restrict on it; status only when it is neither empty nor exactly ['active'] |
| PipelinePage.ActiveFiltersCount | pages/PipelinePage.tsx:330-340 | the count is the number of restricting criteria, at most 7, and 0 exactly when no tags, assignees, value bounds or dates are set and the status list is empty or exactly ['active'] |
| PipelinePage.NoCriteriaIffNothingCounted | pages/PipelinePage.tsx:330-340 | no criterion restricts exactly when no tags, assignees, value bounds or dates are set and the status list is empty or exactly ['active'] |
| PipelinePage.DefaultFiltersInactive | pages/PipelinePage.tsx:293-301 | the default filters count 0 |
| PipelinePage.FilteredDeals | pages/PipelinePage.tsx:433-484 | the shown deals are never more than the deals |
| PipelinePage.FilteredDealsInOrder | pages/PipelinePage.tsx:433-484 | the shown deals appear in the order they have among all deals |
| PipelinePage.FilteredDealsMeetCriteria | pages/PipelinePage.tsx:433-484 | every shown deal is a deal that matches the search, has a listed status, tag and assignee when those lists are non-empty, and lies within the value bounds that parse (a missing value read as 0) |
| PipelinePage.FilteredDealsComplete | pages/PipelinePage.tsx:433-484 | every deal meeting all criteria is shown |
| PipelinePage.UnreadableBoundIgnored | pages/PipelinePage.tsx:466 | a minimum that does not parse excludes nothing |
| PipelinePage.DefaultFiltersShowActive | pages/PipelinePage.tsx:293-301 | with the default filters and a blank search the board shows exactly the active deals, in order |
| PipelinePage.DefaultPasses | pages/PipelinePage.tsx:433-484 | with the default filters and a blank search a deal passes exactly when it is active |
| PipelinePage.ColumnDeals | pages/PipelinePage.tsx:496-498 | the column's deals are exactly the shown deals whose pipeline is that column |
| PipelinePage.ColumnTotalBounded | pages/PipelinePage.tsx:504-507 | with non-negative values a column total lies between 0 and the total of all shown deals |
| PipelinePage.ColumnTotal | pages/PipelinePage.tsx:504-507 | a column none of whose deals is shown totals 0 |
| PipelinePage.HiddenDealsDoNotBlock | pages/PipelinePage.tsx:522-527 | a column whose deals are all filtered out has no shown deals, so its deletion is not refused |
| PipelinePage.MaxOrderIndex | pages/PipelinePage.tsx:555 | the maximum is the order index of some column and no column exceeds it |
| PipelinePage.NewOrderIndex | pages/PipelinePage.tsx:555 | a new column's index is 0 on an empty board, otherwise one more than the largest existing index |
| PipelinePage.Progress | pages/PipelinePage.tsx:387-391 | a deal in a found column at index i has progress `Math.round((i + 1) / columns.length * 100)`, which lies in 0..100 and is 100 for the last column; a deal whose column is not found has 0 |
| PipelinePage.ProgressPositive | pages/PipelinePage.tsx:387-391 | a deal in a found column of a board of at most 200 columns has progress at least 1 |
| PipelinePage.WithProgress | pages/PipelinePage.tsx:387-411 | the refresh keeps every deal and attaches to each the progress of its column |
| PipelinePage.ArrayMove | pages/PipelinePage.tsx:722 | `arrayMove` keeps the length, puts the moved element at its target and is a permutation |
| PipelinePage.ArrayMoveSame | pages/PipelinePage.tsx:722 | moving an element onto its own place changes nothing |
| PipelinePage.ReorderPayload | pages/PipelinePage.tsx:726-730 | one row per column, each keeping the id and name with its position as `order_index` |
| PipelinePage.ReorderIsPermutation | pages/PipelinePage.tsx:716-730 | a column drag keeps every column and renumbers them 0..n-1 in their new order |
| PipelinePage.DropTarget | pages/PipelinePage.tsx:672-690 | a hovered column is the target; any target found is a non-empty id |
| Records.FindDeal | pages/PipelinePage.tsx:664 | `deals.find` gives the first deal with the id: a found deal has it and no earlier deal does; none when no deal has it |
| Records.ColumnIndex | pages/PipelinePage.tsx:718-719 | `findIndex` gives the first column with the id, or -1 when there is no id or no column has it |
| PipelinePage.MoveDeal | pages/PipelinePage.tsx:692-701 | only the dragged deal changes, and only its pipeline |
| PipelinePage.SetProgress | pages/PipelinePage.tsx:760-762 | only the deal with that id changes, and only its progress |
| PipelinePage.ReplaceDeal | pages/PipelinePage.tsx:602 | the saved deal replaces the deal with its id and every other deal is kept |
| PipelinePage.RenameColumn | pages/PipelinePage.tsx:552 | only the edited column changes, and only its name |
| PipelinePage.WithoutColumn | pages/PipelinePage.tsx:533 | the deleted column is gone and every other column is kept |
| PipelinePage.WithoutDeal | pages/PipelinePage.tsx:624 | the deleted deal is gone and every other deal is kept |
| PipelinePage.DealToSave | pages/PipelinePage.tsx:586-589 | a new deal sent without a column goes to the first column; every other payload is sent as it is |
| PipelinePage.NullIfEmpty | pages/PipelinePage.tsx:838-846 | an empty or missing cell becomes null and any other cell is kept |
| PipelinePage.ImportDeal | pages/PipelinePage.tsx:836-850 | an imported row lands active in the given column, with tag 'Novo' and title 'Nova Oportunidade' by default and value `Number(v)`, or 0 when that is NaN or zero |
| PipelinePage.ImportDeals | pages/PipelinePage.tsx:827-850 | import is refused exactly when there are no columns; otherwise one deal per row, in row order, each the row imported into the first column |
| PipelinePage.NextTaskCompareAsWritten | pages/PipelinePage.tsx:397-401 | an undated first task compares greater, an undated second task smaller, two dated ones by due instant |
| PipelinePage.NextTaskCompareInconsistent | pages/PipelinePage.tsx:397-401 | two undated tasks each compare greater than the other |
| PipelinePage.TaskKey | pages/PipelinePage.tsx:397-401 | dated tasks sort before undated ones and by due instant among themselves |
| PipelinePage.TaskKeyAgrees | pages/PipelinePage.tsx:397-401 | the corrected order agrees with the comparator whenever one of the two tasks has a date |
| PipelinePage.NextTask | pages/PipelinePage.tsx:394-409 | the next task is absent exactly when the deal has no task, and otherwise is one of the deal's tasks |
| PipelinePage.NextTaskEarliest | pages/PipelinePage.tsx:394-409 | a deal with a task has a next task, due no later than any dated task of the deal |
| PipelinePage.Board.constructor | pages/PipelinePage.tsx:289-323 | the page opens with the persisted filters, an empty board, an empty search and nothing dragged |
| PipelinePage.Board.Refresh | pages/PipelinePage.tsx:346-411 | after a fetch the board holds the fetched columns and the deals with their progress; nothing else changes |
| PipelinePage.Board.ApplyFilters | pages/PipelinePage.tsx:1134 | applying filters replaces them and changes nothing else |
| PipelinePage.Board.ClearFilters | pages/PipelinePage.tsx:1135-1143 | clearing restores the default filters and changes nothing else |
| PipelinePage.Board.DeleteColumn | pages/PipelinePage.tsx:522-538 | deletion is refused exactly when the column has shown deals; a confirmed deletion removes the column; nothing else changes |
| PipelinePage.Board.SaveColumn | pages/PipelinePage.tsx:540-569 | a blank name changes nothing; an edit renames the column; an addition appends a column after every existing order index |
| PipelinePage.Board.SaveDeal | pages/PipelinePage.tsx:583-620 | the payload gets the default column; an update replaces the deal, a creation appends it |
| PipelinePage.Board.DeleteDeal | pages/PipelinePage.tsx:622-624 | the deal leaves the board and nothing else changes |
| PipelinePage.Board.DragStart | pages/PipelinePage.tsx:642-649 | the dragged id and its kind are recorded and nothing else changes |
| PipelinePage.Board.DragOver | pages/PipelinePage.tsx:651-702 | a dragged deal hovering something other than itself whose drop target is a different column is moved to that column; in every other case (a column drag, nothing hovered, an unknown deal, no target, the same column) the deals stay as they were; only that deal's pipeline can change |
| PipelinePage.Board.DragEnd | pages/PipelinePage.tsx:704-779 | the drag ends; with a missing or empty id nothing else changes; a column dropped on another known column is moved to its index and the new positions are upserted, and otherwise the columns stay; a deal drop finds the deal by id and updates only its progress, to that of its column |
| PipelinePage.Board.DropColumn | pages/PipelinePage.tsx:716-742 | when the two ids differ and both columns are found, the dragged column is moved from its index to the other's and the upsert holds the new positions; otherwise the columns stay and nothing is upserted; either way the columns are a permutation of those before |
| PipelinePage.Board.DropDeal | pages/PipelinePage.tsx:749-775 | the dropped deal is found by id and only its progress changes, to that of its column |
| PipelineListView.DefaultColumns | components/PipelineListView.tsx:34-48 | thirteen built-in columns, none custom; only the client column is locked, and exactly the first six are shown |
| PipelineListView.AppendMissing | components/PipelineListView.tsx:179-194 | the merge keeps the base configuration as its prefix |
| PipelineListView.AppendMissingCovers | components/PipelineListView.tsx:179-194 | after the merge every key of the base and of the added columns is present |
| PipelineListView.AppendMissingDistinct | components/PipelineListView.tsx:179-194 | the merge never introduces a second column with the same key |
| PipelineListView.AppendMissingFrom | components/PipelineListView.tsx:179-194 | every appended column comes from the added columns |
| PipelineListView.AppendMissingKeys | components/PipelineListView.tsx:180-194 | the loop with its key set computes the merge, and the key set ends as the keys of the result |
| PipelineListView.InitialConfig | components/PipelineListView.tsx:156-197 | with nothing saved the configuration is the built-in columns then the saved custom ones; otherwise the saved order followed by each missing built-in, then each missing custom column |
| PipelineListView.InitialConfigKeepsSaved | components/PipelineListView.tsx:175-196 | a saved configuration comes back first, in its order, with every built-in column present |
| PipelineListView.SyncCustom | components/PipelineListView.tsx:218-232 | the custom-definitions effect only appends, and afterwards every definition's key is configured |
| PipelineListView.FieldColumn | components/PipelineListView.tsx:294-299 | a column found on a deal is labelled by its key, hidden and custom |
| PipelineListView.FieldColumns | components/PipelineListView.tsx:284 | one column per custom-field key of a deal, in key order |
| PipelineListView.AppendMissingRepeat | components/PipelineListView.tsx:281-284 | a key already collected changes nothing, as in the key set |
| PipelineListView.MergeFieldColumns | components/PipelineListView.tsx:280-306 | the deals effect appends a hidden custom column for each custom-field key not yet configured |
| PipelineListView.UnderscoreSpaces | components/PipelineListView.tsx:241 | the result holds no white space and is never longer; a text without white space is unchanged |
| PipelineListView.UnderscoreSpacesCons | components/PipelineListView.tsx:241 | a character other than white space passes through unchanged, whatever follows it |
| PipelineListView.UnderscoreSpacesRun | components/PipelineListView.tsx:241 | a whole run of white space, however long, becomes exactly one '_' |
| PipelineListView.ColumnKey | components/PipelineListView.tsx:241 | a column key holds no white space |
| PipelineListView.ColumnKeyChar | components/PipelineListView.tsx:241 | in a key, a character other than white space is lower-cased, whatever follows it |
| PipelineListView.ColumnKeyRun | components/PipelineListView.tsx:241 | in a key, a whole run of white space, however long, becomes exactly one '_' |
| PipelineListView.UnderscoreSpacesLower | components/PipelineListView.tsx:241 | replacing white space keeps a lower-case text lower-case |
| PipelineListView.ColumnKeyIdempotent | components/PipelineListView.tsx:241 | a key typed again as a name gives the same key |
| PipelineListView.NewCustomColumn | components/PipelineListView.tsx:239-254 | a column is made exactly when the name is not blank and its key is in neither the configuration nor the definitions; it is visible, custom and labelled by the name |
| PipelineListView.NewCustomColumnOnce | components/PipelineListView.tsx:239-258 | once a column is added, any name with the same key is refused, before and after the sync |
| PipelineListView.StatusText | components/PipelineListView.tsx:406-407 | a missing, empty or 'active' status reads as 'Em Andamento' |
| PipelineListView.StageFilterMeaning | components/PipelineListView.tsx:397-401 | an empty selection is the empty filter text; a non-empty one keeps a deal exactly when its stage is selected |
| PipelineListView.StageName | components/PipelineListView.tsx:309-312 | the stage name is never empty |
| PipelineListView.StrLessTotal | components/PipelineListView.tsx:457-458 | of two different texts exactly one is smaller |
| PipelineListView.StrLessTransitive | components/PipelineListView.tsx:457-458 | the text order is transitive |
| PipelineListView.CompareValues | components/PipelineListView.tsx:446-459 | the comparator answers -1, 0 or 1, and 0 on equal keys |
| PipelineListView.ProcessedDeals | components/PipelineListView.tsx:385-464 | the rows are a permutation of the deals passing every column filter, in their own order when nothing is sorted |
| PipelineListView.TextCompareConsistent | components/PipelineListView.tsx:446-459 | on a text column the comparator is a consistent order in either direction |
| PipelineListView.ProcessedDealsSorted | components/PipelineListView.tsx:421-461 | sorting by a text column puts the rows in the comparator's order |
| PipelineListView.NextSort | components/PipelineListView.tsx:466-473 | another key sorts ascending; the same key goes from ascending to descending, then off |
| PipelineListView.SortCycle | components/PipelineListView.tsx:466-473 | three clicks on one header return to the state before them |
| PipelineListView.ToggleFilterOption | components/PipelineListView.tsx:479-487 | toggling an option changes no other column's filter |
| PipelineListView.ToggleFilterOptionTwice | components/PipelineListView.tsx:479-487 | toggling an unselected option twice restores the column's filter text |
| PipelineListView.SelectAllAsWritten | components/PipelineListView.tsx:324-330 | the header clears when the selection has as many ids as there are rows and otherwise selects every row |
| PipelineListView.SelectAllAsWrittenClearsStale | components/PipelineListView.tsx:324-330 | with rows a and c and a stale selection {a, b}, the header clears although c was never selected |
| PipelineListView.SelectAll | components/PipelineListView.tsx:324-330 | the corrected header clears when every row is selected and otherwise selects exactly the rows |
| PipelineListView.SelectAllAgrees | components/PipelineListView.tsx:324-330 | on a selection of exactly the rows' distinct ids both versions clear |
| PipelineListView.DistinctIdsCard | components/PipelineListView.tsx:325 | rows with distinct ids have as many ids as rows |
| PipelineListView.EditedFields | components/PipelineListView.tsx:362-363 | the edited field holds the new value and every other field is unchanged |
| PipelineListView.ListView.constructor | components/PipelineListView.tsx:156-215 | the table opens with the merged configuration, the saved definitions, no selection, no sort and no filters |
| PipelineListView.ListView.SyncCustomColumns | components/PipelineListView.tsx:218-232 | the definitions effect appends the missing definitions and changes nothing else |
| PipelineListView.ListView.SyncFieldColumns | components/PipelineListView.tsx:280-306 | the deals effect appends the missing field columns and changes nothing else |
| PipelineListView.ListView.AddCustomColumn | components/PipelineListView.tsx:239-258 | a column is defined and the name cleared exactly when the name is accepted; otherwise nothing changes |
| PipelineListView.ListView.DeleteCustomColumn | components/PipelineListView.tsx:260-264 | a confirmed delete removes the definition only; the configured column stays |
| PipelineListView.DeletedColumnStays | components/PipelineListView.tsx:218-264 | after deleting a definition the sync still leaves its column configured |
| PipelineListView.SwapPermutes | components/PipelineListView.tsx:270-273 | swapping two entries is a permutation |
| PipelineListView.ListView.MoveColumn | components/PipelineListView.tsx:266-277 | the entry swaps with its neighbour, nothing moves at either end, and the result is a permutation |
| PipelineListView.ListView.ToggleColumnVisibility | components/PipelineListView.tsx:375-377 | only the columns with that key flip visibility |
| PipelineListView.ListView.ToggleSelectAll | components/PipelineListView.tsx:324-330 | the header applies the corrected select-all |
| PipelineListView.ListView.ToggleSelectRow | components/PipelineListView.tsx:332-340 | only the given id changes membership |
| PipelineListView.ListView.FieldChangeTargets | components/PipelineListView.tsx:343-355 | an edit on a selected row goes to the whole selection once confirmed, and to that row alone otherwise |
| PipelineListView.ListView.CustomFieldChange | components/PipelineListView.tsx:358-372 | an unknown deal sends nothing; otherwise the edited fields go to the same targets |
| PipelineListView.ListView.Sort | components/PipelineListView.tsx:466-473 | the sort steps through the header cycle and nothing else changes |
| PipelineListView.ListView.FilterChange | components/PipelineListView.tsx:475-477 | the column's filter text is set and nothing else changes |
| PipelineListView.ListView.ToggleOption | components/PipelineListView.tsx:479-487 | the option is toggled in the column's filter and nothing else changes |
| Lists.Remove | components/FilterModal.tsx:53 | removing a value keeps every other element and drops every copy of the value |
| Lists.Toggle | components/FilterModal.tsx:50-58 | a toggle flips the value's membership, keeps every other element, and appends an absent value at the end |
| Lists.ToggleTwice | components/FilterModal.tsx:50-78 | toggling an absent value twice gives back the list exactly |
| FilterModal.FilterDialog.constructor | components/FilterModal.tsx:28 | the dialog starts from the page's current filters |
| FilterModal.FilterDialog.Open | components/FilterModal.tsx:30-38 | opening copies the page's current filters |
| FilterModal.FilterDialog.ToggleTag | components/FilterModal.tsx:50-58 | only the tag list changes, by a toggle |
| FilterModal.FilterDialog.ToggleStatus | components/FilterModal.tsx:60-68 | only the status list changes, by a toggle |
| FilterModal.FilterDialog.ToggleAssignee | components/FilterModal.tsx:70-78 | only the assignee list changes, by a toggle |
| FilterModal.FilterDialog.Apply | components/FilterModal.tsx:85-88 | the filters handed to the page are the local ones, unchanged |
| FilterModal.ToggleTagTwice | components/FilterModal.tsx:50-58 | toggling an unselected tag twice leaves the filters as they were |
| CalendarPage.FromProject | pages/CalendarPage.tsx:174-179 | a project task keeps its id, title, description, due date, status, priority, project and assignees, and is filed under its project's title and category |
| CalendarPage.FromDeal | pages/CalendarPage.tsx:181-193 | a deal task keeps its id, title, due date and assignees; it is 'done' exactly when completed and 'todo' otherwise, 'high' exactly when urgent and 'medium' otherwise, filed under 'Vendas' |
| CalendarPage.TaskKey | pages/CalendarPage.tsx:197-201 | the order key puts tasks not done first, then by due date with a missing date at 9999-12-31 |
| CalendarPage.SortTasks | pages/CalendarPage.tsx:197-201 | sorting is a permutation |
| CalendarPage.MergeTasks | pages/CalendarPage.tsx:174-195 | the merged list holds exactly the normalised project tasks and deal tasks, each once per row |
| CalendarPage.SortTasksOrder | pages/CalendarPage.tsx:255-259 | in the sorted list no done task precedes one not done, and due dates never decrease within either group |
| CalendarPage.AgendaListed | pages/CalendarPage.tsx:254-262 | every task on show is a loaded task passing the filters, and the list view shows each passing task as often as it was loaded |
| CalendarPage.AgendaOrdered | pages/CalendarPage.tsx:254-262 | the tasks on show come in the agenda order: none done before one not done, due dates not decreasing within each group |
| CalendarPage.SortTasksStable | pages/CalendarPage.tsx:255-259 | tasks with equal keys keep their previous order |
| CalendarPage.StoredOr | pages/CalendarPage.tsx:23-39 | a stored non-empty choice wins; otherwise the default |
| CalendarPage.RestoredFilters | pages/CalendarPage.tsx:28-39 | with nothing stored the filters are pending tasks, any priority, any date, anyone's |
| CalendarPage.FilteredTasks | pages/CalendarPage.tsx:72-109 | the listed tasks are exactly the loaded tasks that pass the filters |
| CalendarPage.DateFilterIgnoresAssignee | pages/CalendarPage.tsx:86-105 | under a date filter the chosen assignee makes no difference |
| CalendarPage.DateFilterMeaning | pages/CalendarPage.tsx:82-101 | a task without a due date fails every date filter; 'overdue' is before today's midnight and not done; 'week' lies between midnight and seven days later; 'today' is the same day |
| CalendarPage.DayStartOf | pages/CalendarPage.tsx:84-90 | an instant within a day has that day's midnight as its day start |
| CalendarPage.SameDay | pages/CalendarPage.tsx:86-91 | two instants share a day exactly when one lies between the other's midnight and the next |
| CalendarPage.StatusFilterMeaning | pages/CalendarPage.tsx:75-79 | with 'pending' no listed task is done, with 'done' all are, and a chosen priority is every listed task's priority |
| CalendarPage.DisplayedTasks | pages/CalendarPage.tsx:262 | the grid view shows the first eight sorted tasks, the list view all of them |
| CalendarPage.Stats | pages/CalendarPage.tsx:266-269 | completed counts the done tasks and pending the others, together the total; the progress is `Math.round(completed / total * 100)`, 0 without tasks, so in 0..100 and 100 when all are done |
| CalendarPage.Toggled | pages/CalendarPage.tsx:272 | a click gives 'done' exactly to a task not done, and otherwise 'todo' |
| CalendarPage.ToggledTwice | pages/CalendarPage.tsx:272 | two clicks restore a done or to-do task; an in-progress task comes back as to-do |
| CalendarPage.ToggleUpdate | pages/CalendarPage.tsx:276-280 | a deal task sends its completion flag, a project task its toggled status |
| CalendarPage.DayNumberIsMakeDay | pages/CalendarPage.tsx:240-241 | a valid date is the day `new Date(y, m, d)` denotes |
| CalendarPage.ShiftDays | pages/CalendarPage.tsx:241 | `setDate(getDate() + k)` moves a date by exactly k days |
| CalendarPage.ModShift | pages/CalendarPage.tsx:235-236 | adding to a weekday and reducing modulo 7 is the weekday of the shifted day |
| CalendarPage.MondayOffset | pages/CalendarPage.tsx:235-236 | the offset back to Monday lies in 0..6 and lands on a Monday, a Sunday counting with the week before |
| CalendarPage.WeekDiff | pages/CalendarPage.tsx:122-123 | the Monday's day of the month is `getDate() - day + (day === 0 ? -6 : 1)`, at most six days before the date |
| CalendarPage.WeekStart | pages/CalendarPage.tsx:235-237 | the start of the week is a Monday no more than six days before the date |
| CalendarPage.MonthRange | pages/CalendarPage.tsx:118-120 | the month view asks for the first through the last day of the month on show |
| CalendarPage.WeekRangeAsWritten | pages/CalendarPage.tsx:121-125 | the week view's range starts on the week's Monday; it ends six days later when that Monday lies in the month on show, and before its start when it does not |
| CalendarPage.MondayDay | pages/CalendarPage.tsx:122-124 | the Monday is day `diff` of the month on show, or `diff` plus the previous month's length when `diff` is not positive |
| CalendarPage.WeekRange | pages/CalendarPage.tsx:121-125 | the intended week range runs from the week's Monday to six days later and holds the date on show |
| CalendarPage.WeekRangeAsWrittenAgrees | pages/CalendarPage.tsx:121-125 | the week range as written is the intended one exactly when the week's Monday lies in the month on show |
| CalendarPage.WeekRangeAsWrittenOctober2025 | pages/CalendarPage.tsx:121-125 | on Wednesday 1 October 2025 the range as written is 29 September to 5 September, the intended one 29 September to 5 October |
| CalendarPage.WeekDays | pages/CalendarPage.tsx:231-245 | seven consecutive valid days starting on the Monday of the date's week |
| CalendarPage.GridColumn | pages/CalendarPage.tsx:481-488 | the k-th date of a month falls k weekdays after the first |
| CalendarPage.MonthGrid | pages/CalendarPage.tsx:477-490 | one blank per weekday before the first, then every date of the month, each in its weekday's column |
| CalendarPage.GridAligned | pages/CalendarPage.tsx:477-490 | any grid laid out that way puts every date under its own weekday |
| CalendarPage.StepMonth | pages/CalendarPage.tsx:214-215 | a month step keeps the day, which carries into the next month when too large |
| CalendarPage.StepWeek | pages/CalendarPage.tsx:216-218 | a week step moves exactly seven days and keeps the weekday |
| CalendarPage.StepWeekInverse | pages/CalendarPage.tsx:212-221 | a week forward then back returns to the same date |
| CalendarPage.DayNumberInjective | pages/CalendarPage.tsx:247-251 | distinct valid dates have distinct day numbers |
| CalendarPage.DayNumberOrder | pages/CalendarPage.tsx:247-251 | day numbers follow the calendar order |
| CalendarPage.MonthWithinYear | pages/CalendarPage.tsx:480 | a month ends within its year |
| CalendarPage.Agenda.constructor | pages/CalendarPage.tsx:20-39 | the page opens on today's week with the restored filters and the stored view mode, grid by default |
| CalendarPage.Agenda.Load | pages/CalendarPage.tsx:111-210 | the fetch stores the merged, normalised and sorted tasks; the month view asks for the month on show and keeps the date; the week view asks for the range as written and leaves the date on show at that range's end, the two in-place `setDate` calls; view, filters and mode stay |
| CalendarPage.Agenda.FetchRange | pages/CalendarPage.tsx:115-126 | the month view asks for the first to the last day of the month on show and keeps the date; the week view moves the date on show to the Monday and then to day diff + 6 of the Monday's month, the range's last day, leaving everything else as it was |
| CalendarPage.Agenda.Shown | pages/CalendarPage.tsx:254-262 | the tasks on show are loaded tasks passing the filters, in the agenda order (not done first, then by due date); the list view shows every task that passes, the grid view the first eight or all when fewer |
| CalendarPage.Agenda.ToggleTask | pages/CalendarPage.tsx:271-287 | only the tasks with that id change, to the toggled status, and the update for the right table is sent |
| CalendarPage.Agenda.Navigate | pages/CalendarPage.tsx:212-221 | the month view steps a month, the week view a week, and nothing else changes |
| ClientDetailsPage.SectionFields | pages/ClientDetailsPage.tsx:740-756 | every section saves at least one deal column |
| ClientDetailsPage.SaveEdit | pages/ClientDetailsPage.tsx:740-756 | no section saves nothing; a section saves exactly its own columns, each with the form's value |
| ClientDetailsPage.SectionsDisjoint | pages/ClientDetailsPage.tsx:740-756 | two different sections never save the same column |
| ClientDetailsPage.EditPriority | pages/ClientDetailsPage.tsx:230 | a stored non-empty priority is kept; otherwise high for an urgent task and medium for any other |
| ClientDetailsPage.TaskDialog.constructor | pages/ClientDetailsPage.tsx:218-223 | the dialog starts blank, not urgent, of medium priority, due today and with no assignees |
| ClientDetailsPage.TaskDialog.Open | pages/ClientDetailsPage.tsx:225-243 | an edited task fills every field with its values or their defaults; a new task resets the form and falls due today |
| ClientDetailsPage.TaskDialog.ChoosePriority | pages/ClientDetailsPage.tsx:301-304 | the priority is set, urgency follows whether it is high, and no other field changes |
| ClientDetailsPage.TaskDialog.SetUrgent | pages/ClientDetailsPage.tsx:333-335 | the urgency is set, checking it forces high priority, unchecking keeps the priority, and nothing else changes |
| ClientDetailsPage.TaskDialog.ToggleAssignee | pages/ClientDetailsPage.tsx:348-356 | the chip adds the assignee when absent and removes it when present, and nothing else changes |
| ClientDetailsPage.TaskDialog.Save | pages/ClientDetailsPage.tsx:247-258 | the payload sent is the one the dialog's current fields determine |
| ClientDetailsPage.TaskSave | pages/ClientDetailsPage.tsx:247-258 | nothing is sent for a blank title; otherwise the task is urgent iff marked so or of high priority, has a due date iff one was chosen, its due instant is noon of the chosen day, its description the one typed, and its single assignee is the first chosen one when there is one |
| ClientDetailsPage.ToggleAssigneeTwice | pages/ClientDetailsPage.tsx:348-356 | two clicks on a chip not yet chosen restore the assignee list |
| ClientDetailsPage.ListedTasks | pages/ClientDetailsPage.tsx:1243-1247 | the listed tasks are exactly those the filter accepts, taken from the deal's tasks |
| ClientDetailsPage.ListedSplit | pages/ClientDetailsPage.tsx:1243-1247 | the pending and the done lists together count every task once, and 'all' lists every task in order |
| ClientDetailsPage.ToggleCompletedUpdate | pages/ClientDetailsPage.tsx:611-616 | the checkbox sends the opposite of the task's completion flag |
| ClientDetailsPage.FlipUrgency | pages/ClientDetailsPage.tsx:628 | only the clicked task changes: its urgency is negated and its priority becomes high or medium to match |
| ClientDetailsPage.FlipUrgencyTwice | pages/ClientDetailsPage.tsx:622-646 | two clicks restore a task whose priority already matched its urgency |
| ClientDetailsPage.StepOf | pages/ClientDetailsPage.tsx:1035-1036 | a stage is done exactly when it comes before the deal's stage and active exactly when it is the deal's stage |
| ClientDetailsPage.TrackerSteps | pages/ClientDetailsPage.tsx:1034-1045 | one mark per stage, done before the deal's stage and active on it |
| ClientDetailsPage.OneActiveStep | pages/ClientDetailsPage.tsx:1034-1045 | no two stages are active, and no stage is active or done when the deal is in none |
| ClientDetailsPage.BarWidth | pages/ClientDetailsPage.tsx:1026-1031 | the bar is drawn iff there are at least two stages; at stage index i within them its width is i / (n - 1) · 100, clamped to 0 for no stage and to 100 at or past the last |
| ClientDetailsPage.ClientPage.constructor | pages/ClientDetailsPage.tsx:385-409 | the page holds the loaded deal and tasks with no section open |
| ClientDetailsPage.ClientPage.OpenEdit | pages/ClientDetailsPage.tsx:735-738 | the section opens with the form holding a copy of the deal, and the deal and tasks are unchanged |
| ClientDetailsPage.ClientPage.SaveSection | pages/ClientDetailsPage.tsx:740-756 | the updates sent are those of the open section's form, and the page then holds the reloaded deal with no section open |
| ClientDetailsPage.ClientPage.ToggleUrgent | pages/ClientDetailsPage.tsx:622-646 | the update sent negates the task's urgency with the matching priority, and the task list is flipped task by task |
| ProjectDetailsPage.NextStatus | pages/ProjectDetailsPage.tsx:42 | a click marks a done task to-do and any other task done, the same rule as the agenda's |
| ProjectDetailsPage.ProjectView.constructor | pages/ProjectDetailsPage.tsx:26 | the page holds the project's loaded tasks |
| ProjectDetailsPage.ProjectView.ToggleTaskStatus | pages/ProjectDetailsPage.tsx:40-65 | only the tasks with that id take the new status, and the activity text names the task and the new state |
| ProjectDetailsPage.ListedTasks | pages/ProjectDetailsPage.tsx:263-267 | the listed tasks are exactly those the filter accepts, taken from the project's tasks |
| ProjectDetailsPage.ListedSplit | pages/ProjectDetailsPage.tsx:263-267 | the pending and the done lists together count every task once |
| ProjectDetailsPage.Progress | pages/ProjectDetailsPage.tsx:412-414 | with tasks the ring shows `Math.round(done / total * 100)`, so 0 to 100, 0 without done tasks and 100 when every task is done; without tasks 0 |
| ProjectDetailsPage.ToggleRaisesProgress | pages/ProjectDetailsPage.tsx:412-414 | marking a to-do task done never lowers the progress ring |
| ProjectDetailsPage.CountRaise | pages/ProjectDetailsPage.tsx:413 | replacing a task that is not done by one that is raises the done count by one |
| ProjectDetailsPage.PriorityLabel | pages/ProjectDetailsPage.tsx:301 | the three known priorities in Portuguese, any other shown as stored, and 'Normal' when missing or empty |
| ProjectDetailsPage.SplitHead | pages/ProjectDetailsPage.tsx:90 | splitting on the marker gives the text before its first occurrence, then the split of the rest; no occurrence, one piece |
| ProjectDetailsPage.StoragePath | pages/ProjectDetailsPage.tsx:89-94 | a URL path without the marker is an error; otherwise the storage path is the decoded text between the first marker and the next one or the end |
| ProjectDetailsPage.SecondPiece | pages/ProjectDetailsPage.tsx:90-91 | the second piece of a split is the text between the first separator and the next one or the end, and there is none without a separator |
| InternalProjectsPage.FilteredProjects | pages/InternalProjectsPage.tsx:69-75 | the shown projects are exactly the fetched ones whose title or description contains the search case-insensitively and that pass the category and the status choice |
| InternalProjectsPage.ShownTest | pages/InternalProjectsPage.tsx:69-75 | a project passes exactly when it matches the search, the category and the status |
| InternalProjectsPage.FilteredKeepsOrder | pages/InternalProjectsPage.tsx:69-75 | the filtered list keeps the fetch order |
| InternalProjectsPage.DefaultFiltersShowAll | pages/InternalProjectsPage.tsx:69-75 | with no search, 'Todos' and 'all' every project is shown, in order |
| InternalProjectsPage.SearchIgnoresCase | pages/InternalProjectsPage.tsx:70-71 | the search gives the same answer for a term and its lower-case form |
| InternalProjectsPage.Counts | pages/InternalProjectsPage.tsx:101-104 | the total is the number fetched; active counts every project 'in_progress' and delayed every 'delayed' one, whatever the filters, the two together never exceeding the total; the shown count is the filtered list's length |
| InternalProjectsPage.ActiveAndDelayedDisjoint | pages/InternalProjectsPage.tsx:78-104 | the active and the delayed counts together never exceed the total |
| InternalProjectsPage.ActiveFilterShowsActive | pages/InternalProjectsPage.tsx:73-78 | choosing 'in_progress' with no other filter shows exactly the active count |
| GoalsPage.Progress | pages/GoalsPage.tsx:136-140 | a zero target shows 0; otherwise `Math.round(current / target * 100)` with a missing value as 0, so a value from 0 to the target shows 0 to 100, the target itself 100, more at least 100 and a negative value at most 0 |
| GoalsPage.OverTarget | pages/GoalsPage.tsx:136-140 | reaching the target rounds to at least 100 percent and a negative value to at most 0 |
| GoalsPage.Divisor | pages/GoalsPage.tsx:82-101 | the statistics divide by the target, or by 1 when the target is 0, never by zero |
| GoalsPage.RankProgress | pages/GoalsPage.tsx:101 | the uncapped rounded progress a goal adds to its user's ranking, never negative for non-negative values |
| GoalsPage.NonNegativeShare | pages/GoalsPage.tsx:101 | the rounded percentage of a non-negative value over a positive divisor is never negative |
| GoalsPage.CappedProgress | pages/GoalsPage.tsx:82 | the progress the average adds up is the ranking progress capped at 100 |
| GoalsPage.EntryIndex | pages/GoalsPage.tsx:90-100 | the ranking map finds the first entry with the user's id, or none when no entry has it |
| GoalsPage.Tally | pages/GoalsPage.tsx:87-105 | the ranking map never has more entries than there are goals |
| GoalsPage.TallyWellFormed | pages/GoalsPage.tsx:87-105 | every entry is for a real user with at least one goal, and no user has two entries |
| GoalsPage.TallyEmpty | pages/GoalsPage.tsx:89 | the ranking is empty exactly when no goal has a user |
| GoalsPage.FilterSnoc | pages/GoalsPage.tsx:88-105 | filtering a list with one more goal keeps the earlier result and adds the goal when it passes |
| GoalsPage.EntryIndexSameIds | pages/GoalsPage.tsx:100-104 | updating an entry's counters does not move any user in the map |
| GoalsPage.EntryIndexAppend | pages/GoalsPage.tsx:90-99 | appending an entry keeps every present user at their place and finds the new entry only for its own, absent id |
| GoalsPage.AddToTallyOwn | pages/GoalsPage.tsx:90-104 | after a user's goal, the user has an entry holding the goal's progress and completion added to the old one |
| GoalsPage.AddToTallyOther | pages/GoalsPage.tsx:90-104 | another user's goal leaves this user's entry and its place as they were |
| GoalsPage.TallySnoc | pages/GoalsPage.tsx:88-105 | one more goal changes the map only when it has a user, by adding it to that user |
| GoalsPage.TotalsSnoc | pages/GoalsPage.tsx:101-104 | one more goal of a user adds one goal, its progress, and one completion when it reaches 100, to that user's totals |
| GoalsPage.TallyMeaning | pages/GoalsPage.tsx:87-105 | a user has an entry iff some goal is theirs; the entry counts their goals, adds up their uncapped progress, counts those reaching 100, and carries the assignee name of their first goal, 'Sem Nome' when that name is missing or empty |
| GoalsPage.MeaningOwn | pages/GoalsPage.tsx:90-104 | a user's own goal keeps their entry correct |
| GoalsPage.AddedRight | pages/GoalsPage.tsx:90-104 | the entry updated by a user's goal holds that user's totals over the longer list |
| GoalsPage.FirstOwn | pages/GoalsPage.tsx:90-99 | with no entry yet, the user has no goals, no completions and no progress so far |
| GoalsPage.MeaningOther | pages/GoalsPage.tsx:88-105 | another user's goal keeps this user's entry correct |
| GoalsPage.TallyGoals | pages/GoalsPage.tsx:87-105 | the loop over the goals builds exactly the ranking map |
| GoalsPage.AddGoal | pages/GoalsPage.tsx:90-104 | one pass of the loop body is one step of the ranking map: the user's entry is created if missing, then counts the goal |
| GoalsPage.Rankings | pages/GoalsPage.tsx:107-110 | every tallied user appears once with their average |
| GoalsPage.Average | pages/GoalsPage.tsx:109 | a user with no goals averages 0; otherwise the average is the total progress over the goal count rounded half up, and lies in 0..100 when the total is between 0 and 100 per goal |
| GoalsPage.Rank | pages/GoalsPage.tsx:107-110 | a ranking row keeps the user's totals and adds their average |
| GoalsPage.RankingsDescending | pages/GoalsPage.tsx:110 | the ranking is ordered by average, highest first |
| GoalsPage.CappedTotal | pages/GoalsPage.tsx:81-84 | the sum of capped progress is at most 100 per goal and not negative for non-negative values |
| GoalsPage.StatsOf | pages/GoalsPage.tsx:73-121 | the headline counts every goal and those whose value reaches the target, totals the targets and the current values, averages the progress capped at 100 and rounds it, and the top performer is the first ranked user or none |
| GoalsPage.AverageProgressBounds | pages/GoalsPage.tsx:81-119 | with non-negative values the average progress stays between 0 and 100 |
| GoalsPage.TopPerformerIsBest | pages/GoalsPage.tsx:110-120 | there is no top performer exactly when no goal has a user, and otherwise none ranks above them |
| GoalsPage.RoundedCompletionDiffers | pages/GoalsPage.tsx:73-104 | 199 of 200 counts as completed in the user's ranking but not in the headline |
| GoalsPage.GoalsView.constructor | pages/GoalsPage.tsx:19-35 | the page starts with no goals, zero statistics, no ranking and no user |
| GoalsPage.GoalsView.CalculateStats | pages/GoalsPage.tsx:66-122 | an empty list resets the statistics and keeps the ranking; otherwise the ranking and the statistics are those of the goals |
| GoalsPage.GoalsView.Load | pages/GoalsPage.tsx:43-64 | the fetch records the user and the goals, then computes the statistics as above |
| GoalsPage.ListedGoals | pages/GoalsPage.tsx:269-273 | 'mine' lists exactly the user's goals, 'general' exactly the goals without a user, anything else every goal |
| GoalsPage.MineAndGeneralDisjoint | pages/GoalsPage.tsx:269-273 | for a signed-in user, 'mine' and 'general' never list the same goal |
| GoalsPage.Badge | pages/GoalsPage.tsx:432-436 | 100 and above is 'Excelente', 75 to 99 'Bom', 50 to 74 'Normal', below 50 'Atenção' |
| GoalsPage.BadgeMonotone | pages/GoalsPage.tsx:432-436 | a higher average never shows a worse badge |
| GoalsPage.BadgeRank | pages/GoalsPage.tsx:432-436 | the badges are ranked from 'Atenção' to 'Excelente' |
| UpdateGoalProgressModal.FieldValue | components/UpdateGoalProgressModal.tsx:30-46 | the field's number is the parsed integer, and 0 when the text holds none |
| UpdateGoalProgressModal.ShownValue | components/UpdateGoalProgressModal.tsx:15-19 | the text shown on opening reads back as the stored value, or 0 when there is none |
| UpdateGoalProgressModal.Incremented | components/UpdateGoalProgressModal.tsx:45-48 | the +1 button makes the field read one more |
| UpdateGoalProgressModal.Decremented | components/UpdateGoalProgressModal.tsx:50-53 | the -1 button lowers a positive value by one and leaves any other text as it is |
| UpdateGoalProgressModal.ButtonsKeepNonNegative | components/UpdateGoalProgressModal.tsx:45-53 | neither button takes a non-negative value below zero |
| UpdateGoalProgressModal.IncrementThenDecrement | components/UpdateGoalProgressModal.tsx:45-53 | +1 then -1 gives back the value, except that a value below zero ends one higher |
| UpdateGoalProgressModal.Submitted | components/UpdateGoalProgressModal.tsx:21-31 | without a goal nothing is written; otherwise the field's number |
| UpdateGoalProgressModal.ProgressEditor.constructor | components/UpdateGoalProgressModal.tsx:13 | the field starts empty |
| UpdateGoalProgressModal.ProgressEditor.Open | components/UpdateGoalProgressModal.tsx:15-19 | the field shows the stored value and reads back as it, or 0 |
| UpdateGoalProgressModal.ProgressEditor.Increment | components/UpdateGoalProgressModal.tsx:45-48 | the field reads one more than before |
| UpdateGoalProgressModal.ProgressEditor.Decrement | components/UpdateGoalProgressModal.tsx:50-53 | a positive value goes down by one and any other text is kept |
| UpdateGoalProgressModal.ProgressEditor.Type | components/UpdateGoalProgressModal.tsx:88 | the field holds what was typed |
| UpdateGoalProgressModal.ProgressEditor.Submit | components/UpdateGoalProgressModal.tsx:21-31 | the value written is the one the field determines |
| AddGoalModal.NewGoalRow | components/AddGoalModal.tsx:48-66 | no row without a user or a target; otherwise a row starting at 0 for the chosen period, a team goal for 'general' and the user's goal otherwise, of the custom or the preset type, with the parsed target |
| AddGoalModal.TargetRoundTrip | components/AddGoalModal.tsx:63 | a typed whole number is stored as that number |
| AddGoalModal.GoalForm.constructor | components/AddGoalModal.tsx:15-20 | the form starts with no user, the default type and period, no custom type and no target |
| AddGoalModal.GoalForm.Open | components/AddGoalModal.tsx:22-33 | opening resets every field to its default |
| AddGoalModal.GoalForm.ChooseType | components/AddGoalModal.tsx:114-120 | 'custom' switches to free text and keeps the preset; anything else becomes the preset; no other field changes |
| AddGoalModal.GoalForm.CancelCustom | components/AddGoalModal.tsx:141 | the free-text mode ends with the preset kept, and no other field changes |
| AddGoalModal.GoalForm.Submit | components/AddGoalModal.tsx:48-66 | the row inserted is the one the form's fields determine |
| AddGoalModal.ResetFormRefused | components/AddGoalModal.tsx:22-53 | a freshly opened dialog refuses to submit |
| FinancialPage.CanView | pages/FinancialPage.tsx:21-27 | the page renders exactly for a role that lower-cases to 'manager' |
| FinancialPage.Commission | pages/FinancialPage.tsx:115-158 | a missing commission and a commission of 0 both read as 20; any other is kept |
| FinancialPage.FindRetainer | pages/FinancialPage.tsx:109-112 | a retainer found is a fetched one with the payment's retainer id and no later retainer has that id, as the `Map` keeps the last; none is found only when no retainer has that id |
| FinancialPage.ComputeMetrics | pages/FinancialPage.tsx:104-127 | total and realised revenue are the office's part of paid recoveries plus its share of paid retainer payments; profit is that minus every expense; pending revenue sums restitution recoveries and the analysis count counts analysis ones |
| FinancialPage.RealizedRevenue | pages/FinancialPage.tsx:104-120 | with no negative amount or commission the realised revenue is never negative |
| FinancialPage.RevenueTermsNonNegative | pages/FinancialPage.tsx:105-118 | with no negative amount or commission both the recoveries' part and the retainers' share are non-negative |
| FinancialPage.UnknownRetainerAddsNothing | pages/FinancialPage.tsx:111-118 | a payment whose retainer is unknown adds nothing to the revenue |
| FinancialPage.UnpaidRecoveryAddsNothing | pages/FinancialPage.tsx:104-105 | a recovery that is not paid adds nothing to the realised revenue |
| FinancialPage.PaidRecoveryAdds | pages/FinancialPage.tsx:104-120 | a paid recovery adds exactly the office's part of it |
| FinancialPage.PaidPaymentAdds | pages/FinancialPage.tsx:107-118 | a paid payment of a known retainer adds its amount (0 when missing) times the retainer's commission over 100 |
| FinancialPage.UnpaidPaymentAddsNothing | pages/FinancialPage.tsx:107 | a payment that is not paid adds nothing to the realised revenue |
| FinancialPage.ExpenseLowersProfit | pages/FinancialPage.tsx:121-122 | every expense lowers the net profit by exactly its amount |
| FinancialPage.LastSixMonths | pages/FinancialPage.tsx:133-137 | six month indices, each a month of the year, consecutive modulo 12 and ending with the current month |
| FinancialPage.ChartWindow | pages/FinancialPage.tsx:133-140 | with its year, the chart covers the six consecutive months ending with the current one |
| FinancialPage.Point | pages/FinancialPage.tsx:139-170 | a bar is labelled with its month's name; its revenue is the paid recoveries' share of that month plus the retainer payments' shares dated then, and its expense sums the expenses dated in that month of that year |
| FinancialPage.Chart | pages/FinancialPage.tsx:139-170 | six bars, the k-th being the bar of the k-th of the last six months in its own year, the last one for the current month |
| FinancialPage.RecoveryInIsPaid | pages/FinancialPage.tsx:143-146 | a bar's recovery revenue counts only paid recoveries |
| FinancialPage.FilterTwice | pages/FinancialPage.tsx:143-153 | filtering first by a weaker test and then by a stronger one is filtering by the stronger one |
| FinancialPage.InProgress | pages/FinancialPage.tsx:124-125 | the in-progress list holds every restitution recovery and every analysis recovery, as many entries as there are of the two, and never a paid one |
| FinancialPage.InProgressOrder | pages/FinancialPage.tsx:182 | every restitution recovery of the list comes before every analysis one, and each group is in the order fetched |
| FinancialPage.ActiveRetainers | pages/FinancialPage.tsx:183-184 | exactly the retainers whose active flag is set |
| FinancialPage.RecentExpenses | pages/FinancialPage.tsx:185 | the first ten expenses, or all of them when there are fewer |
| FinancialPage.MonthPayments | pages/FinancialPage.tsx:91-95 | exactly the fetched payments due in the current month and year |
| FinancialPage.FindPayment | pages/FinancialPage.tsx:197 | the first payment of the retainer: a found payment is the retainer's and no earlier payment is; none when no payment is its |
| FinancialPage.PaymentDayOf | pages/FinancialPage.tsx:208 | the retainer's start day, or the 10th, always a day of a month |
| FinancialPage.DueDateAsWritten | pages/FinancialPage.tsx:209 | the date `new Date(year, month, day)` gives: its day number is that of the day-th day counted from the first of the current month, which may be in the next month |
| FinancialPage.DueDateAsWrittenLeavesMonth | pages/FinancialPage.tsx:208-209 | a retainer started on the 30th, marked paid in February 2025, falls due on 2 March, outside the month |
| FinancialPage.DueDate | pages/FinancialPage.tsx:208-209 | the due date is a valid day of the current month: the written date whenever that day exists in the month, and the month's last day when the start day is past it |
| FinancialPage.FilterMapPreserved | pages/FinancialPage.tsx:200-205 | updating payments without changing what the month filter looks at commutes with that filter |
| FinancialPage.FindPaymentMap | pages/FinancialPage.tsx:197-205 | an update that keeps retainer ids finds the updated form of the same payment |
| FinancialPage.FindPaymentAppend | pages/FinancialPage.tsx:197-217 | a retainer without a payment finds the one appended for it |
| FinancialPage.MarkedIsPaid | pages/FinancialPage.tsx:195-219 | after marking a retainer as paid, its row shows as paid for the current month; the payment is dated by the corrected due date clamped to the month (see Findings), not the unclamped one the handler builds |
| FinancialPage.MarkedExisting | pages/FinancialPage.tsx:200-205 | updating the month's existing payment makes it show as paid |
| FinancialPage.MarkedInserted | pages/FinancialPage.tsx:207-217 | an inserted paid payment due in the month makes the row show as paid |
| FinancialPage.MarkPaid | pages/FinancialPage.tsx:201-205 | the payment of that id becomes paid today, keeping its id, retainer, due date and amount; every other payment is left as it is |
| FinancialPage.MarkedPayments | pages/FinancialPage.tsx:195-219 | exactly when the month has no payment of the retainer one is added, paid today for its monthly fee and due in this month (by the corrected due date, see Findings); nothing is removed, and every existing payment keeps its id, retainer, due date and amount |
| FinancialPage.FinanceStore.constructor | pages/FinancialPage.tsx:70-88 | the store holds the fetched retainers and payments |
| FinancialPage.FinanceStore.MarkAsPaid | pages/FinancialPage.tsx:195-219 | the payments become those of the mark-as-paid rule, with the corrected due date clamped to the month (see Findings) rather than the unclamped one the handler builds, and the retainers are untouched |
| FinancialPage.FinanceStore.DeleteRetainer | pages/FinancialPage.tsx:243-257 | without confirmation nothing changes; with it only that retainer is deactivated, none removed, and the payments stay |
| FinancialPage.DeactivatedLeavesList | pages/FinancialPage.tsx:249 | a removed retainer leaves the active list |
| AddRecoveryModal.Parsed | components/AddRecoveryModal.tsx:26-39 | a field reads as the number it parses to, and 0 when it parses to none |
| AddRecoveryModal.Split | components/AddRecoveryModal.tsx:28-46 | the fees are the total times the fee percentage over 100, the partner takes its percentage of the fees, the remainder is the fees less the partner's part, and the office takes its percentage of the remainder and the other office the rest; so the three shares add up to the fees |
| AddRecoveryModal.SplitBounds | components/AddRecoveryModal.tsx:28-46 | with percentages from 0 to 100 and a non-negative total, no share is negative and none exceeds what it is taken from |
| AddRecoveryModal.ScaleBetween | components/AddRecoveryModal.tsx:28-46 | taking a fraction between 0 and 1 of a non-negative amount gives between nothing and the amount |
| AddRecoveryModal.Row | components/AddRecoveryModal.tsx:52-62 | the stored row keeps the client, status, total and both percentages, stores the partner's, the office's and the other office's shares of the split, and an empty payment date as null |
| AddRecoveryModal.RowConserves | components/AddRecoveryModal.tsx:52-62 | the three stored amounts add up to the fees on the total, although the fee percentage is not stored |
| AddRecoveryModal.UnreadableTotal | components/AddRecoveryModal.tsx:26-62 | an empty total reads as 0 and the row then records no money at all |
| AddRecoveryModal.RecoveryForm.constructor | components/AddRecoveryModal.tsx:17-23 | the form starts blank in analysis, with fees 30, partner 50 and office 40 |
| AddRecoveryModal.RecoveryForm.ResetForm | components/AddRecoveryModal.tsx:76-83 | the reset restores analysis, partner 50 and office 40 and clears the rest, but keeps the fee percentage |
| AddRecoveryModal.RecoveryForm.Submit | components/AddRecoveryModal.tsx:48-74 | the row sent is the one the form's parsed fields determine, and the form is then reset |
| AddRetainerModal.OurShare | components/AddRetainerModal.tsx:33-35 | the share is the fee times the commission over 100; a commission from 0 to 100 leaves between nothing and the whole fee, all of it at 100 and none at 0 |
| AddRetainerModal.DefaultCommission | components/AddRetainerModal.tsx:17 | a blank form's commission reads back as 20 |
| AddRetainerModal.CommissionField | components/AddRetainerModal.tsx:25 | the commission field reads back as the stored commission, or 20 when there is none |
| AddRetainerModal.Write | components/AddRetainerModal.tsx:37-67 | a retainer with an id is updated and any other inserted as active; the fee and commission are the parsed fields or 0 and the share is their product |
| AddRetainerModal.RetainerForm.constructor | components/AddRetainerModal.tsx:15-18 | the form starts blank with commission 20 |
| AddRetainerModal.RetainerForm.ResetForm | components/AddRetainerModal.tsx:80-85 | the form is blank with commission 20 |
| AddRetainerModal.RetainerForm.Prefill | components/AddRetainerModal.tsx:22-26 | the fields show the retainer's name, fee, commission (20 when missing) and start date |
| AddRetainerModal.RetainerForm.Open | components/AddRetainerModal.tsx:20-30 | opening on a retainer prefills its fields; opening for a new one resets the form |
| AddRetainerModal.RetainerForm.Submit | components/AddRetainerModal.tsx:37-78 | the write sent is the one the form and the edited retainer determine, and the form is then reset |
| AddRetainerModal.EditUnchanged | components/AddRetainerModal.tsx:20-67 | saving a retainer unchanged writes back its fee (0 when missing) and its commission (20 when missing) |
| NewDealModal.BlankForm | components/NewDealModal.tsx:56-68 | the reset empties both amounts and the partnership name and closes the partnership box |
| NewDealModal.Prefill | components/NewDealModal.tsx:39-49 | the prefill copies the client name, CNPJ, contact, phone, e-mail, partnership tag and assignee, `''` for a missing one; shows the value and recovered value as text, `''` when missing; and leaves the partnership box and its typed name as they were |
| NewDealModal.Payload | components/NewDealModal.tsx:95-113 | title and client are the company name, the tag the partnership, CNPJ, contact, phone and e-mail the form's, the amounts the parsed fields or 0, an empty assignee null; a new deal is active with no id or column, an edited one keeps its id and column and its status, or 'active' when that is missing or empty |
| NewDealModal.SubmitPrefilled | components/NewDealModal.tsx:95-113 | opening on a deal and submitting unchanged sends back its identity, column, client, CNPJ, contact, phone, e-mail, tag, amounts (0 when missing) and assignee (null for an empty one) |
| NewDealModal.SubmitBlank | components/NewDealModal.tsx:95-113 | a fresh dialog submits an active, unassigned deal of value 0 with no id, no column and no title |
| NewDealModal.DealDialog.constructor | components/NewDealModal.tsx:21-33 | the form starts blank |
| NewDealModal.DealDialog.Open | components/NewDealModal.tsx:35-54 | opening prefills from the deal when there is one and resets the form otherwise |
| NewDealModal.DealDialog.CreatePartnership | components/NewDealModal.tsx:80-93 | a blank name sends nothing and changes nothing; otherwise the typed name is sent, and once accepted it becomes the selected partnership and the box closes empty |
| NewDealModal.DealDialog.Submit | components/NewDealModal.tsx:95-113 | the payload is the one the form and the initial deal determine |
| AddProjectModal.BlankForm | components/AddProjectModal.tsx:15-47 | a new project starts in 'Tecnologia', planning, with every text empty and no members |
| AddProjectModal.PrefillId | components/AddProjectModal.tsx:36 | a member is shown under its profile's id, or its user id when it has no profile id |
| AddProjectModal.Prefill | components/AddProjectModal.tsx:28-37 | an edited project fills the form with its title and category, its description and dates or empty texts, its status or planning, and one id per member |
| AddProjectModal.PayloadOf | components/AddProjectModal.tsx:65-77 | the payload carries the form's fields with empty dates as null; a new project also records its creator and progress 0, an edit neither |
| AddProjectModal.MemberRowOf | components/AddProjectModal.tsx:105-109 | every selected id becomes a 'member' row of the project |
| AddProjectModal.MemberRows | components/AddProjectModal.tsx:104-111 | one 'member' row per selected id, in order |
| AddProjectModal.InProject | components/AddProjectModal.tsx:101 | the rows the delete by project id matches |
| AddProjectModal.OutsideProject | components/AddProjectModal.tsx:101 | the rows the delete by project id leaves |
| AddProjectModal.MembersReplaced | components/AddProjectModal.tsx:97-112 | after a save the project's member rows are exactly the selected ids, and every other project keeps its rows |
| AddProjectModal.SaveUnchanged | components/AddProjectModal.tsx:57-112 | saving an edited project unchanged writes back its title, category and dates (empty as null) and sets its team to the ids its members were shown under |
| AddProjectModal.ProjectDialog.constructor | components/AddProjectModal.tsx:15-23 | the dialog starts with the blank form |
| AddProjectModal.ProjectDialog.Open | components/AddProjectModal.tsx:25-50 | opening prefills from the edited project, or resets to the blank form |
| AddProjectModal.ProjectDialog.ToggleMember | components/AddProjectModal.tsx:219-229 | a click selects a member that was not selected and removes one that was, and nothing else changes |
| AddProjectModal.ProjectDialog.Submit | components/AddProjectModal.tsx:57-122 | without a user nothing is saved; otherwise the payload of the form, the edited or the new project's id, and the member table with the project's rows replaced |
| Text.OrDefault | components/AddProjectTaskModal.tsx:35-37 | a present non-empty text is kept; a missing or empty one gives the default |
| AddProjectTaskModal.InitialForm | components/AddProjectTaskModal.tsx:25-52 | an edited task fills the form with its title, assignee or an empty text, its project or the page's, its priority or medium, and its due date cut to the day, or none when it has none; a new task starts blank, assigned to the signed-in user, on the page's project, of medium priority |
| AddProjectTaskModal.TargetProject | components/AddProjectTaskModal.tsx:69 | the form's project, else the page's, and no project only when both are empty |
| AddProjectTaskModal.PayloadOf | components/AddProjectTaskModal.tsx:69-102 | the payload goes to the target project with the form's title and priority and empty texts as null; a new task is sent as 'todo' and an edit sends no status |
| AddProjectTaskModal.LogEntry | components/AddProjectTaskModal.tsx:90-117 | a history entry is logged iff there is a user and, for an edit, a page project or, for a new task, a target project; it is an UPDATE on the page's project or a CREATE on the target project |
| AddProjectTaskModal.EditUnchanged | components/AddProjectTaskModal.tsx:69-88 | saving an edited task unchanged writes back its title, assignee and priority (medium when missing), keeps its project and sends no status |
| AddProjectTaskModal.NewTaskOnPage | components/AddProjectTaskModal.tsx:69-105 | a new task opened on a project page goes to that project as 'todo', of medium priority, without a due date, assigned to the signed-in user |
| AddProjectTaskModal.TaskDialog.constructor | components/AddProjectTaskModal.tsx:17-23 | the form starts blank with medium priority |
| AddProjectTaskModal.TaskDialog.Open | components/AddProjectTaskModal.tsx:25-52 | the form becomes the initial form of the edited or new task |
| AddProjectTaskModal.TaskDialog.Submit | components/AddProjectTaskModal.tsx:65-118 | the payload and the history entry are those the form, the page and the user determine |
| AddProjectMemberModal.MemberKey | components/AddProjectMemberModal.tsx:76 | a member counts under its user id, or its profile's id when the user id is empty |
| AddProjectMemberModal.NotMember | components/AddProjectMemberModal.tsx:77 | a user passes exactly when no current member counts under its id |
| AddProjectMemberModal.AvailableUsers | components/AddProjectMemberModal.tsx:75-77 | the users offered are exactly the fetched users no current member counts under |
| AddProjectMemberModal.AvailableKeepsOrder | components/AddProjectMemberModal.tsx:77 | the offered users keep the fetch order |
| AddProjectMemberModal.NoMembersOffersAll | components/AddProjectMemberModal.tsx:75-77 | a project without members is offered every user |
| AddProjectMemberModal.IsSelected | components/AddProjectMemberModal.tsx:54 | a user passes exactly when its id is selected |
| AddProjectMemberModal.MemberPicker.constructor | components/AddProjectMemberModal.tsx:15 | nothing is selected |
| AddProjectMemberModal.MemberPicker.Open | components/AddProjectMemberModal.tsx:17-22 | opening clears the selection |
| AddProjectMemberModal.MemberPicker.ToggleUser | components/AddProjectMemberModal.tsx:29-35 | a selected id is removed and another appended, and every other selection is unchanged |
| AddProjectMemberModal.MemberPicker.Submit | components/AddProjectMemberModal.tsx:37-71 | an empty selection writes nothing; otherwise one 'member' row per selected id and, with a user, an ADD_MEMBER entry naming the selected users |
| AddProjectMemberModal.RowsAreSelected | components/AddProjectMemberModal.tsx:42-46 | the rows written are exactly the 'member' rows of the project for the selected ids |
| AddProjectDocumentModal.CodeUnits | components/AddProjectDocumentModal.tsx:25 | a character takes one UTF-16 code unit, or two outside the Basic Multilingual Plane |
| AddProjectDocumentModal.Utf16Length | components/AddProjectDocumentModal.tsx:21-26 | the JavaScript length of a text is at least its number of characters |
| AddProjectDocumentModal.Utf16LengthAppend | components/AddProjectDocumentModal.tsx:21-26 | the JavaScript length of two texts joined is the sum of their lengths |
| AddProjectDocumentModal.StripMarks | components/AddProjectDocumentModal.tsx:24 | no combining mark is left, and the text never grows |
| AddProjectDocumentModal.StripMarksOrder | components/AddProjectDocumentModal.tsx:24 | every other character is kept, as often as it occurs and in its order |
| AddProjectDocumentModal.Replacement | components/AddProjectDocumentModal.tsx:25 | an allowed character is kept, and a disallowed one becomes one '_' per code unit |
| AddProjectDocumentModal.ReplaceDisallowedMeaning | components/AddProjectDocumentModal.tsx:25 | the replacement leaves only allowed characters and keeps the JavaScript length of the text |
| AddProjectDocumentModal.ReplaceDisallowedKeeps | components/AddProjectDocumentModal.tsx:25 | a text of allowed characters is left as it is |
| AddProjectDocumentModal.StripMarksKeeps | components/AddProjectDocumentModal.tsx:24 | a text of allowed characters has no mark to strip |
| AddProjectDocumentModal.Sanitize | components/AddProjectDocumentModal.tsx:21-26 | the sanitised name has only allowed characters and the JavaScript length of the normalised, unmarked name |
| AddProjectDocumentModal.SanitizeIdempotent | components/AddProjectDocumentModal.tsx:21-26 | sanitising twice is sanitising once, given that NFD leaves plain ASCII text alone |
| AddProjectDocumentModal.AccentDropped | components/AddProjectDocumentModal.tsx:21-26 | with NFD splitting 'é' into 'e' and its mark, the name 'é.pdf' becomes 'e.pdf' |
| AddProjectDocumentModal.ReplacementWidth | components/AddProjectDocumentModal.tsx:25 | a space becomes one '_', and a character outside the Basic Multilingual Plane two |
| AddProjectDocumentModal.ObjectName | components/AddProjectDocumentModal.tsx:34 | the object name starts with the project's folder, has only allowed characters after it, and ends with the sanitised file name |
| AddProjectDocumentModal.AllowedAppend | components/AddProjectDocumentModal.tsx:34 | joining texts of allowed characters gives a text of allowed characters |
| AddProjectDocumentModal.DocumentDialog.constructor | components/AddProjectDocumentModal.tsx:13 | no file is chosen |
| AddProjectDocumentModal.DocumentDialog.ChooseFile | components/AddProjectDocumentModal.tsx:15-19 | the first chosen file, and an empty choice keeps the previous one |
| AddProjectDocumentModal.DocumentDialog.Submit | components/AddProjectDocumentModal.tsx:28-75 | without a file nothing happens; otherwise the file goes to its object name, its row keeps the original name and points at that name's public URL, a signed-in user gets an UPLOAD entry, and the file is cleared |
| Toast.OtherThan | components/ui/Toast.tsx:40 | a toast passes exactly when its id differs |
| Toast.RemovedMeaning | components/ui/Toast.tsx:39-41 | removing an id deletes every toast with that id and keeps the others in their order |
| Toast.RemoveAbsent | components/ui/Toast.tsx:39-41 | removing an id that is not there changes nothing |
| Toast.AddThenRemove | components/ui/Toast.tsx:30-41 | the timed removal of a toast with a fresh id undoes exactly its own addition |
| Toast.ToastProvider.constructor | components/ui/Toast.tsx:28 | the queue starts empty |
| Toast.ToastProvider.AddToast | components/ui/Toast.tsx:30-37 | one toast is appended with the message and the type, info by default |
| Toast.ToastProvider.RemoveToast | components/ui/Toast.tsx:39-41 | the queue keeps the toasts with another id |
| Toast.ToastProvider.Succeed | components/ui/Toast.tsx:43 | one success toast is appended |
| Toast.ToastProvider.Fail | components/ui/Toast.tsx:44 | one error toast is appended |
| App.Render | App.tsx:39-79 | the skeleton exactly while loading, the login page without a user, a project page only for a given project id, and the client page for the selected deal |
| App.UnknownViewShowsPipeline | App.tsx:76-77 | a view the switch does not know shows the pipeline |
| App.ProjectViewFallsBack | App.tsx:66-67 | the project view without a project shows the projects list |
| App.AppContent.constructor | App.tsx:19-21 | the app starts on the login view with no deal and no project selected |
| App.AppContent.Navigate | App.tsx:32-36 | the view is always set; the deal id is stored only for the client view and the project id only for the project view, each when an id is given |
| App.AppContent.FollowUser | App.tsx:24-30 | signing out returns to login, signing in on the login view moves to the pipeline, and otherwise the view is kept |
| App.SignedInNeverSeesLogin | App.tsx:52-79 | a signed-in user sees the login page only on the login view |
| App.NavigatedPageShown | App.tsx:32-69 | after navigating with an id the project or client page for that id is shown |
| SettingsPage.DeleteNeedsAdministration | pages/SettingsPage.tsx:141-157 | whoever may delete a row may change its role; nobody may delete their own row; on any other row deleting is allowed exactly when administering is |
| SettingsPage.OtherThan | pages/SettingsPage.tsx:57 | a user passes exactly when its id differs |
| SettingsPage.SetRole | pages/SettingsPage.tsx:75 | only the user with the id takes the new role |
| SettingsPage.UserAdmin.constructor | pages/SettingsPage.tsx:24-37 | the page lists the fetched users |
| SettingsPage.UserAdmin.DeleteUser | pages/SettingsPage.tsx:39-63 | deleting oneself is refused and an unconfirmed delete cancelled, both leaving the list; a confirmed delete drops the users with that id |
| SettingsPage.UserAdmin.UpdateRole | pages/SettingsPage.tsx:65-81 | the list becomes the old one with that user's role replaced |
| SettingsPage.DeletedMeaning | pages/SettingsPage.tsx:57 | after a delete the list holds exactly the other users, in their order |
| SettingsPage.RoleUpdateMeaning | pages/SettingsPage.tsx:75 | a role change keeps the list's length, order, ids, names and e-mails, and changes only the matching user's role |
| ProfilePage.SavedAvatar | pages/ProfilePage.tsx:54-73 | a chosen file's upload URL is saved; otherwise a removed avatar is saved as none and a kept one unchanged |
| ProfilePage.AuthRequest | pages/ProfilePage.tsx:76-84 | the account is updated exactly when the e-mail changed or a password was typed, sending the new e-mail only if it changed and the password only if one was typed |
| ProfilePage.ProfileEditor.constructor | pages/ProfilePage.tsx:15-23 | the editor starts with empty fields, no file, no preview, no removal and no message |
| ProfilePage.ProfileEditor.Load | pages/ProfilePage.tsx:25-31 | a loaded profile fills in its name, its e-mail or else the account's, and its avatar as preview |
| ProfilePage.ProfileEditor.ChooseAvatar | pages/ProfilePage.tsx:33-40 | choosing files keeps the first, previews it and undoes a removal; an empty choice changes nothing |
| ProfilePage.ProfileEditor.RemoveAvatar | pages/ProfilePage.tsx:42-46 | removing clears file and preview and marks the avatar removed |
| ProfilePage.ProfileEditor.UpdateProfile | pages/ProfilePage.tsx:48-112 | a chosen file is uploaded; a typed password that differs from its confirmation fails before the account and the profile are touched and keeps the fields; otherwise the account request and the profile row are sent, success is shown and both password fields are cleared |
| ProfilePage.LastAvatarActionWins | pages/ProfilePage.tsx:33-73 | whichever of choosing and removing came last decides the saved avatar |
| Sidebar.NavItems | components/Sidebar.tsx:54-60 | the menu has six entries |
| Sidebar.ShownItems | components/Sidebar.tsx:61 | the entries shown keep the listed order and are among the six |
| Sidebar.Visible | components/Sidebar.tsx:61 | an entry is shown exactly when it needs no permission or the signed-in role, lower-cased, is 'manager' |
| Sidebar.ShownByRights | components/Sidebar.tsx:54-61 | entries without a permission are always shown; financial and settings are shown together, exactly when the role has manager rights |
| Sidebar.ShownViews | components/Sidebar.tsx:54-61 | a manager in any letter case sees all six pages in order; anyone else, or nobody signed in, sees pipeline, goals, calendar and projects |
| Sidebar.SidebarState.constructor | components/Sidebar.tsx:17-21 | the sidebar starts collapsed exactly when the stored value is the text 'true' |
| Sidebar.SidebarState.ToggleCollapse | components/Sidebar.tsx:23-27 | the state flips and its new value is stored as 'true' or 'false' |
| Sidebar.StoredRoundTrip | components/Sidebar.tsx:17-27 | what a toggle stores is read back on the next load as the state it set |
| ProjectCard.StatusLabel | components/ProjectCard.tsx:33-43 | an unknown status is shown as itself; a known one gets a label that is not itself a status name |
| ProjectCard.LabelsDistinct | components/ProjectCard.tsx:33-43 | two different known statuses never share a label |
| ProjectCard.StatusColor | components/ProjectCard.tsx:22-31 | the neutral style is used exactly for the statuses outside planning, in progress, completed, on hold and delayed |
| ProjectCard.NotStartedUnstyled | components/ProjectCard.tsx:22-43 | 'not_started' is labelled but drawn like an unknown status |
| ProjectCard.StyledAreLabelled | components/ProjectCard.tsx:22-43 | every status with a style of its own also has a label |
| ProjectCard.StatusIcon | components/ProjectCard.tsx:117 | delayed, in progress and completed get their own icons, every other status the default one |
| ProjectCard.CategoryColor | components/ProjectCard.tsx:45-54 | the five known categories get their own colours and every other category slate |
| ProjectCard.ComputedColor | components/ProjectCard.tsx:56 | a colour passed in wins unless it is blue; blue or no colour falls back to the category's |
| ProjectCard.BlueMeansDerived | components/ProjectCard.tsx:56 | passing blue is the same as passing nothing, and the card is blue only for the Comercial category |
| ProjectCard.AvatarCount | components/ProjectCard.tsx:98-108 | every member gets an avatar, and with no members one placeholder is drawn |
| ProjectCard.OverflowBadge | components/ProjectCard.tsx:109-113 | the badge appears exactly with more than four members and counts those beyond the fourth |
| ProjectCard.BadgeDoesNotHide | components/ProjectCard.tsx:98-113 | with more than four members all avatars are still drawn, so the badge counts the ones beyond the fourth a second time |
| Text.LowerIdempotent | utils/roles.ts:25 | lowercasing a role that is already lowercase leaves it unchanged |
| Text.TrimEmptyIffBlank | components/NewDealModal.tsx:81 | a trimmed name is empty exactly when the name is blank |
| Text.ContainsIffOccurs | components/PipelineListView.tsx:416 | a text includes another exactly when the other occurs at some offset |
| Text.JoinSplit | components/PipelineListView.tsx:480-484 | joining the pieces of a split with the same separator gives back the text |
| Text.SplitJoin | components/PipelineListView.tsx:480-484 | splitting a comma join gives back its parts when no part holds a comma |
| Text.ParseIntOfString | components/UpdateGoalProgressModal.tsx:46 | parseInt reads the decimal text of any integer back as that integer |
| Text.ParseIntPad2 | utils/goals.ts:48 | parseInt reads a two-digit, zero-padded month number back as that number |
| Text.ParseFloatOfString | components/AddRetainerModal.tsx:33 | parseFloat reads the decimal text of any integer back as that integer |
| Numbers.Percent | pages/ProjectDetailsPage.tsx:414 | the result is `Math.round(part / whole * 100)`, the integer within half a unit of the ratio; a part within its whole gives 0 to 100, and the whole 100 |
| Numbers.RoundPercentBounds | pages/ProjectDetailsPage.tsx:414 | Math.round keeps a value between 0 and 100 within those bounds |
| Dates.NormalizeDay | pages/CalendarPage.tsx:119-120 | the normalised date is exactly the day new Date(y, m, d) lands on, for days up to four weeks outside the month |
| Dates.WeekdayPeriodic | pages/CalendarPage.tsx:122 | getDay repeats every seven days |
| Dates.DayStart | pages/CalendarPage.tsx:84 | setHours(0, 0, 0, 0) gives the midnight on or before the time and less than a day before it |
| Lists.SortBySorted | pages/CalendarPage.tsx:197 | sorting by a key leaves the list ordered by that key |
| Lists.SortByStable | pages/CalendarPage.tsx:197 | sorting by a key keeps the input order among elements with equal keys |
| Lists.SortWithSorted | components/PipelineListView.tsx:423 | sorting with a comparator that orders the list consistently leaves it ordered |

## Left out

- `crop_logo.py`, the image-cropping script: the bounding-box rule lives in the imaging library it calls, so there is nothing of its own to model.
- The Supabase calls (tables, storage and auth) are taken to succeed. Their error paths are not modelled: the alerts, the thrown errors and the rollback of optimistic updates.
- Rendering, JSX, Tailwind classes and animations. Status colours are modelled as `ProjectCard.StatusStyle` values, with the class lists in `ProjectCard.ClassName`. Purely presentational components are left out.
- The collision detection and sensors of the drag-and-drop library are left out. Only `arrayMove` and the order rewrite after a drop are modelled.
- Local storage and `JSON.parse`: the saved filters and columns are given already parsed, and text that fails to parse is given as nothing saved.
- Timers are left out: the toast's four-second auto-dismiss, the calendar clock and the delayed history refresh.
- The clock is a parameter. With it go the local time zone and date-string parsing (`new Date(text)`), which are parameters too (`parseDate`, `isoDay`).
- The formatters are parameters: `toLocaleDateString`, `Intl.NumberFormat` and `toFixed`. The document row omits the file-size text that `toFixed` builds.
- Money is exact `real` arithmetic, so IEEE double rounding is not modelled. Integers are unbounded, so values beyond 2^53 are not modelled either.
- `Math.random` is a parameter: toast ids, avatar colours and upload file names.
- `normalize('NFD')` is a parameter. `toLowerCase` lowercases only the ASCII letters A-Z, so non-ASCII case mappings are not modelled.
- Text.ParseInt: reads decimal digits only. JavaScript's `parseInt` without a radix reads a leading `0x` as hexadecimal (`'0x1A'` is 26); the model reads that text as 0.
- `parseFloat` reads plain decimal notation only: an optional sign, digits, and an optional point with digits. Exponents, `Infinity` and hexadecimal text are not modelled.
- `custom_fields` is a JSON column. The model keeps it as an ordered list of text entries, the shape the list view writes into it. Non-text JSON values (numbers, booleans, nested objects) and their `String(...)` rendering and truthiness are not modelled; nor is the check that the column holds an object and not an array.
- The `updated_at` timestamps written with the profile and the retainer are left out.
- FilterModal.FilterDialog.Open: the assignee list is a sequence, so the replacement of a non-array `assigneeIds` with `[]` cannot arise and is not modelled.
- AddRetainerModal.DefaultCommission: the default commission text '20' is modelled as the form value `Shown(20.0)`. That value reads back as 20, as `parseFloat('20')` does.
- The thin forms are left out, having no rules worth stating: deal import from XLSX, appointments, expenses, and the retainer payment history and its edit dialog.
- The financial page's `handleSetAsPending` and `handleDeleteRecovery` are left out. Only marking as paid and deleting a retainer are modelled among its handlers.
- The authentication context and the login page are left out. The signed-in user and profile are parameters.
- The generated database types are left out. They are used only as the source of the record fields.
- Files with no logic are not modelled.

## Findings

| source | as written | input that shows it | evidently intended | confidence | as-written member | corrected member |
|---|---|---|---|---|---|---|
| utils/goals.ts:41-42 | the quarter and semester labels replace the letter with the ordinal text in place, so the number follows the text | the key '2024-Q2' is labelled 'º Trimestre2 de 2024' | '2º Trimestre de 2024' | not executed | GoalPeriods.QuarterLabelMisplaced | GoalPeriods.QuarterKeyLabel |
| pages/PipelinePage.tsx:397-401 | the due-date comparator returns 1 whenever the first task has no date, even when the second has none either | two undated tasks each compare greater than the other | undated tasks after dated ones, in a consistent order | not executed | PipelinePage.NextTaskCompareInconsistent | PipelinePage.NextTaskEarliest |
| components/PipelineListView.tsx:324-330 | select-all compares the number of selected ids with the number of rows on screen | with rows a and c shown and a stale selection of a and b, the header clears the selection | select all unless every row on screen is already selected | not executed | PipelineListView.SelectAllAsWrittenClearsStale | PipelineListView.SelectAll |
| pages/FinancialPage.tsx:208-209 | the payment due date is built from the start day without clamping it to the month | a retainer started on the 30th and paid in February 2025 falls due on 2 March | the last day of a shorter month | not executed | FinancialPage.DueDateAsWrittenLeavesMonth | FinancialPage.DueDate |
| pages/CalendarPage.tsx:121-125 | the week view's `setDate(diff + 6)` mutates the date already moved to the Monday, so it counts from the Monday's month, and it also leaves the date on show moved | on Wednesday 1 October 2025 the range is 29 September to 5 September and the date on show becomes 5 September | 29 September to 5 October, the date on show unchanged | not executed | CalendarPage.WeekRangeAsWrittenOctober2025 | CalendarPage.WeekRange |
