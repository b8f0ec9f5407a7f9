# Trainee test results: the state layer, modelled and proved

This project models the state layer of the TraineeTestResults Angular app in
Dafny. Every exam result is a `TestResult` record: id, trainee id, trainee
name, subject, a whole-number grade and a date.

- **Record store** (`DataPageState.DataPageStore`, a class). It holds:
  - the list of results;
  - the raw filter text and the applied (debounced) filter text;
  - the page index and the page size (10);
  - the selected row id.

  From that state it derives the filtered rows, the current page and the
  selected row. It also updates the state: `setFilter`, `setPage`,
  `setResults`, `selectRow`, `clearSelection`, `save`, `remove`, `addBlank`
  and `hydrateFromUrl`.
- **Filter pipeline** (`Debounce`). The rxjs pipeline `debounceTime(300)` +
  `distinctUntilChanged()` is modelled as explicit timer state:
  - the pending input;
  - the time since that input;
  - the last value emitted.

  `Feed` puts a new input in and `Advance` lets time pass. The store's `Tick`
  method drives it.
- **Older record store** (`LegacyDataPage.DataPageStore`). It has the same
  filter, page and debounce logic, without selection or editing, and without
  `startWith`.
- **Monitor store** (`Monitor`). It produces one summary per trainee:
  - exam count;
  - exact mean grade;
  - passed and failed exams against the fixed mark 65;
  - latest exam day.

  The summaries are narrowed by the id, name, name-text and pass/fail filters,
  then sorted by mean, highest first. The two loops of `summaries` are
  methods, proved against the specification function `SummaryView`. The
  `allIds`/`allNames` pickers are also covered.
- **Monitor CSV** (`MonitorCsv`). This is the text `exportCsv` builds: a
  header line, then one comma-joined line per summary.
- **Analysis store** (`Analysis`). It covers:
  - the hidden chart slot;
  - the trainee and subject selections and the rows they admit;
  - the trainee and subject pickers;
  - `traineeNameFor`;
  - the three chart series: mean per subject, mean per trainee, and per-day
    progress lines with gaps;
  - the chart-key dispatch.

  Its loops over JavaScript `Map`s are methods with invariants. Each `Map` is
  modelled as a Dafny map plus its key insertion order (`Grouping.Tracks`).
- **Data page URL reconciliation** (`DataPage`):
  - `parsePageParam`;
  - the constructor's snapshot hydration;
  - the `queryParamMap` callback, which applies only the parameters that
    differ from the store;
  - the state-to-URL mapping;
  - the delegating handlers.

  The main result is that re-reading the URL the page just wrote changes
  nothing.
- **Details panel** (`DetailsPanel`):
  - the form's validators;
  - `ngOnChanges` patch/reset;
  - the record `onSaveClick` builds, with its three text fields trimmed;
  - the `onRemove` guard.

Values the source takes from the environment become parameters:
- the fresh id (`crypto.randomUUID`/`Date.now`);
- today's date;
- the elapsed time fed to the debouncer;
- the number formatter of the CSV `avg` cell.

Where the prose design of the app and the code differ, the model follows the
code:
- the filter is a plain case-insensitive substring match, with no `key:value`
  grammar;
- `addBlank` writes straight into the list, with no separate draft;
- the reachable sort of `summaries` has no name tie-break.

## Model

| member | source | states |
|---|---|---|
| Records.DayOf | src/app/pages/monitor/state/monitor.store.ts:78 | the day is the date's first ten characters (all of a shorter date) and is a prefix of the date |
| Records.GradesAndDaysCount | src/app/pages/monitor/state/monitor.store.ts:73-79 | a trainee contributes one grade and one day per row; the count is positive exactly when the trainee has a row |
| Records.FirstOfTrainee | src/app/pages/analysis/state/analysis.store.ts:73 | a row found is in the list and belongs to the trainee; nothing is found exactly when no row belongs to the trainee |
| Records.FirstOfTraineeIsFirst | src/app/pages/analysis/state/analysis.store.ts:73 | the row found is the trainee's first row |
| Records.FindById | src/app/pages/data/state/data-page.store.ts:43 | the row found is the first row carrying the id; nothing is found exactly when no row has the id |
| Records.FindByIdIsFirst | src/app/pages/data/state/data-page.store.ts:43 | whichever rows follow, `find` returns the first row carrying the id |
| Text.ToLower | src/app/pages/data/state/data-page.store.ts:28 | same length, each character lowered |
| Text.LowerChar | src/app/pages/data/state/data-page.store.ts:28 | lower-cases one character; `ToLower` and `ToLowerIdempotent` state what that does to a string |
| Text.ToLowerIdempotent | src/app/pages/data/state/data-page.store.ts:28-31 | lowering twice is lowering once |
| Text.Contains | src/app/pages/data/state/data-page.store.ts:30-31 | `includes`: `ContainsIffOccurs` states it holds exactly when the needle occurs at some position |
| Text.ContainsIffOccurs | src/app/pages/data/state/data-page.store.ts:30-31 | `includes` holds exactly when the needle occurs at some position |
| Text.ContainsEmpty | src/app/pages/data/state/data-page.store.ts:30-31 | every text includes the empty text |
| Text.Trim | src/app/pages/monitor/state/monitor.store.ts:66 | the result neither starts nor ends with whitespace and is the input minus leading and trailing whitespace only |
| Text.TrimIdempotent | src/app/pages/details-panel/details-panel.component.ts:69-71 | trimming twice is trimming once |
| Text.IsWhite | src/app/pages/monitor/state/monitor.store.ts:66 | the whitespace `trim` drops; `Trim` states that the result neither starts nor ends with it and that only it is dropped |
| Text.TrimStart | src/app/pages/data/data-page/data-page.component.ts:156 | the leading whitespace `parseInt` skips is dropped and nothing else: the rest is a suffix that does not start with whitespace |
| Text.StrLeIsTotalPreorder | src/app/pages/monitor/state/monitor.store.ts:51 | the string order `sort` uses is total and transitive |
| Text.StrLe | src/app/pages/monitor/state/monitor.store.ts:51 | the default string order of `sort`; `StrLeIsTotalPreorder` states it is total and transitive |
| Text.SortedDistinctSpec | src/app/pages/monitor/state/monitor.store.ts:51 | `Array.from(new Set(xs)).sort()` is strictly increasing and holds exactly the values of `xs` |
| Text.SortedDistinct | src/app/pages/monitor/state/monitor.store.ts:49-51 | `Array.from(new Set(xs)).sort()`; `SortedDistinctSpec` states it is strictly increasing and holds exactly the values of the input |
| Text.JoinSplitCount | src/app/pages/monitor/monitor-page/monitor-page.component.ts:32 | splitting a join gives one piece per part plus one per separator inside the parts |
| Text.SplitJoin | src/app/pages/monitor/monitor-page/monitor-page.component.ts:31-33 | `split` undoes `join` when no part holds the separator |
| Text.Join | src/app/pages/monitor/monitor-page/monitor-page.component.ts:31-33 | `join`: `SplitJoin` states splitting on the separator gives the pieces back when none contains it, `JoinSplitCount` how many come back otherwise |
| Text.Split | src/app/pages/monitor/monitor-page/monitor-page.component.ts:31-33 | at least one piece; with `Join`, `SplitJoin` and `JoinSplitCount` state it reads a joined text back |
| Text.ParseInt | src/app/pages/data/data-page/data-page.component.ts:156 | `parseInt(s, 10)` is NaN exactly when no digit follows the leading whitespace and optional sign |
| Text.ParseIntOfIntToString | src/app/pages/data/data-page/data-page.component.ts:156 | parsing a rendered integer gives the integer back |
| Text.IntToString | src/app/pages/data/data-page/data-page.component.ts:134 | `String(i)`; `ParseIntOfIntToString` states `parseInt` reads it back as `i`, `MonitorCsv.IntTextIsPlain` that it holds no comma or newline |
| Seqs.DistinctInEncounterOrder | src/app/pages/analysis/state/analysis.store.ts:38-42 | the keys of a `Set`/`Map` filled from a list: no repeats, in first-encounter order |
| Seqs.InsertionSortCorrect | src/app/pages/monitor/state/monitor.store.ts:124 | the sort's result is ordered under any total preorder and is a permutation of its input |
| Seqs.InsertionSortStable | src/app/pages/monitor/state/monitor.store.ts:124 | the sort is stable: elements that all compare as equal come out in the order they went in |
| Seqs.MeanBounds | src/app/pages/monitor/state/monitor.store.ts:85 | a mean lies between the smallest and the largest value |
| Debounce.Feed | src/app/pages/data/state/data-page.store.ts:48-51 | a new input replaces the pending one, restarts the quiet period and keeps the last emission |
| Debounce.Advance | src/app/pages/data/state/data-page.store.ts:50-53 | a value comes out only when it is the pending input, 300 units have passed since it, and it differs from the last emission; before 300 units only the clock moves |
| Debounce.NothingBeforeQuietPeriod | src/app/pages/data/state/data-page.store.ts:50 | waits totalling under 300 units emit nothing |
| Debounce.IdleWaits | src/app/pages/data/state/data-page.store.ts:50 | with nothing pending, waiting emits nothing and changes nothing |
| Debounce.SettlesOnLatest | src/app/pages/data/state/data-page.store.ts:50-51 | 300 quiet units after an input it has come out exactly once, or not at all when it repeats the last emission |
| Debounce.SettlesFrom | src/app/pages/data/state/data-page.store.ts:50-51 | the same from a partly elapsed quiet period |
| Debounce.LaterInputSupersedes | src/app/pages/data/state/data-page.store.ts:50 | an input within 300 units of the previous one replaces it |
| Debounce.NoConsecutiveRepeats | src/app/pages/data/state/data-page.store.ts:51 | no value comes out twice in a row, the first differs from the earlier emission, and the last is remembered |
| Debounce.LatestOfTwoInputs | src/app/pages/data/state/data-page.store.spec.ts:78-88 | from a fresh store, "J" then "Jo" 100 units later emit only the initial "" and then "Jo" |
| RecordView.Filtered | src/app/pages/data/state/data-page.store.ts:27-33 | every kept row is from the list and matches the applied filter |
| RecordView.FilteredSpec | src/app/pages/data/state/data-page.store.ts:27-33 | a row is kept iff its name or subject contains the filter ignoring case, as often as it occurs, in list order |
| RecordView.Matches | src/app/pages/data/state/data-page.store.ts:28-31 | a row matches when its name or subject contains the filter, ignoring case; `FilteredSpec` states the view keeps exactly the matching rows |
| RecordView.FilteredByEmpty | src/app/pages/data/state/data-page.store.spec.ts:47-61 | the empty filter keeps every row |
| RecordView.FilteredIgnoresCase | src/app/pages/data/state/data-page.store.ts:28 | a lower-cased filter keeps the same rows |
| RecordView.SliceIndex | src/app/pages/data/state/data-page.store.ts:38 | `slice` reads every index as a position within the list |
| RecordView.JsSlice | src/app/pages/data/state/data-page.store.ts:38 | `slice`: the contiguous run of the list between the two clamped indexes, empty when the end does not pass the start |
| RecordView.PageLength | src/app/pages/data/state/data-page.store.ts:35-39 | a page never holds more than the page size, for any index |
| RecordView.PageIsWindow | src/app/pages/data/state/data-page.store.ts:35-39 | for a non-negative index the page is the window `[i*size, i*size+size)` cut at the end, and empty past the end |
| RecordView.Page | src/app/pages/data/state/data-page.store.ts:35-39 | `filtered.slice(start, start + pageSize)`; `PageLength` bounds it by the page size, `PageIsWindow` states it is that window of the filtered rows |
| RecordView.SecondPageOfFifteen | src/app/pages/data/state/data-page.store.spec.ts:71-76 | fifteen rows with size ten: the second page holds five |
| RecordView.SelectedRow | src/app/pages/data/state/data-page.store.ts:41-44 | none exactly when nothing (or the empty id) is selected or no row has the id; otherwise the first row with that id |
| RecordView.ReplaceById | src/app/pages/data/state/data-page.store.ts:80-82 | same length; a row is replaced by the edit iff its id is the edit's id, all others unchanged in place |
| RecordView.RemoveById | src/app/pages/data/state/data-page.store.ts:87-89 | the remaining rows are from the list and lack the id |
| RecordView.RemoveByIdSpec | src/app/pages/data/state/data-page.store.ts:87-89 | every row without the id stays, as often as before, in order |
| RecordView.SaveReadsBack | src/app/pages/data/state/data-page.store.ts:41-44 | after a save of a present, non-empty id the selected row is the edit |
| DataPageState.DataPageStore.constructor | src/app/pages/data/state/data-page.store.ts:11-16 | no rows, empty filters, page 0 of size 10, nothing selected, `""` already in the pipeline (`startWith`) |
| DataPageState.DataPageStore.Filtered | src/app/pages/data/state/data-page.store.ts:27-33 | the rows kept are rows of the list that match the applied filter |
| DataPageState.DataPageStore.Page | src/app/pages/data/state/data-page.store.ts:35-39 | at most `pageSize` rows, all from the filtered rows |
| DataPageState.DataPageStore.SelectedRow | src/app/pages/data/state/data-page.store.ts:41-44 | the first row of the list carrying the selected id; none exactly when nothing (or the empty id) is selected or no row has it |
| DataPageState.DataPageStore.SetFilter | src/app/pages/data/state/data-page.store.ts:58-61 | raw text set, page back to 0, applied filter unchanged; only a changed text enters the pipeline |
| DataPageState.DataPageStore.Tick | src/app/pages/data/state/data-page.store.ts:52-54 | time passes; a value leaving the pipeline becomes the applied filter; nothing else changes |
| DataPageState.DataPageStore.SetPage | src/app/pages/data/state/data-page.store.ts:63-65 | the index is stored unclamped; nothing else changes |
| DataPageState.DataPageStore.SetResults | src/app/pages/data/state/data-page.store.ts:67-69 | the list is replaced; filters, page and selection stay |
| DataPageState.DataPageStore.SelectRow | src/app/pages/data/state/data-page.store.ts:71-73 | the id is selected; nothing else changes |
| DataPageState.DataPageStore.ClearSelection | src/app/pages/data/state/data-page.store.ts:75-77 | nothing is selected; nothing else changes |
| DataPageState.DataPageStore.Save | src/app/pages/data/state/data-page.store.ts:79-84 | rows with the edit's id are replaced, the id is selected, and the selected row is the edit when the id was present |
| DataPageState.DataPageStore.Remove | src/app/pages/data/state/data-page.store.ts:86-91 | rows with the id are dropped and the selection is cleared |
| DataPageState.DataPageStore.AddBlank | src/app/pages/data/state/data-page.store.ts:93-111 | a blank row (empty texts, grade 0, today) is put first, the list grows by one, its id is selected |
| DataPageState.DataPageStore.HydrateFromUrl | src/app/pages/data/state/data-page.store.ts:113-121 | a given filter sets raw and applied filter at once, a given page sets the page; absent fields and the page stay |
| DataPageState.LatestFilterWins | src/app/pages/data/state/data-page.store.spec.ts:78-88 | after "J" and "Jo" the applied filter is still "", and 300 units later it is "Jo" |
| LegacyDataPage.DataPageStore.constructor | src/app/services/data-page.store.ts:11-15 | no rows, empty filters, page 0 of size 10, nothing in the pipeline |
| LegacyDataPage.DataPageStore.Filtered | src/app/services/data-page.store.ts:25-31 | the rows kept are rows of the list that match the applied filter |
| LegacyDataPage.DataPageStore.Page | src/app/services/data-page.store.ts:33-37 | at most ten rows, none past the end |
| LegacyDataPage.DataPageStore.SetFilter | src/app/services/data-page.store.ts:50-53 | raw text set, page back to 0, applied filter unchanged |
| LegacyDataPage.DataPageStore.Tick | src/app/services/data-page.store.ts:41-46 | time passes; a value leaving the pipeline becomes the applied filter |
| LegacyDataPage.DataPageStore.SetPage | src/app/services/data-page.store.ts:55-57 | the index is stored unclamped |
| LegacyDataPage.DataPageStore.SetResults | src/app/services/data-page.store.ts:59-61 | the list is replaced; filters and page stay |
| Monitor.CountAtLeast | src/app/pages/monitor/state/monitor.store.ts:86 | no more passes than grades |
| Monitor.LastDateIsLatest | src/app/pages/monitor/state/monitor.store.ts:88 | the last date is one of the dates and no date comes after it |
| Monitor.LastDate | src/app/pages/monitor/state/monitor.store.ts:88 | the last date in string order, or empty; `LastDateIsLatest` states it is one of the dates and no date sorts after it |
| Monitor.GroupForSnoc | src/app/pages/monitor/state/monitor.store.ts:73-79 | one more row extends only its trainee's grades and days; the name is taken from the trainee's first row |
| Monitor.GroupFor | src/app/pages/monitor/state/monitor.store.ts:73-79 | the map entry for one trainee; `GroupForSnoc` states how one more row changes it and `GroupByTrainee` that the loop builds exactly these entries |
| Monitor.GroupsStepNew | src/app/pages/monitor/state/monitor.store.ts:75-78 | a new trainee's entry starts from its row and its id goes to the end of the key order |
| Monitor.GroupsStepSeen | src/app/pages/monitor/state/monitor.store.ts:76-78 | a known trainee's entry gets the grade and day pushed; the key order stays |
| Monitor.SummariesOf | src/app/pages/monitor/state/monitor.store.ts:83-98 | one summary per id |
| Monitor.SummariesOfAt | src/app/pages/monitor/state/monitor.store.ts:83-98 | the i-th summary is the summary of the i-th trainee |
| Monitor.OneSummaryPerTrainee | src/app/pages/monitor/state/monitor.store.ts:72-98 | before filtering: no trainee twice, every trainee of the rows, nothing else, in first-encounter order |
| Monitor.RawSummaries | src/app/pages/monitor/state/monitor.store.ts:70-98 | the summaries before filtering; `OneSummaryPerTrainee` states there is one per trainee in first-encounter order, `SummaryFacts` what each holds |
| Monitor.RawIdsFollowOrder | src/app/pages/monitor/state/monitor.store.ts:83 | the summaries follow the map's key order |
| Monitor.TraineeOrderFacts | src/app/pages/monitor/state/monitor.store.ts:72-79 | the map's keys: no repeats, exactly the rows' trainees, in first-encounter order |
| Monitor.SummaryFacts | src/app/pages/monitor/state/monitor.store.ts:83-98 | each raw summary summarises its trainee's rows |
| Monitor.TraineeSummaryFacts | src/app/pages/monitor/state/monitor.store.ts:84-93 | exams is the row count (positive); pass counts grades of at least 65; pass + fail = exams; avg is the mean; the name is the first row's; lastDate is a day of the trainee and none is later |
| Monitor.Summarize | src/app/pages/monitor/state/monitor.store.ts:84-97 | one trainee's summary; `TraineeSummaryFacts` states its exams, pass and fail counts, mean and last date in terms of that trainee's rows |
| Monitor.TwoGrades | src/app/pages/monitor/state/monitor.store.ts:85-86 | pass count and mean of two grades |
| Monitor.LastOfTwo | src/app/pages/monitor/state/monitor.store.ts:88 | of two ordered dates the later is the last date |
| Monitor.ExampleGroup | src/app/pages/monitor/state/monitor.store.spec.ts:9-14 | the groups the loop builds from the test's four rows |
| Monitor.ExampleOrder | src/app/pages/monitor/state/monitor.store.spec.ts:9-14 | the test's trainees in first-encounter order: T001, T002 |
| Monitor.ExampleTallies | src/app/pages/monitor/state/monitor.store.spec.ts:39-58 | Bob: 2 exams, 82.5, 2 passed, 0 failed, 2025-01-04; Alice: 2, 65, 1, 1, 2025-01-02 |
| Monitor.ExampleSummaries | src/app/pages/monitor/state/monitor.store.spec.ts:39-58 | the same summaries computed from the rows |
| Monitor.ExampleRaw | src/app/pages/monitor/state/monitor.store.spec.ts:34-58 | before sorting: Alice, then Bob |
| Monitor.SortSwapsTwo | src/app/pages/monitor/state/monitor.store.ts:124 | of two summaries the higher mean is listed first |
| Monitor.ExampleView | src/app/pages/monitor/state/monitor.store.spec.ts:34-59 | with no filter the view is Bob, then Alice |
| Monitor.SummaryViewMembership | src/app/pages/monitor/state/monitor.store.ts:100-124 | a summary is shown iff it is a raw summary that every set filter admits |
| Monitor.SummaryView | src/app/pages/monitor/state/monitor.store.ts:70-124 | the `summaries` view; `SummaryViewMembership` states it holds exactly the admitted summaries, `SummaryViewSorted` and `SummaryViewStable` its order |
| Monitor.NarrowMembership | src/app/pages/monitor/state/monitor.store.ts:100-121 | the filters compose as a conjunction |
| Monitor.Narrow | src/app/pages/monitor/state/monitor.store.ts:100-121 | the four filters in source order; `NarrowMembership` states a summary survives exactly when every set filter admits it |
| Monitor.IdsStageMembers | src/app/pages/monitor/state/monitor.store.ts:101-103 | a non-empty id selection keeps exactly the selected trainees |
| Monitor.KeepIds | src/app/pages/monitor/state/monitor.store.ts:101-103 | keeps the summaries whose id is selected; `IdsStageMembers` states exactly those survive when the selection is non-empty |
| Monitor.NamesStageMembers | src/app/pages/monitor/state/monitor.store.ts:105-107 | a non-empty name selection keeps exactly the selected names |
| Monitor.KeepNames | src/app/pages/monitor/state/monitor.store.ts:105-107 | keeps the summaries whose name is selected; `NamesStageMembers` states exactly those survive when the selection is non-empty |
| Monitor.TextStageMembers | src/app/pages/monitor/state/monitor.store.ts:109-112 | a non-empty name text keeps the names containing it, ignoring case |
| Monitor.KeepNameText | src/app/pages/monitor/state/monitor.store.ts:109-112 | keeps the names containing the text, ignoring case; `TextStageMembers` states exactly those survive when the text is set |
| Monitor.PassFailStageMembers | src/app/pages/monitor/state/monitor.store.ts:114-121 | both off: nothing; passed off: fail > 0; failed off: fail = 0; both on: all |
| Monitor.KeepFailing | src/app/pages/monitor/state/monitor.store.ts:117-118 | keeps the summaries with a failed exam; `PassFailStageMembers` states exactly those survive when passed ones are hidden |
| Monitor.KeepClean | src/app/pages/monitor/state/monitor.store.ts:119-120 | keeps the summaries without a failed exam; `PassFailStageMembers` states exactly those survive when failed ones are hidden |
| Monitor.SortKeepsMembers | src/app/pages/monitor/state/monitor.store.ts:124 | sorting neither adds nor drops a summary |
| Monitor.SortByAvgDesc | src/app/pages/monitor/state/monitor.store.ts:124 | highest mean first; `SortKeepsMembers` states it keeps the same summaries, `SummaryViewSorted` the order and `SummaryViewStable` that ties keep their order |
| Monitor.AvgOrderIsTotalPreorder | src/app/pages/monitor/state/monitor.store.ts:124 | "mean at least" is a total preorder |
| Monitor.SummaryViewSorted | src/app/pages/monitor/state/monitor.store.ts:124 | the view is ordered by mean, highest first |
| Monitor.SummaryViewStable | src/app/pages/monitor/state/monitor.store.ts:124 | summaries with equal means keep the order the filters left them in |
| Monitor.NothingWhenBothHidden | src/app/pages/monitor/state/monitor.store.ts:115-116 | both switches off: the view is empty |
| Monitor.GroupByTrainee | src/app/pages/monitor/state/monitor.store.ts:72-79 | the loop ends with every trainee's group keyed by id, keys in first-encounter order |
| Monitor.AbsorbRow | src/app/pages/monitor/state/monitor.store.ts:74-78 | one pass keeps that invariant |
| Monitor.GroupsOfListedTrainees | src/app/pages/monitor/state/monitor.store.ts:83 | every listed key has its trainee's group |
| Monitor.SummarizeGroups | src/app/pages/monitor/state/monitor.store.ts:82-98 | the second loop yields the summaries of the keys in order |
| Monitor.MonitorStore.constructor | src/app/pages/monitor/state/monitor.store.ts:34-40 | no selection, no name text, both switches on |
| Monitor.MonitorStore.PassThreshold | src/app/pages/monitor/state/monitor.store.ts:31-42 | the pass mark is 65 |
| Monitor.MonitorStore.SetSelectedNames | src/app/pages/monitor/state/monitor.store.ts:61-63 | null selects no name; the other filters stay |
| Monitor.MonitorStore.ApplyName | src/app/pages/monitor/state/monitor.store.ts:65-67 | the name text is the trimmed input, '' for null |
| Monitor.MonitorStore.AllIds | src/app/pages/monitor/state/monitor.store.ts:48-52 | the loop's `Set`, sorted, is the sorted distinct trainee ids |
| Monitor.MonitorStore.AllNames | src/app/pages/monitor/state/monitor.store.ts:55-59 | the sorted distinct non-empty names |
| Monitor.MonitorStore.Summaries | src/app/pages/monitor/state/monitor.store.ts:70-124 | the two loops, the filters and the sort compute `SummaryView` |
| Monitor.MonitorStore.CurrentFilters | src/app/pages/monitor/state/monitor.store.ts:33-38 | the five filter signals as one value; `MonitorStore.Summaries` states the view is computed with them |
| Monitor.IdChoices | src/app/pages/monitor/state/monitor.store.ts:48-52 | id choices are strictly increasing and exactly the rows' trainee ids |
| Monitor.TraineeIdsMembers | src/app/pages/monitor/state/monitor.store.ts:50 | an id is listed iff some row carries it |
| Monitor.NameChoices | src/app/pages/monitor/state/monitor.store.ts:55-59 | name choices are strictly increasing and exactly the rows' non-empty names |
| Monitor.NonEmptyNamesSpec | src/app/pages/monitor/state/monitor.store.ts:57 | a name is collected iff it is non-empty and on some row |
| MonitorCsv.HeaderLine | src/app/pages/monitor/monitor-page/monitor-page.component.ts:30-31 | the header line is `Name,ID,Exams,Avg,Pass,Fail,Last Date` |
| MonitorCsv.CsvStartsWithHeader | src/app/pages/monitor/monitor-page/monitor-page.component.ts:31-33 | the file begins with the header line, whatever the summaries hold |
| MonitorCsv.IntTextIsPlain | src/app/pages/monitor/monitor-page/monitor-page.component.ts:32 | rendered counts hold no comma and no line break |
| MonitorCsv.JoinAvoids | src/app/pages/monitor/monitor-page/monitor-page.component.ts:32 | joining parts free of a character with another separator stays free of it |
| MonitorCsv.HeaderAvoidsNewline | src/app/pages/monitor/monitor-page/monitor-page.component.ts:31 | the header holds no line break |
| MonitorCsv.RowAvoidsNewline | src/app/pages/monitor/monitor-page/monitor-page.component.ts:32 | a row holds no line break when its text cells hold none |
| MonitorCsv.LinesAvoidNewline | src/app/pages/monitor/monitor-page/monitor-page.component.ts:31-33 | no line holds a line break when no text cell does |
| MonitorCsv.CsvLines | src/app/pages/monitor/monitor-page/monitor-page.component.ts:31-33 | the file splits into the header and one line per summary, in order (1 + n lines) |
| MonitorCsv.RowCellCount | src/app/pages/monitor/monitor-page/monitor-page.component.ts:32 | a row splits into seven cells iff no cell holds a comma, and then into exactly its cells |
| MonitorCsv.Cells | src/app/pages/monitor/monitor-page/monitor-page.component.ts:32 | the seven cells of a row in header order; `RowCellCount` states splitting the row on commas gives seven pieces exactly when no text cell holds a comma |
| MonitorCsv.Row | src/app/pages/monitor/monitor-page/monitor-page.component.ts:32 | the cells joined by commas; `RowAvoidsNewline` and `RowCellCount` state what a reader recovers from it |
| MonitorCsv.Lines | src/app/pages/monitor/monitor-page/monitor-page.component.ts:31-33 | the header line, then one row per summary in order; `CsvLines` states splitting the file on newlines gives exactly these lines |
| MonitorCsv.Csv | src/app/pages/monitor/monitor-page/monitor-page.component.ts:31-33 | the exported text; `CsvLines` states it splits back into the header and one row per summary, `CsvStartsWithHeader` that it starts with the header |
| Analysis.HiddenChart | src/app/pages/analysis/state/analysis.store.ts:25-29 | the hidden chart is neither visible one, and it is the first such chart |
| Analysis.HiddenCompletesSlots | src/app/pages/analysis/state/analysis.store.ts:25-29 | two different slots and the hidden chart are the three charts |
| Analysis.FilteredResults | src/app/pages/analysis/state/analysis.store.ts:62-69 | the kept rows are rows of the list the selections admit |
| Analysis.FilteredResultsSpec | src/app/pages/analysis/state/analysis.store.ts:62-69 | the two filters are one filter: a row is kept iff both selections admit it, in list order |
| Analysis.Selected | src/app/pages/analysis/state/analysis.store.ts:66-67 | a row passes both selections (an empty one admits all); `FilteredResultsSpec` states the filtered rows are exactly those |
| Analysis.TraineeRefs | src/app/pages/analysis/state/analysis.store.ts:37-43 | one entry per distinct trainee |
| Analysis.TraineeRefsInEncounterOrder | src/app/pages/analysis/state/analysis.store.ts:37-43 | entries are in first-encounter order, none twice |
| Analysis.TraineeRefsCoverRows | src/app/pages/analysis/state/analysis.store.ts:37-43 | every trainee of the rows is listed |
| Analysis.TraineeRefsFirstNames | src/app/pages/analysis/state/analysis.store.ts:40 | each name is the one on the trainee's first row |
| Analysis.TraineeNameFor | src/app/pages/analysis/state/analysis.store.ts:72-75 | null exactly when no row belongs to the trainee |
| Analysis.TraineeNameForFirstRow | src/app/pages/analysis/state/analysis.store.ts:72-75 | the name found is the one on the trainee's first row |
| Analysis.SubjectChoices | src/app/pages/analysis/state/analysis.store.ts:46-50 | subjects are strictly increasing and exactly the rows' subjects |
| Analysis.SubjectGradesPresent | src/app/pages/analysis/state/analysis.store.ts:84 | a subject has grades iff some row is about it |
| Analysis.SubjectGradesFromRows | src/app/pages/analysis/state/analysis.store.ts:84-85 | every grade of a subject is the grade of a row |
| Analysis.SubjectGrades | src/app/pages/analysis/state/analysis.store.ts:84-85 | the grades of one subject's rows; `SubjectGradesPresent` states it is non-empty exactly for a present subject, `SubjectGradesFromRows` that each grade comes from a row |
| Analysis.BarData | src/app/pages/analysis/state/analysis.store.ts:80-93 | a bar chart with one value per label |
| Analysis.BarLabels | src/app/pages/analysis/state/analysis.store.ts:82 | labels are the sorted distinct subjects of the rows |
| Analysis.BarMeans | src/app/pages/analysis/state/analysis.store.ts:83-87 | each bar is the sum of its subject's grades over their count, the count positive |
| Analysis.BarValuesInRange | src/app/pages/analysis/state/analysis.store.ts:83-87 | grades within [lo, hi] give bars within [lo, hi] |
| Analysis.ScoresStep | src/app/pages/analysis/state/analysis.store.ts:161-165 | the loop step of `avgByTraineeData` updates exactly the row's trainee |
| Analysis.ScoresOf | src/app/pages/analysis/state/analysis.store.ts:160-165 | one trainee's entry of `avgByTraineeData`; `ScoresStep` and `ScoresTracked` state the loop keeps exactly these entries |
| Analysis.AvgByTrainee | src/app/pages/analysis/state/analysis.store.ts:158-173 | one label and one value per distinct trainee |
| Analysis.AvgByTraineeFollowsPicker | src/app/pages/analysis/state/analysis.store.ts:167 | bar k is picker entry k, labelled with the name, or the id when the name is empty |
| Analysis.SeriesLabel | src/app/pages/analysis/state/analysis.store.ts:139 | `name || id`; `AvgByTraineeFollowsPicker` and `LinePoints` state the bar labels and legends are this of the first name seen |
| Analysis.AvgByTraineeMeans | src/app/pages/analysis/state/analysis.store.ts:168-171 | each bar is its trainee's grade sum over a positive count |
| Analysis.TraineeHasGrades | src/app/pages/analysis/state/analysis.store.ts:169 | a listed trainee has grades, so the `|| 1` fallback is never used |
| Analysis.ProgressStep | src/app/pages/analysis/state/analysis.store.ts:108-118 | the loop step of `lineData` updates exactly the row's trainee |
| Analysis.ProgressOf | src/app/pages/analysis/state/analysis.store.ts:107-118 | one trainee's entry of `lineData`; `ProgressDays`, `ProgressTotals` and `ProgressName` state its days, per-day totals and name |
| Analysis.AllDays | src/app/pages/analysis/state/analysis.store.ts:104 | the day of every row, in order |
| Analysis.DayGradesPresent | src/app/pages/analysis/state/analysis.store.ts:115-117 | a trainee has grades on a day iff one of their rows falls on it |
| Analysis.ProgressDays | src/app/pages/analysis/state/analysis.store.ts:113-117 | an entry's days are the trainee's distinct days, in first-seen order |
| Analysis.ProgressDaysStep | src/app/pages/analysis/state/analysis.store.ts:115-117 | a row adds its day unless already present |
| Analysis.AddGradeDays | src/app/pages/analysis/state/analysis.store.ts:115-117 | adding a grade keeps the days the distinct days |
| Analysis.ProgressTotals | src/app/pages/analysis/state/analysis.store.ts:115-117 | each day's total is the sum and count of that day's grades |
| Analysis.AddGradeTotals | src/app/pages/analysis/state/analysis.store.ts:115-117 | adding a grade keeps every day's sum and count |
| Analysis.AddGrade | src/app/pages/analysis/state/analysis.store.ts:113-117 | one row added to an entry; `AddGradeDays` and `AddGradeTotals` state the new days and per-day sums and counts |
| Analysis.ProgressName | src/app/pages/analysis/state/analysis.store.ts:113 | the entry's name is the first row's |
| Analysis.PointSpec | src/app/pages/analysis/state/analysis.store.ts:134-137 | a point is the day's mean, a gap exactly when the trainee has no grade that day |
| Analysis.Point | src/app/pages/analysis/state/analysis.store.ts:134-137 | one point of a series; `PointSpec` states it is the day's mean grade, present exactly on the trainee's days |
| Analysis.SeriesOf | src/app/pages/analysis/state/analysis.store.ts:134-137 | one point per label |
| Analysis.DefaultPicks | src/app/pages/analysis/state/analysis.store.ts:122-127 | two picks, or all trainees when fewer |
| Analysis.Lines | src/app/pages/analysis/state/analysis.store.ts:130-143 | one series per trainee, each with one point per label |
| Analysis.LineLabels | src/app/pages/analysis/state/analysis.store.ts:104 | labels are the rows' days, sorted, each once |
| Analysis.Dates | src/app/pages/analysis/state/analysis.store.ts:104 | the line labels; `LineLabels` states they are the rows' days, each once, in string order |
| Analysis.AllDaysMembers | src/app/pages/analysis/state/analysis.store.ts:104 | a day is listed iff some row falls on it |
| Analysis.SeriesSpec | src/app/pages/analysis/state/analysis.store.ts:133-141 | legend `name or id` from the first row; points are the day means |
| Analysis.LinePoints | src/app/pages/analysis/state/analysis.store.ts:130-145 | each series is a plotted trainee with rows, labelled `name or id`, with the day mean or a gap at every label |
| Analysis.LineView | src/app/pages/analysis/state/analysis.store.ts:100-145 | `lineData`; `LineLabels` states its labels, `LinePoints` one series per plotted trainee with its legend and daily means |
| Analysis.PlottedSelected | src/app/pages/analysis/state/analysis.store.ts:121-131 | with a selection, exactly the selected trainees with rows, in selection order |
| Analysis.DayCountSpec | src/app/pages/analysis/state/analysis.store.ts:124 | the map entry's size is the trainee's number of distinct days |
| Analysis.MoreDaysIsTotalPreorder | src/app/pages/analysis/state/analysis.store.ts:124 | "more days" is a total preorder |
| Analysis.DefaultPicksSpec | src/app/pages/analysis/state/analysis.store.ts:122-127 | the picks are different trainees of the rows, and no trainee left out has more days than one picked |
| Analysis.PickedHasMoreDays | src/app/pages/analysis/state/analysis.store.ts:122-127 | a pick has at least as many days as any trainee left out |
| Analysis.RankedIds | src/app/pages/analysis/state/analysis.store.ts:123-124 | the ranking lists every trainee once, more days first |
| Analysis.PlottedDefault | src/app/pages/analysis/state/analysis.store.ts:121-131 | with no selection the default picks are plotted as they are |
| Analysis.Plotted | src/app/pages/analysis/state/analysis.store.ts:120-131 | the trainees plotted; `PlottedSelected` states they are the selected ones with rows in selection order, `PlottedDefault` the default picks otherwise |
| Analysis.NamesStepNew | src/app/pages/analysis/state/analysis.store.ts:40 | a new trainee's name is stored and their id listed last |
| Analysis.NamesStepSeen | src/app/pages/analysis/state/analysis.store.ts:40 | a known trainee's stored name never changes |
| Analysis.RefsFromNames | src/app/pages/analysis/state/analysis.store.ts:42 | the map read out in insertion order is the picker |
| Analysis.ScoresTracked | src/app/pages/analysis/state/analysis.store.ts:163-164 | get-or-create and push keeps the map equal to each trainee's scores |
| Analysis.BarsFromScores | src/app/pages/analysis/state/analysis.store.ts:166-172 | the map read out in insertion order gives the per-trainee bars |
| Analysis.BarsOf | src/app/pages/analysis/state/analysis.store.ts:166-172 | the map read out as bars; `BarsFromScores` states the map the loop ends with reads out as `AvgByTrainee` |
| Analysis.ProgressTracked | src/app/pages/analysis/state/analysis.store.ts:113-117 | get-or-create and add-to-day keeps the map equal to each trainee's progress |
| Analysis.RankingBySize | src/app/pages/analysis/state/analysis.store.ts:123-124 | sorting the map's entries by size ranks trainees by days |
| Analysis.KeptByMap | src/app/pages/analysis/state/analysis.store.ts:131 | keeping ids the map has is keeping trainees with rows |
| Analysis.SeriesFromTracked | src/app/pages/analysis/state/analysis.store.ts:132-143 | reading series out of the map gives each trainee's series |
| Analysis.CollectNames | src/app/pages/analysis/state/analysis.store.ts:38-41 | the loop leaves each trainee's first name, keys in first-encounter order |
| Analysis.CollectSubjects | src/app/pages/analysis/state/analysis.store.ts:47-48 | the loop's `Set` holds the distinct subjects in insertion order |
| Analysis.CollectScores | src/app/pages/analysis/state/analysis.store.ts:160-165 | the loop leaves each trainee's first name and grades |
| Analysis.AbsorbGrade | src/app/pages/analysis/state/analysis.store.ts:162-164 | one pass keeps that invariant |
| Analysis.AddToDay | src/app/pages/analysis/state/analysis.store.ts:114-117 | the grade is added to the day's sum and counted |
| Analysis.CollectProgress | src/app/pages/analysis/state/analysis.store.ts:107-118 | the loop leaves each trainee's name and per-day sums and counts |
| Analysis.AbsorbRow | src/app/pages/analysis/state/analysis.store.ts:109-117 | one pass keeps that invariant |
| Analysis.LinesOf | src/app/pages/analysis/state/analysis.store.ts:100-146 | `lineData` computes `LineView` |
| Analysis.TopTwo | src/app/pages/analysis/state/analysis.store.ts:123-126 | sort by size, most first, keep two: the default picks |
| Analysis.AnalysisStore.constructor | src/app/pages/analysis/state/analysis.store.ts:23-24 | chart1 left, chart2 right, chart3 hidden, nothing selected |
| Analysis.AnalysisStore.Hidden | src/app/pages/analysis/state/analysis.store.ts:25-29 | the hidden chart is neither visible one |
| Analysis.AnalysisStore.Filtered | src/app/pages/analysis/state/analysis.store.ts:62-69 | the rows both selections admit, exactly, in list order |
| Analysis.AnalysisStore.SetSelectedTrainees | src/app/pages/analysis/state/analysis.store.ts:58 | null selects nothing; the rest stays |
| Analysis.AnalysisStore.SetSelectedSubjects | src/app/pages/analysis/state/analysis.store.ts:59 | null selects nothing; the rest stays |
| Analysis.AnalysisStore.UniqueTraineeIds | src/app/pages/analysis/state/analysis.store.ts:37-43 | the loop computes the picker `TraineeRefs` |
| Analysis.AnalysisStore.UniqueSubjects | src/app/pages/analysis/state/analysis.store.ts:46-50 | the sorted distinct subjects |
| Analysis.AnalysisStore.AvgByTraineeData | src/app/pages/analysis/state/analysis.store.ts:158-173 | the loop and read-out compute `AvgByTrainee` of the filtered rows |
| Analysis.AnalysisStore.LineData | src/app/pages/analysis/state/analysis.store.ts:100-146 | `LineView` of the filtered rows and the selection |
| Analysis.AnalysisStore.GetChartConf | src/app/pages/analysis/state/analysis.store.ts:176-180 | chart1: bars per trainee; chart2: progress lines; chart3: bars per subject |
| DataPage.PageParamRoundTrip | src/app/pages/data/data-page/data-page.component.ts:155-158 | a rendered page index reads back as itself |
| DataPage.PageParamDefaultsToZero | src/app/pages/data/data-page/data-page.component.ts:155-158 | an absent value, or one without digits, is page 0 |
| DataPage.ParsePageParam | src/app/pages/data/data-page/data-page.component.ts:155-158 | `parseInt(value, 10)`, 0 for NaN; `PageParamRoundTrip` states a written page index reads back as itself, `PageParamDefaultsToZero` that no digits give 0 |
| DataPage.PageParamSignedExample | src/app/pages/data/data-page/data-page.component.ts:156 | `"  -3"` is page -3 |
| DataPage.PageParamTrailingExample | src/app/pages/data/data-page/data-page.component.ts:156 | `"12abc"` is page 12 |
| DataPage.PageParamNoDigitsExample | src/app/pages/data/data-page/data-page.component.ts:157 | `"abc"` is page 0 |
| DataPage.InitialPatch | src/app/pages/data/data-page/data-page.component.ts:67-80 | filter iff `q` present; page iff `p` present (the NaN guard never fires), parsed |
| DataPage.ChangePatch | src/app/pages/data/data-page/data-page.component.ts:97-113 | filter iff `q` present and different; page iff `p` present and parsing to a different page |
| DataPage.QueryParamsOf | src/app/pages/data/data-page/data-page.component.ts:131-140 | `q` is the raw filter, `p` reads back as the page, `sel` only when selected |
| DataPage.EchoAsksNothing | src/app/pages/data/data-page/data-page.component.ts:103-113 | the URL written from a state, read in that state, asks for no change |
| DataPage.ChangeIsNoticed | src/app/pages/data/data-page/data-page.component.ts:103-113 | a differing `q` or `p` always asks for a change |
| DataPage.IsEmptyPatch | src/app/pages/data/data-page/data-page.component.ts:124-126 | no key in the patch; `EchoAsksNothing` states the URL the effect writes yields one, `ChangeIsNoticed` that a changed `q` or `p` does not |
| DataPage.DataPageComponent.constructor | src/app/pages/data/data-page/data-page.component.ts:65-128 | after hydration and the subscription's first delivery: filter and applied filter are `q` and page is `p` where present, the pipeline is fed `q` when it differed, the selection is exactly `sel`; rows untouched |
| DataPage.DataPageComponent.OnQueryParams | src/app/pages/data/data-page/data-page.component.ts:96-128 | selection follows `sel`; `q`, `p` applied where present; the applied filter jumps only when `q` differed |
| DataPage.DataPageComponent.EchoIsNoOp | src/app/pages/data/data-page/data-page.component.ts:96-147 | navigating to the URL the effect wrote changes nothing in the store |
| DataPage.DataPageComponent.CurrentParams | src/app/pages/data/data-page/data-page.component.ts:131-140 | the URL the effect writes: `q` is the filter text, `sel` the selection, and `p` reads back as the page index |
| DataPage.DataPageComponent.OnPageChange | src/app/pages/data/data-page/data-page.component.ts:151-153 | delegates to `setPage`: only the page changes |
| DataPage.DataPageComponent.OnCancel | src/app/pages/data/data-page/data-page.component.ts:51-53 | delegates to `clearSelection`: only the selection is cleared |
| DataPage.DataPageComponent.OnAdd | src/app/pages/data/data-page/data-page.component.ts:39-41 | delegates to `addBlank`: the blank row is prepended and selected; filters, pipeline and page stay |
| DataPage.DataPageComponent.OnSave | src/app/pages/data/data-page/data-page.component.ts:43-45 | delegates to `save`: rows replaced by id and the id selected; filters, pipeline and page stay |
| DataPage.DataPageComponent.OnRemove | src/app/pages/data/data-page/data-page.component.ts:47-49 | delegates to `remove`: rows with the id dropped and the selection cleared; filters, pipeline and page stay |
| DetailsPanel.GradeErrors | src/app/pages/details-panel/details-panel.component.ts:40 | no error iff the grade is a number in 0..100; `required` iff empty |
| DetailsPanel.ValidIff | src/app/pages/details-panel/details-panel.component.ts:36-42 | valid iff the four texts are non-empty and the grade is a number in 0..100 |
| DetailsPanel.GradeRangeExamples | src/app/pages/details-panel/details-panel.component.spec.ts:106-121 | 101 fails `max`, -1 fails `min`, 100 and 0 pass |
| DetailsPanel.EmptyForm | src/app/pages/details-panel/details-panel.component.spec.ts:33-40 | the fresh form is empty and invalid |
| DetailsPanel.ResetForm | src/app/pages/details-panel/details-panel.component.ts:61 | the reset form has grade 0 (no grade error) and is invalid |
| DetailsPanel.FormOf | src/app/pages/details-panel/details-panel.component.ts:52-59 | the patched form is valid iff the row's texts are non-empty and its grade in 0..100 |
| DetailsPanel.SaveRecord | src/app/pages/details-panel/details-panel.component.ts:65-76 | bound id or fresh id; the three texts trimmed; empty grade reads 0; date as it is |
| DetailsPanel.SaveAfterPatch | src/app/pages/details-panel/details-panel.component.spec.ts:69-85 | patch then save gives the row with trimmed texts |
| DetailsPanel.SaveOfTrimmedRowIsIdentity | src/app/pages/details-panel/details-panel.component.ts:51-76 | a row already trimmed comes back unchanged |
| DetailsPanel.SaveIdempotent | src/app/pages/details-panel/details-panel.component.ts:65-76 | saving a saved record again changes nothing |
| DetailsPanel.BlankNamePassesAndSavesEmpty | src/app/pages/details-panel/details-panel.component.ts:38 | a name of blanks passes `required` and is saved as '' |
| DetailsPanel.RemoveTarget | src/app/pages/details-panel/details-panel.component.ts:78-82 | an id is emitted iff a row with a non-empty id is bound, and it is that id |
| DetailsPanel.DetailsPanelComponent.constructor | src/app/pages/details-panel/details-panel.component.ts:35-42 | unbound, with the empty invalid form |
| DetailsPanel.DetailsPanelComponent.BindRow | src/app/pages/details-panel/details-panel.component.ts:25 | the input is bound; the form waits for `ngOnChanges` |
| DetailsPanel.DetailsPanelComponent.NgOnChanges | src/app/pages/details-panel/details-panel.component.ts:51-63 | the form is the row's fields, or the reset form when unbound |
| DetailsPanel.DetailsPanelComponent.SetGrade | src/app/pages/details-panel/details-panel.component.spec.ts:110-119 | only the grade changes |
| DetailsPanel.DetailsPanelComponent.OnSaveClick | src/app/pages/details-panel/details-panel.component.ts:65-76 | emits `SaveRecord` of the bound row and form, keeping the bound row's id |
| DetailsPanel.DetailsPanelComponent.OnRemove | src/app/pages/details-panel/details-panel.component.ts:78-82 | emits the bound id iff a row with a non-empty id is bound |
| DetailsPanel.PatchThenSave | src/app/pages/details-panel/details-panel.component.spec.ts:42-85 | bind, patch and save gives the trimmed row; unbinding and patching gives the invalid reset form |
| DetailsPanel.GradeEdits | src/app/pages/details-panel/details-panel.component.spec.ts:106-121 | on a bound row, grades 101 and -1 make the form invalid, 100 and 0 keep it valid |

## Left out

- Signals, `computed`, `effect`, `toObservable` and the rxjs scheduler are left out. State is plain fields and derived values are functions. Time is the explicit `Tick`/`Advance` argument.
- `toObservable`'s own first emission is left out. In the older store this initial `""` is not fed into the pipeline; the two agree on every applied filter value.
- `router.navigate` and the `queryParamMap` subscription mechanics are left out. The effect's output is the value `CurrentParams`/`QueryParamsOf`, and the callback is a method taking the parameters; the constructor delivers its first emission, which carries the snapshot's parameters.
- Local storage and the store methods that the component calls but the store file does not define are left out. These are `bootstrapFromLocal`, `overwriteWith` and `clearAll`; their behaviour is not in the store's source.
- HTTP loading (`onRestoreFromJson`, `DataService`) is left out.
- The unreachable statements after the `return` in `summaries` (monitor.store.ts lines 125-146) are left out.
- `toFixed(2)` rounding is left out. Means are exact rationals (`real`). The monitor sorts on the rounded mean, so when two different means round to the same value the source keeps them in first-encounter order while the model orders them by their exact means; the table and the CSV can then list them in a different order.
- The CSV's rendering of `avg` is a parameter (`avgText`), because floating-point printing is not modelled.
- Grades are whole numbers. `Number(...)` coercions of non-numeric values, `null` grades and fractional grades are not modelled.
- A page index read from the URL is a whole number. `parseInt` beyond 2^53 and floating-point page arithmetic are not modelled.
- `toLowerCase` is modelled on ASCII letters only. Full Unicode case mapping is not modelled.
- `localeCompare` and the default `sort` order are both modelled as lexicographic order on characters. UTF-16 code-unit ordering and locale collation are not modelled.
- Analysis.DefaultPicks: states only that the picks have the most distinct days. The source's comparator never answers "equal", so which of two equally ranked trainees is picked depends on the engine's sort. The model uses a stable sort.
- Chart option objects (`barOptions`, `lineOptions`, `spanGaps`) are constant configuration and are left out.
- There are no setters for the visible chart slots in the source, so the slots keep their initial values.
- The Blob/URL/DOM steps of `exportCsv` are left out.
- The form's `validity`/`statusChanges` events and the panel's `onCancel` emission are left out. The form is a record of five fields.
- `crypto.randomUUID`, `Date.now` and `new Date()` are parameters (`newId`, `freshId`, `today`).
- `onSaveClick`'s `raw['id']` fallback is left out, because the form has no `id` control.
