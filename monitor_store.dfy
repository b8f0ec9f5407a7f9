/**
 * The monitor page's store: one summary per trainee (exam count, mean grade,
 * passed and failed exams against the fixed threshold, latest exam day),
 * narrowed by the page's own filters and ordered by mean grade, highest first.
 */
module Monitor {
  import opened Wrappers
  import opened Records
  import Seqs
  import Text
  import DataPageState

  /** The fixed pass mark: an exam passes with a grade of at least 65. */
  const PassMark: int := 65

  datatype TraineeSummary = TraineeSummary(
    traineeId: string,
    traineeName: string,
    exams: nat,
    avg: real,
    pass: nat,
    fail: int,
    lastDate: string)

  /** What the grouping loop collects for one trainee: the first name seen, every grade and every day. */
  datatype Group = Group(name: string, grades: seq<int>, dates: seq<string>)

  /** The monitor page's filter state. */
  datatype Filters = Filters(
    selectedIds: seq<string>,
    selectedNames: seq<string>,
    nameText: string,
    showPassed: bool,
    showFailed: bool)

  // ---- one trainee's summary -------------------------------------------------

  /** `grades.filter(g => g >= threshold).length`. */
  function CountAtLeast(grades: seq<int>, threshold: int): (n: nat)
    ensures n <= |grades|
  {
    if grades == [] then 0
    else CountAtLeast(grades[..|grades| - 1], threshold) + (if grades[|grades| - 1] >= threshold then 1 else 0)
  }

  /** `dates.sort().at(-1) ?? ''`: the last date in string order, or '' when there is none. */
  function LastDate(dates: seq<string>): string {
    if dates == [] then "" else Seqs.InsertionSort(dates, Text.StrLe)[|dates| - 1]
  }

  /** The last date is one of the dates, and no date comes after it. */
  lemma LastDateIsLatest(dates: seq<string>)
    requires dates != []
    ensures LastDate(dates) in dates
    ensures forall d :: d in dates ==> Text.StrLe(d, LastDate(dates))
  {
    var sorted := Seqs.InsertionSort(dates, Text.StrLe);
    Text.StrLeIsTotalPreorder();
    Seqs.InsertionSortCorrect(dates, Text.StrLe);
    assert sorted[|sorted| - 1] in multiset(dates);
    forall d | d in dates ensures Text.StrLe(d, LastDate(dates)) {
      assert d in multiset(sorted);
      var k :| 0 <= k < |sorted| && sorted[k] == d;
      if k < |sorted| - 1 {
        assert Text.StrLe(sorted[k], sorted[|sorted| - 1]);
      } else {
        Text.StrLeTotal(d, d);
      }
    }
  }

  /** The summary the source builds from one trainee's group. */
  function Summarize(id: string, g: Group): TraineeSummary {
    var exams := |g.grades|;
    var pass := CountAtLeast(g.grades, PassMark);
    TraineeSummary(id, g.name, exams, Seqs.Mean(g.grades), pass, exams - pass, LastDate(g.dates))
  }

  /** Everything the rows say about trainee `id`. */
  function GroupFor(rows: seq<TestResult>, id: string): Group {
    Group(FirstName(rows, id), GradesOf(rows, id), DaysOf(rows, id))
  }

  /** How one more row changes a trainee's group. */
  lemma GroupForSnoc(rows: seq<TestResult>, r: TestResult, id: string)
    ensures GroupFor(rows + [r], id) ==
      if r.traineeId != id then GroupFor(rows, id)
      else
        var g := GroupFor(rows, id);
        Group(if FirstOfTrainee(rows, id).None? then r.traineeName else g.name,
              g.grades + [r.grade], g.dates + [DayOf(r.date)])
  {
    assert (rows + [r])[..|rows|] == rows;
  }

  /**
   * The grouping loop's invariant: the map holds the group of every trainee
   * seen so far, and its keys in insertion order are the distinct ids.
   */
  ghost predicate GroupsMatch(rows: seq<TestResult>, groups: map<string, Group>, order: seq<string>) {
    && order == Seqs.Distinct(TraineeIds(rows))
    && (forall id :: id in groups <==> id in order)
    && (forall id :: id in groups ==> groups[id] == GroupFor(rows, id))
  }

  /** A row of a trainee not seen before starts that trainee's group and extends the order. */
  lemma GroupsStepNew(rows: seq<TestResult>, r: TestResult, groups: map<string, Group>, order: seq<string>)
    requires GroupsMatch(rows, groups, order) && r.traineeId !in groups
    ensures GroupsMatch(rows + [r], groups[r.traineeId := Group(r.traineeName, [r.grade], [DayOf(r.date)])], order + [r.traineeId])
  {
    NewOrder(rows, r, groups, order);
    NewGroupsAgree(rows, r, groups, order);
    NewKeys(rows, r, groups, order);
  }

  /** A further row of a known trainee extends that trainee's group only. */
  lemma GroupsStepSeen(rows: seq<TestResult>, r: TestResult, groups: map<string, Group>, order: seq<string>, e: Group)
    requires GroupsMatch(rows, groups, order) && r.traineeId in groups && groups[r.traineeId] == e
    ensures GroupsMatch(rows + [r], groups[r.traineeId := Group(e.name, e.grades + [r.grade], e.dates + [DayOf(r.date)])], order)
  {
    SeenOrder(rows, r, groups, order);
    SeenGroupsAgree(rows, r, groups, order, e);
    SeenKeys(rows, r, groups, order, e);
  }

  lemma NewGroupsAgree(rows: seq<TestResult>, r: TestResult, groups: map<string, Group>, order: seq<string>)
    requires GroupsMatch(rows, groups, order) && r.traineeId !in groups
    ensures var g2 := groups[r.traineeId := Group(r.traineeName, [r.grade], [DayOf(r.date)])];
            forall x :: x in g2 ==> g2[x] == GroupFor(rows + [r], x)
  {
    var g2 := groups[r.traineeId := Group(r.traineeName, [r.grade], [DayOf(r.date)])];
    forall x | x in g2 ensures g2[x] == GroupFor(rows + [r], x) {
      if x == r.traineeId {
        StepStartsGroup(rows, r, groups, order);
      } else {
        GroupForOtherTrainee(rows, r, x);
      }
    }
  }

  lemma SeenGroupsAgree(rows: seq<TestResult>, r: TestResult, groups: map<string, Group>, order: seq<string>, e: Group)
    requires GroupsMatch(rows, groups, order) && r.traineeId in groups && groups[r.traineeId] == e
    ensures var g2 := groups[r.traineeId := Group(e.name, e.grades + [r.grade], e.dates + [DayOf(r.date)])];
            forall x :: x in g2 ==> g2[x] == GroupFor(rows + [r], x)
  {
    var g2 := groups[r.traineeId := Group(e.name, e.grades + [r.grade], e.dates + [DayOf(r.date)])];
    forall x | x in g2 ensures g2[x] == GroupFor(rows + [r], x) {
      if x == r.traineeId {
        StepExtendsGroup(rows, r, groups, order);
      } else {
        GroupForOtherTrainee(rows, r, x);
      }
    }
  }

  lemma NewOrder(rows: seq<TestResult>, r: TestResult, groups: map<string, Group>, order: seq<string>)
    requires GroupsMatch(rows, groups, order) && r.traineeId !in groups
    ensures order + [r.traineeId] == Seqs.Distinct(TraineeIds(rows + [r]))
  {
    StepKeepsOrder(rows, r, order);
  }

  lemma SeenOrder(rows: seq<TestResult>, r: TestResult, groups: map<string, Group>, order: seq<string>)
    requires GroupsMatch(rows, groups, order) && r.traineeId in groups
    ensures order == Seqs.Distinct(TraineeIds(rows + [r]))
  {
    assert r.traineeId in order;
    StepKeepsOrder(rows, r, order);
  }

  lemma NewKeys(rows: seq<TestResult>, r: TestResult, groups: map<string, Group>, order: seq<string>)
    requires GroupsMatch(rows, groups, order) && r.traineeId !in groups
    ensures var g2 := groups[r.traineeId := Group(r.traineeName, [r.grade], [DayOf(r.date)])];
            forall x :: x in g2 <==> x in order + [r.traineeId]
  {
  }

  lemma SeenKeys(rows: seq<TestResult>, r: TestResult, groups: map<string, Group>, order: seq<string>, e: Group)
    requires GroupsMatch(rows, groups, order) && r.traineeId in groups
    ensures var g2 := groups[r.traineeId := Group(e.name, e.grades + [r.grade], e.dates + [DayOf(r.date)])];
            forall x :: x in g2 <==> x in order
  {
  }

  lemma GroupForOtherTrainee(rows: seq<TestResult>, r: TestResult, id: string)
    requires r.traineeId != id
    ensures GroupFor(rows + [r], id) == GroupFor(rows, id)
  {
    GroupForSnoc(rows, r, id);
  }

  lemma StepKeepsOrder(rows: seq<TestResult>, r: TestResult, order: seq<string>)
    requires order == Seqs.Distinct(TraineeIds(rows))
    ensures (if r.traineeId in order then order else order + [r.traineeId]) == Seqs.Distinct(TraineeIds(rows + [r]))
  {
    var rows1 := rows + [r];
    assert rows1[..|rows|] == rows;
    assert TraineeIds(rows1) == TraineeIds(rows) + [r.traineeId];
    assert TraineeIds(rows1)[..|rows|] == TraineeIds(rows);
  }

  lemma StepStartsGroup(rows: seq<TestResult>, r: TestResult, groups: map<string, Group>, order: seq<string>)
    requires GroupsMatch(rows, groups, order) && r.traineeId !in groups
    ensures Group(r.traineeName, [r.grade], [DayOf(r.date)]) == GroupFor(rows + [r], r.traineeId)
  {
    var id := r.traineeId;
    GroupForSnoc(rows, r, id);
    GradesAndDaysCount(rows, id);
    forall k | 0 <= k < |rows| ensures rows[k].traineeId != id {
      assert TraineeIds(rows)[k] == rows[k].traineeId;
    }
    assert FirstOfTrainee(rows, id).None?;
    assert GradesOf(rows, id) == [] && DaysOf(rows, id) == [];
  }

  lemma StepExtendsGroup(rows: seq<TestResult>, r: TestResult, groups: map<string, Group>, order: seq<string>)
    requires GroupsMatch(rows, groups, order) && r.traineeId in groups
    ensures var e := groups[r.traineeId];
            Group(e.name, e.grades + [r.grade], e.dates + [DayOf(r.date)]) == GroupFor(rows + [r], r.traineeId)
  {
    var id := r.traineeId;
    GroupForSnoc(rows, r, id);
    var j :| 0 <= j < |order| && order[j] == id;
    var k :| 0 <= k < |rows| && TraineeIds(rows)[k] == id;
    assert rows[k].traineeId == id;
    assert FirstOfTrainee(rows, id).Some?;
  }

  /** Summaries of the trainees `ids`, in that order. */
  function SummariesOf(rows: seq<TestResult>, ids: seq<string>): (r: seq<TraineeSummary>)
    ensures |r| == |ids|
  {
    if ids == [] then []
    else SummariesOf(rows, ids[..|ids| - 1]) + [Summarize(ids[|ids| - 1], GroupFor(rows, ids[|ids| - 1]))]
  }

  /** The `i`-th summary is the summary of the `i`-th trainee. */
  lemma {:induction false} SummariesOfAt(rows: seq<TestResult>, ids: seq<string>)
    ensures forall i :: 0 <= i < |ids| ==> SummariesOf(rows, ids)[i] == Summarize(ids[i], GroupFor(rows, ids[i]))
  {
    if ids != [] {
      var n := |ids| - 1;
      var prev := ids[..n];
      var last := Summarize(ids[n], GroupFor(rows, ids[n]));
      assert SummariesOf(rows, ids) == SummariesOf(rows, prev) + [last];
      SummariesOfAt(rows, prev);
      forall i | 0 <= i < |ids|
        ensures SummariesOf(rows, ids)[i] == Summarize(ids[i], GroupFor(rows, ids[i]))
      {
        if i < n {
          assert prev[i] == ids[i];
        }
      }
    }
  }

  /** The distinct trainee ids, in the order their first row appears. */
  function TraineeOrder(rows: seq<TestResult>): seq<string> {
    Seqs.Distinct(TraineeIds(rows))
  }

  /** The summaries before any filter: one per trainee, in first-encounter order. */
  function RawSummaries(rows: seq<TestResult>): seq<TraineeSummary> {
    SummariesOf(rows, TraineeOrder(rows))
  }

  // ---- the filters -------------------------------------------------------------

  function KeepIds(s: seq<TraineeSummary>, ids: seq<string>): seq<TraineeSummary> {
    Seqs.Filter(s, (x: TraineeSummary) => x.traineeId in ids)
  }

  function KeepNames(s: seq<TraineeSummary>, names: seq<string>): seq<TraineeSummary> {
    Seqs.Filter(s, (x: TraineeSummary) => x.traineeName in names)
  }

  predicate NameMatches(x: TraineeSummary, text: string) {
    Text.Contains(Text.ToLower(x.traineeName), Text.ToLower(text))
  }

  function KeepNameText(s: seq<TraineeSummary>, text: string): seq<TraineeSummary> {
    Seqs.Filter(s, (x: TraineeSummary) => NameMatches(x, text))
  }

  function KeepFailing(s: seq<TraineeSummary>): seq<TraineeSummary> {
    Seqs.Filter(s, (x: TraineeSummary) => x.fail > 0)
  }

  function KeepClean(s: seq<TraineeSummary>): seq<TraineeSummary> {
    Seqs.Filter(s, (x: TraineeSummary) => x.fail == 0)
  }

  /** The pass/fail switches: a trainee counts as passed when none of their exams failed. */
  predicate PassFailAdmits(x: TraineeSummary, showPassed: bool, showFailed: bool) {
    if !showPassed && !showFailed then false
    else if !showPassed then x.fail > 0
    else if !showFailed then x.fail == 0
    else true
  }

  /** A summary survives the filters: every filter that is set admits it. */
  predicate Admits(f: Filters, x: TraineeSummary) {
    && IdsAdmit(f, x)
    && NamesAdmit(f, x)
    && TextAdmits(f, x)
    && PassFailAdmits(x, f.showPassed, f.showFailed)
  }

  predicate IdsAdmit(f: Filters, x: TraineeSummary) {
    |f.selectedIds| > 0 ==> x.traineeId in f.selectedIds
  }

  predicate NamesAdmit(f: Filters, x: TraineeSummary) {
    |f.selectedNames| > 0 ==> x.traineeName in f.selectedNames
  }

  predicate TextAdmits(f: Filters, x: TraineeSummary) {
    f.nameText != "" ==> NameMatches(x, f.nameText)
  }

  predicate AvgAtLeast(a: TraineeSummary, b: TraineeSummary) {
    a.avg >= b.avg
  }

  /** `out.sort((a, b) => b.avg - a.avg)`: stable, highest mean first. */
  function SortByAvgDesc(s: seq<TraineeSummary>): seq<TraineeSummary> {
    Seqs.InsertionSort(s, AvgAtLeast)
  }

  /** The filters in the order the source applies them, each only when set. */
  function Narrow(raw: seq<TraineeSummary>, f: Filters): seq<TraineeSummary> {
    PassFailStage(TextStage(NamesStage(IdsStage(raw, f), f), f), f)
  }

  function IdsStage(s: seq<TraineeSummary>, f: Filters): seq<TraineeSummary> {
    if |f.selectedIds| > 0 then KeepIds(s, f.selectedIds) else s
  }

  function NamesStage(s: seq<TraineeSummary>, f: Filters): seq<TraineeSummary> {
    if |f.selectedNames| > 0 then KeepNames(s, f.selectedNames) else s
  }

  function TextStage(s: seq<TraineeSummary>, f: Filters): seq<TraineeSummary> {
    if f.nameText != "" then KeepNameText(s, f.nameText) else s
  }

  function PassFailStage(s: seq<TraineeSummary>, f: Filters): seq<TraineeSummary> {
    if !f.showPassed && !f.showFailed then []
    else if !f.showPassed then KeepFailing(s)
    else if !f.showFailed then KeepClean(s)
    else s
  }

  /** The `summaries` view. */
  function SummaryView(rows: seq<TestResult>, f: Filters): seq<TraineeSummary> {
    SortByAvgDesc(Narrow(RawSummaries(rows), f))
  }

  // ---- what the view promises ------------------------------------------------------

  /**
   * One summary per distinct trainee id: no trainee twice, every trainee of
   * the rows summarised, nothing else, listed in the order of each trainee's
   * first row.
   */
  lemma OneSummaryPerTrainee(rows: seq<TestResult>)
    ensures var raw := RawSummaries(rows);
            && (forall i, j :: 0 <= i < j < |raw| ==> raw[i].traineeId != raw[j].traineeId)
            && (forall k :: 0 <= k < |rows| ==> exists i :: 0 <= i < |raw| && raw[i].traineeId == rows[k].traineeId)
            && (forall i :: 0 <= i < |raw| ==> raw[i].traineeId in TraineeIds(rows))
            && (forall i, j :: 0 <= i < j < |raw| ==>
                  Seqs.FirstIndex(TraineeIds(rows), raw[i].traineeId) < Seqs.FirstIndex(TraineeIds(rows), raw[j].traineeId))
  {
    RawIdsFollowOrder(rows);
    TraineeOrderFacts(rows);
  }

  lemma RawIdsFollowOrder(rows: seq<TestResult>)
    ensures |RawSummaries(rows)| == |TraineeOrder(rows)|
    ensures forall i :: 0 <= i < |RawSummaries(rows)| ==> RawSummaries(rows)[i].traineeId == TraineeOrder(rows)[i]
  {
    SummariesOfAt(rows, TraineeOrder(rows));
  }

  /** The distinct ids: no repeats, exactly the rows' ids, in first-encounter order. */
  lemma TraineeOrderFacts(rows: seq<TestResult>)
    ensures var order := TraineeOrder(rows);
            && (forall i, j :: 0 <= i < j < |order| ==> order[i] != order[j])
            && (forall k :: 0 <= k < |rows| ==> rows[k].traineeId in order)
            && (forall i :: 0 <= i < |order| ==> order[i] in TraineeIds(rows))
            && (forall i, j :: 0 <= i < j < |order| ==>
                  Seqs.FirstIndex(TraineeIds(rows), order[i]) < Seqs.FirstIndex(TraineeIds(rows), order[j]))
  {
    var ids := TraineeIds(rows);
    Seqs.DistinctInEncounterOrder(ids);
    forall k | 0 <= k < |rows| ensures rows[k].traineeId in TraineeOrder(rows) {
      assert ids[k] == rows[k].traineeId;
    }
  }

  lemma SummaryFacts(rows: seq<TestResult>, i: int)
    requires 0 <= i < |RawSummaries(rows)|
    ensures var s := RawSummaries(rows)[i];
            s.traineeId == TraineeOrder(rows)[i] && SummarizesTrainee(rows, s.traineeId, s)
  {
    var id := TraineeOrder(rows)[i];
    SummariesOfAt(rows, TraineeOrder(rows));
    assert id in TraineeIds(rows);
    TraineeSummaryFacts(rows, id);
  }

  /** What the summary of trainee `id` says about that trainee's rows. */
  ghost predicate SummarizesTrainee(rows: seq<TestResult>, id: string, s: TraineeSummary) {
    && s.exams == CountOf(rows, id) > 0
    && s.pass == CountAtLeast(GradesOf(rows, id), PassMark)
    && s.pass + s.fail == s.exams && s.fail >= 0
    && s.avg == Seqs.Mean(GradesOf(rows, id))
    && FirstOfTrainee(rows, id).Some? && s.traineeName == FirstOfTrainee(rows, id).value.traineeName
    && s.lastDate in DaysOf(rows, id)
    && (forall d :: d in DaysOf(rows, id) ==> Text.StrLe(d, s.lastDate))
  }

  lemma TraineeSummaryFacts(rows: seq<TestResult>, id: string)
    requires id in TraineeIds(rows)
    ensures SummarizesTrainee(rows, id, Summarize(id, GroupFor(rows, id)))
  {
    GradesAndDaysCount(rows, id);
    var k :| 0 <= k < |rows| && TraineeIds(rows)[k] == id;
    assert rows[k].traineeId == id;
    var g := GroupFor(rows, id);
    var s := Summarize(id, g);
    LastDateIsLatest(g.dates);
    assert s.exams == CountOf(rows, id) > 0;
    assert s.pass == CountAtLeast(GradesOf(rows, id), PassMark);
    assert s.pass + s.fail == s.exams && s.fail >= 0;
    assert FirstOfTrainee(rows, id).Some? && s.traineeName == FirstOfTrainee(rows, id).value.traineeName;
    assert s.lastDate in DaysOf(rows, id);
    assert forall d :: d in DaysOf(rows, id) ==> Text.StrLe(d, s.lastDate);
  }

  /** The store's own example rows: Alice with 70 and 60, then Bob with 80 and 85. */
  function ExampleRows(): seq<TestResult> {
    [ TestResult("1", "T001", "Alice", "Math", 70, "2025-01-01"),
      TestResult("2", "T001", "Alice", "Physics", 60, "2025-01-02"),
      TestResult("3", "T002", "Bob", "Math", 80, "2025-01-03"),
      TestResult("4", "T002", "Bob", "Physics", 85, "2025-01-04") ]
  }

  /** The group of trainee `id` in the example, built one row at a time. */
  lemma ExampleGroup(id: string)
    ensures GroupFor(ExampleRows(), id) ==
            if id == "T001" then Group("Alice", [70, 60], ["2025-01-01", "2025-01-02"])
            else if id == "T002" then Group("Bob", [80, 85], ["2025-01-03", "2025-01-04"])
            else Group("", [], [])
  {
    var a, b, c, d := ExampleRows()[0], ExampleRows()[1], ExampleRows()[2], ExampleRows()[3];
    var r1, r2, r3 := [a], [a, b], [a, b, c];
    assert r1 == [] + [a] && r2 == r1 + [b] && r3 == r2 + [c] && ExampleRows() == r3 + [d];
    GroupForSnoc([], a, id);
    GroupForSnoc(r1, b, id);
    GroupForSnoc(r2, c, id);
    GroupForSnoc(r3, d, id);
  }

  /** The later of two dates in order is the last date. */
  lemma LastOfTwo(x: string, y: string)
    requires Text.StrLe(x, y)
    ensures LastDate([x, y]) == y
  {
    assert [x, y][..1] == [x];
    assert [x][..0] == [];
    assert Seqs.InsertionSort([x], Text.StrLe) == [x];
    assert Seqs.Insert([x], y, Text.StrLe) == [x, y];
  }

  lemma ExampleDatesInOrder()
    ensures Text.StrLe("2025-01-01", "2025-01-02") && Text.StrLe("2025-01-03", "2025-01-04")
  {
    var p := "2025-01-0";
    assert "2025-01-01" == p + "1" && "2025-01-02" == p + "2";
    assert "2025-01-03" == p + "3" && "2025-01-04" == p + "4";
    Text.StrLeSharedPrefix(p, "1", "2");
    Text.StrLeSharedPrefix(p, "3", "4");
  }

  /** The tallies of the two example groups. */
  lemma ExampleTallies()
    ensures Summarize("T002", Group("Bob", [80, 85], ["2025-01-03", "2025-01-04"])) ==
            TraineeSummary("T002", "Bob", 2, 82.5, 2, 0, "2025-01-04")
    ensures Summarize("T001", Group("Alice", [70, 60], ["2025-01-01", "2025-01-02"])) ==
            TraineeSummary("T001", "Alice", 2, 65.0, 1, 1, "2025-01-02")
  {
    ExampleDatesInOrder();
    LastOfTwo("2025-01-01", "2025-01-02");
    LastOfTwo("2025-01-03", "2025-01-04");
    TwoGrades(80, 85);
    TwoGrades(70, 60);
  }

  /** The count and the mean of two grades. */
  lemma TwoGrades(x: int, y: int)
    ensures CountAtLeast([x, y], PassMark) == (if x >= PassMark then 1 else 0) + (if y >= PassMark then 1 else 0)
    ensures Seqs.Mean([x, y]) == (x + y) as real / 2.0
  {
    assert [x, y][..1] == [x] && [x][..0] == [];
    Seqs.SumSnoc([], x);
    Seqs.SumSnoc([x], y);
    assert [] + [x] == [x] && [x] + [y] == [x, y];
  }

  /**
   * Bob averages 82.5, passes both exams and was last examined on
   * 2025-01-04; Alice averages 65, passing one exam and failing the other.
   */
  lemma ExampleSummaries()
    ensures Summarize("T002", GroupFor(ExampleRows(), "T002")) ==
            TraineeSummary("T002", "Bob", 2, 82.5, 2, 0, "2025-01-04")
    ensures Summarize("T001", GroupFor(ExampleRows(), "T001")) ==
            TraineeSummary("T001", "Alice", 2, 65.0, 1, 1, "2025-01-02")
  {
    ExampleGroup("T001");
    ExampleGroup("T002");
    ExampleTallies();
  }

  /** The example's trainees in first-encounter order: Alice's id, then Bob's. */
  lemma ExampleOrder()
    ensures TraineeOrder(ExampleRows()) == ["T001", "T002"]
  {
    var ids := TraineeIds(ExampleRows());
    assert ids == ["T001", "T001", "T002", "T002"];
    var i1, i2, i3 := ["T001"], ["T001", "T001"], ["T001", "T001", "T002"];
    assert i1[..0] == [] && i2[..1] == i1 && i3[..2] == i2 && ids[..3] == i3;
    assert Seqs.Distinct(i1) == ["T001"];
    assert Seqs.Distinct(i2) == ["T001"];
    assert Seqs.Distinct(i3) == ["T001", "T002"];
  }

  /** Before filtering, the example's summaries are Alice's, then Bob's. */
  lemma ExampleRaw()
    ensures RawSummaries(ExampleRows()) ==
            [TraineeSummary("T001", "Alice", 2, 65.0, 1, 1, "2025-01-02"),
             TraineeSummary("T002", "Bob", 2, 82.5, 2, 0, "2025-01-04")]
  {
    ExampleOrder();
    ExampleSummaries();
    SummariesOfAt(ExampleRows(), ["T001", "T002"]);
  }

  /** Two summaries, the second with the higher mean, change places. */
  lemma SortSwapsTwo(a: TraineeSummary, b: TraineeSummary)
    requires a.avg < b.avg
    ensures SortByAvgDesc([a, b]) == [b, a]
  {
    assert [a, b][..1] == [a] && [a][..0] == [];
    assert Seqs.InsertionSort([a], AvgAtLeast) == [a];
    assert Seqs.Insert([a], b, AvgAtLeast) == [b, a];
  }

  /**
   * With no filter set and both switches on, the view lists Bob (82.5) before
   * Alice (65): highest mean first.
   */
  lemma ExampleView()
    ensures SummaryView(ExampleRows(), Filters([], [], "", true, true)) ==
            [TraineeSummary("T002", "Bob", 2, 82.5, 2, 0, "2025-01-04"),
             TraineeSummary("T001", "Alice", 2, 65.0, 1, 1, "2025-01-02")]
  {
    ExampleRaw();
    SortSwapsTwo(TraineeSummary("T001", "Alice", 2, 65.0, 1, 1, "2025-01-02"),
                 TraineeSummary("T002", "Bob", 2, 82.5, 2, 0, "2025-01-04"));
  }

  /** A summary is shown exactly when it is a raw summary every set filter admits. */
  lemma SummaryViewMembership(rows: seq<TestResult>, f: Filters)
    ensures forall x :: x in SummaryView(rows, f) <==> x in RawSummaries(rows) && Admits(f, x)
  {
    NarrowMembership(RawSummaries(rows), f);
    SortKeepsMembers(Narrow(RawSummaries(rows), f));
  }

  lemma NarrowMembership(raw: seq<TraineeSummary>, f: Filters)
    ensures forall x :: x in Narrow(raw, f) <==> x in raw && Admits(f, x)
  {
    var a := IdsStage(raw, f);
    var b := NamesStage(a, f);
    var c := TextStage(b, f);
    IdsStageMembers(raw, f);
    NamesStageMembers(a, f);
    TextStageMembers(b, f);
    PassFailStageMembers(c, f);
  }

  lemma IdsStageMembers(s: seq<TraineeSummary>, f: Filters)
    ensures forall x :: x in IdsStage(s, f) <==> x in s && IdsAdmit(f, x)
  {
    Seqs.FilterMembership(s, (x: TraineeSummary) => x.traineeId in f.selectedIds);
  }

  lemma NamesStageMembers(s: seq<TraineeSummary>, f: Filters)
    ensures forall x :: x in NamesStage(s, f) <==> x in s && NamesAdmit(f, x)
  {
    Seqs.FilterMembership(s, (x: TraineeSummary) => x.traineeName in f.selectedNames);
  }

  lemma TextStageMembers(s: seq<TraineeSummary>, f: Filters)
    ensures forall x :: x in TextStage(s, f) <==> x in s && TextAdmits(f, x)
  {
    Seqs.FilterMembership(s, (x: TraineeSummary) => NameMatches(x, f.nameText));
  }

  lemma PassFailStageMembers(s: seq<TraineeSummary>, f: Filters)
    ensures forall x :: x in PassFailStage(s, f) <==> x in s && PassFailAdmits(x, f.showPassed, f.showFailed)
  {
    if !f.showPassed && f.showFailed {
      Seqs.FilterMembership(s, (x: TraineeSummary) => x.fail > 0);
    } else if f.showPassed && !f.showFailed {
      Seqs.FilterMembership(s, (x: TraineeSummary) => x.fail == 0);
    }
  }

  /** Sorting neither adds nor drops a summary. */
  lemma SortKeepsMembers(s: seq<TraineeSummary>)
    ensures forall x :: x in SortByAvgDesc(s) <==> x in s
  {
    AvgOrderIsTotalPreorder();
    Seqs.InsertionSortCorrect(s, AvgAtLeast);
    forall x ensures x in SortByAvgDesc(s) <==> x in s {
      assert x in SortByAvgDesc(s) <==> x in multiset(SortByAvgDesc(s));
      assert x in s <==> x in multiset(s);
    }
  }

  lemma AvgOrderIsTotalPreorder()
    ensures Seqs.TotalPreorder(AvgAtLeast)
  {
  }

  /** The view is ordered by mean grade, highest first. */
  lemma SummaryViewSorted(rows: seq<TestResult>, f: Filters)
    ensures forall i, j :: 0 <= i < j < |SummaryView(rows, f)| ==> SummaryView(rows, f)[i].avg >= SummaryView(rows, f)[j].avg
  {
    AvgOrderIsTotalPreorder();
    Seqs.InsertionSortCorrect(Narrow(RawSummaries(rows), f), AvgAtLeast);
  }

  /** The summaries whose mean is `avg`. */
  function AvgIs(avg: real): TraineeSummary -> bool {
    (s: TraineeSummary) => s.avg == avg
  }

  /**
   * The sort is stable: summaries with the same mean keep the order the
   * filters left them in, which is the trainees' first-encounter order.
   */
  lemma SummaryViewStable(rows: seq<TestResult>, f: Filters, avg: real)
    ensures Seqs.Filter(SummaryView(rows, f), AvgIs(avg)) == Seqs.Filter(Narrow(RawSummaries(rows), f), AvgIs(avg))
  {
    Seqs.InsertionSortStable(Narrow(RawSummaries(rows), f), AvgAtLeast, AvgIs(avg));
  }

  /** With both pass/fail switches off nothing is shown. */
  lemma NothingWhenBothHidden(rows: seq<TestResult>, f: Filters)
    requires !f.showPassed && !f.showFailed
    ensures SummaryView(rows, f) == []
  {
  }

  // ---- the store -----------------------------------------------------------------

  /** The first loop of `summaries`: a `Map` from trainee id to that trainee's group. */
  method GroupByTrainee(rows: seq<TestResult>) returns (groups: map<string, Group>, order: seq<string>)
    ensures GroupsMatch(rows, groups, order)
  {
    groups := map[];
    order := [];
    var i := 0;
    assert GroupsMatch(rows[..0], groups, order) by {
      assert rows[..0] == [];
    }
    while i < |rows|
      invariant 0 <= i <= |rows|
      invariant GroupsMatch(rows[..i], groups, order)
    {
      Seqs.TakeSnoc(rows, i);
      groups, order := AbsorbRow(rows[..i], groups, order, rows[i]);
      i := i + 1;
    }
    assert rows[..i] == rows;
  }

  /** One pass of that loop: get or create the row's trainee entry, then push the grade and the day. */
  method AbsorbRow(ghost seen: seq<TestResult>, groups: map<string, Group>, order: seq<string>, r: TestResult)
      returns (groups': map<string, Group>, order': seq<string>)
    requires GroupsMatch(seen, groups, order)
    ensures GroupsMatch(seen + [r], groups', order')
  {
    var e := if r.traineeId in groups then groups[r.traineeId] else Group(r.traineeName, [], []);
    if r.traineeId !in groups {
      GroupsStepNew(seen, r, groups, order);
      assert e.grades + [r.grade] == [r.grade] && e.dates + [DayOf(r.date)] == [DayOf(r.date)];
      order' := order + [r.traineeId];
    } else {
      GroupsStepSeen(seen, r, groups, order, e);
      order' := order;
    }
    groups' := groups[r.traineeId := Group(e.name, e.grades + [r.grade], e.dates + [DayOf(r.date)])];
  }

  /** Every listed trainee has an entry, and it is that trainee's group. */
  lemma GroupsOfListedTrainees(rows: seq<TestResult>, groups: map<string, Group>, order: seq<string>)
    requires GroupsMatch(rows, groups, order)
    ensures forall k :: 0 <= k < |order| ==> order[k] in groups && groups[order[k]] == GroupFor(rows, order[k])
  {
  }

  /** The second loop of `summaries`: one summary per map entry, in insertion order. */
  method SummarizeGroups(rows: seq<TestResult>, groups: map<string, Group>, order: seq<string>) returns (raw: seq<TraineeSummary>)
    requires forall k :: 0 <= k < |order| ==> order[k] in groups && groups[order[k]] == GroupFor(rows, order[k])
    ensures raw == SummariesOf(rows, order)
  {
    raw := [];
    var k := 0;
    while k < |order|
      invariant 0 <= k <= |order|
      invariant raw == SummariesOf(rows, order[..k])
    {
      assert order[..k + 1][..k] == order[..k];
      raw := raw + [Summarize(order[k], groups[order[k]])];
      k := k + 1;
    }
    assert order[..k] == order;
  }

  class MonitorStore {
    const data: DataPageState.DataPageStore
    var selectedIds: seq<string>
    var selectedNames: seq<string>
    var nameText: string
    var showPassed: bool
    var showFailed: bool

    /** Reads the record store's list; no filter set, both pass/fail switches on. */
    constructor (data: DataPageState.DataPageStore)
      ensures this.data == data
      ensures selectedIds == [] && selectedNames == [] && nameText == ""
      ensures showPassed && showFailed
    {
      this.data := data;
      selectedIds := [];
      selectedNames := [];
      nameText := "";
      showPassed := true;
      showFailed := true;
    }

    function CurrentFilters(): Filters
      reads this
    {
      Filters(selectedIds, selectedNames, nameText, showPassed, showFailed)
    }

    /** The pass mark the page shows. */
    function PassThreshold(): (t: int)
      ensures t == 65
    {
      PassMark
    }

    /** `setSelectedNames(v)`: a null list selects nothing. */
    method SetSelectedNames(v: Option<seq<string>>)
      modifies this
      ensures selectedNames == v.GetOr([])
      ensures selectedIds == old(selectedIds) && nameText == old(nameText)
      ensures showPassed == old(showPassed) && showFailed == old(showFailed)
    {
      selectedNames := v.GetOr([]);
    }

    /** `applyName(text)`: the name filter is the trimmed text, '' for null. */
    method ApplyName(text: Option<string>)
      modifies this
      ensures nameText == Text.Trim(text.GetOr(""))
      ensures selectedIds == old(selectedIds) && selectedNames == old(selectedNames)
      ensures showPassed == old(showPassed) && showFailed == old(showFailed)
    {
      nameText := Text.Trim(text.GetOr(""));
    }

    /** `allIds`: the distinct trainee ids in string order. */
    method AllIds() returns (ids: seq<string>)
      ensures ids == Text.SortedDistinct(TraineeIds(data.results))
    {
      var rows := data.results;
      var seen: seq<string> := [];
      var i := 0;
      while i < |rows|
        invariant 0 <= i <= |rows|
        invariant seen == Seqs.Distinct(TraineeIds(rows[..i]))
      {
        assert Seqs.Distinct(TraineeIds(rows[..i + 1])) ==
               if rows[i].traineeId in seen then seen else seen + [rows[i].traineeId] by {
          Seqs.TakeSnoc(rows, i);
          assert TraineeIds(rows[..i + 1])[..i] == TraineeIds(rows[..i]);
        }
        if rows[i].traineeId !in seen {
          seen := seen + [rows[i].traineeId];
        }
        i := i + 1;
      }
      assert rows[..i] == rows;
      ids := Seqs.InsertionSort(seen, Text.StrLe);
    }

    /** `allNames`: the distinct non-empty trainee names in string order. */
    method AllNames() returns (names: seq<string>)
      ensures names == Text.SortedDistinct(NonEmptyNames(data.results))
    {
      var rows := data.results;
      var seen: seq<string> := [];
      var i := 0;
      while i < |rows|
        invariant 0 <= i <= |rows|
        invariant seen == Seqs.Distinct(NonEmptyNames(rows[..i]))
      {
        Seqs.TakeSnoc(rows, i);
        assert rows[..i + 1][..i] == rows[..i];
        var before := NonEmptyNames(rows[..i]);
        if rows[i].traineeName != "" {
          assert NonEmptyNames(rows[..i + 1]) == before + [rows[i].traineeName];
          assert (before + [rows[i].traineeName])[..|before|] == before;
        } else {
          assert NonEmptyNames(rows[..i + 1]) == before;
        }
        if rows[i].traineeName != "" && rows[i].traineeName !in seen {
          seen := seen + [rows[i].traineeName];
        }
        i := i + 1;
      }
      assert rows[..i] == rows;
      names := Seqs.InsertionSort(seen, Text.StrLe);
    }

    /** The `summaries` view, computed the way the source does. */
    method Summaries() returns (out: seq<TraineeSummary>)
      ensures out == SummaryView(data.results, CurrentFilters())
    {
      var rows := data.results;
      var groups, order := GroupByTrainee(rows);
      GroupsOfListedTrainees(rows, groups, order);
      var raw := SummarizeGroups(rows, groups, order);
      out := raw;
      if |selectedIds| > 0 {
        out := KeepIds(out, selectedIds);
      }
      if |selectedNames| > 0 {
        out := KeepNames(out, selectedNames);
      }
      if nameText != "" {
        out := KeepNameText(out, nameText);
      }
      if !showPassed && !showFailed {
        out := [];
      } else if !showPassed {
        out := KeepFailing(out);
      } else if !showFailed {
        out := KeepClean(out);
      }
      out := SortByAvgDesc(out);
    }
  }

  /** The id choices: in string order, no repeats, exactly the trainees of the rows. */
  lemma IdChoices(rows: seq<TestResult>)
    ensures var ids := Text.SortedDistinct(TraineeIds(rows));
            && (forall i, j :: 0 <= i < j < |ids| ==> Text.StrLe(ids[i], ids[j]) && ids[i] != ids[j])
            && (forall x :: x in ids <==> exists k :: 0 <= k < |rows| && rows[k].traineeId == x)
  {
    Text.SortedDistinctSpec(TraineeIds(rows));
    TraineeIdsMembers(rows);
  }

  lemma TraineeIdsMembers(rows: seq<TestResult>)
    ensures forall x :: x in TraineeIds(rows) <==> exists k :: 0 <= k < |rows| && rows[k].traineeId == x
  {
    forall x ensures x in TraineeIds(rows) <==> exists k :: 0 <= k < |rows| && rows[k].traineeId == x {
      if x in TraineeIds(rows) {
        var k :| 0 <= k < |rows| && TraineeIds(rows)[k] == x;
      }
    }
  }

  /** The name choices: in string order, no repeats, exactly the non-empty names of the rows. */
  lemma NameChoices(rows: seq<TestResult>)
    ensures var names := Text.SortedDistinct(NonEmptyNames(rows));
            && (forall i, j :: 0 <= i < j < |names| ==> Text.StrLe(names[i], names[j]) && names[i] != names[j])
            && (forall x :: x in names <==> x != "" && exists k :: 0 <= k < |rows| && rows[k].traineeName == x)
  {
    Text.SortedDistinctSpec(NonEmptyNames(rows));
    NonEmptyNamesSpec(rows);
  }

  /** The non-empty trainee names of the rows, in order. */
  function NonEmptyNames(rows: seq<TestResult>): seq<string> {
    if rows == [] then []
    else NonEmptyNames(rows[..|rows| - 1]) + (if rows[|rows| - 1].traineeName != "" then [rows[|rows| - 1].traineeName] else [])
  }

  lemma {:induction false} NonEmptyNamesSpec(rows: seq<TestResult>)
    ensures forall x :: x in NonEmptyNames(rows) <==> x != "" && exists k :: 0 <= k < |rows| && rows[k].traineeName == x
  {
    if rows != [] {
      var n := |rows| - 1;
      NonEmptyNamesSpec(rows[..n]);
      forall x ensures x in NonEmptyNames(rows) <==> x != "" && exists k :: 0 <= k < |rows| && rows[k].traineeName == x {
        if x != "" && exists k :: 0 <= k < |rows| && rows[k].traineeName == x {
          var k :| 0 <= k < |rows| && rows[k].traineeName == x;
          if k < n {
            assert rows[..n][k].traineeName == x;
          }
        }
        if x in NonEmptyNames(rows[..n]) {
          var k :| 0 <= k < n && rows[..n][k].traineeName == x;
          assert rows[k].traineeName == x;
        }
      }
    }
  }
}
