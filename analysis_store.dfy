/**
 * The analysis page's store: which two of the three charts are shown, the
 * trainee and subject selections that narrow the records, and the series each
 * chart plots. Averages are exact; the two-decimal rounding the charts apply
 * is not modelled.
 */
module Analysis {
  import opened Wrappers
  import opened Records
  import Seqs
  import Text
  import Grouping
  import DataPageState

  /** chart1 = average per trainee, chart2 = progress over time, chart3 = average per subject. */
  datatype ChartKey = Chart1 | Chart2 | Chart3

  /** One plotted line: its legend and one point per label, `None` where there is a gap. */
  datatype LineSeries = LineSeries(legend: string, data: seq<Option<real>>)

  datatype ChartData =
    | BarChart(labels: seq<string>, title: string, values: seq<real>)
    | LineChart(labels: seq<string>, series: seq<LineSeries>)

  datatype ChartType = Bar | Line

  /** What `getChartConf` hands the page (the constant option objects left out). */
  datatype ChartConf = ChartConf(kind: ChartType, data: ChartData)

  /** A `{ id, name }` entry of the trainee picker. */
  datatype TraineeRef = TraineeRef(id: string, name: string)

  // ---- the hidden chart ------------------------------------------------------------

  /** `hiddenChart`: the first of chart1, chart2, chart3 that neither slot shows. */
  function HiddenChart(left: ChartKey, right: ChartKey): (h: ChartKey)
    ensures h != left && h != right
    ensures h != Chart1 ==> Chart1 == left || Chart1 == right
    ensures h == Chart3 ==> Chart2 == left || Chart2 == right
  {
    if Chart1 != left && Chart1 != right then Chart1
    else if Chart2 != left && Chart2 != right then Chart2
    else Chart3
  }

  /** Two different slots and the hidden chart are the three charts. */
  lemma HiddenCompletesSlots(left: ChartKey, right: ChartKey)
    requires left != right
    ensures {left, right, HiddenChart(left, right)} == {Chart1, Chart2, Chart3}
  {
  }

  // ---- the selection ---------------------------------------------------------------

  /** A row the selections admit: an empty selection admits everything. */
  predicate Selected(r: TestResult, ids: seq<string>, subjects: seq<string>) {
    (|ids| == 0 || r.traineeId in ids) && (|subjects| == 0 || r.subject in subjects)
  }

  /** `filteredResults`: the id filter when ids are selected, then the subject filter when subjects are. */
  function FilteredResults(rows: seq<TestResult>, ids: seq<string>, subjects: seq<string>): seq<TestResult> {
    var byId := if |ids| > 0 then Seqs.Filter(rows, (r: TestResult) => r.traineeId in ids) else rows;
    if |subjects| > 0 then Seqs.Filter(byId, (r: TestResult) => r.subject in subjects) else byId
  }

  /**
   * The two filters amount to one: the rows, in their order, that both
   * selections admit. So a row is kept exactly when it is admitted.
   */
  lemma FilteredResultsSpec(rows: seq<TestResult>, ids: seq<string>, subjects: seq<string>)
    ensures FilteredResults(rows, ids, subjects) == Seqs.Filter(rows, (r: TestResult) => Selected(r, ids, subjects))
    ensures forall x :: x in FilteredResults(rows, ids, subjects) <==> x in rows && Selected(x, ids, subjects)
    ensures Seqs.IsSubsequence(FilteredResults(rows, ids, subjects), rows)
  {
    var byId := (r: TestResult) => r.traineeId in ids;
    var bySubject := (r: TestResult) => r.subject in subjects;
    var admitted := (r: TestResult) => Selected(r, ids, subjects);
    if |ids| > 0 && |subjects| > 0 {
      Seqs.FilterFilter(rows, byId, bySubject, admitted);
    } else if |ids| > 0 {
      Seqs.FilterCongruent(rows, byId, admitted);
    } else if |subjects| > 0 {
      Seqs.FilterCongruent(rows, bySubject, admitted);
    } else {
      Seqs.FilterAll(rows, admitted);
    }
    Seqs.FilterMembership(rows, admitted);
    Seqs.FilterIsSubsequence(rows, admitted);
  }

  // ---- pickers and names -------------------------------------------------------------

  /** `uniqueTraineeIds`: each trainee once, in first-encounter order, with the first name seen. */
  function TraineeRefs(rows: seq<TestResult>): (refs: seq<TraineeRef>)
    ensures |refs| == |Seqs.Distinct(TraineeIds(rows))|
  {
    var ids := Seqs.Distinct(TraineeIds(rows));
    seq(|ids|, k requires 0 <= k < |ids| => TraineeRef(ids[k], FirstName(rows, ids[k])))
  }

  /** No trainee is listed twice, and they are listed in the order they first appear. */
  lemma TraineeRefsInEncounterOrder(rows: seq<TestResult>)
    ensures forall i, j :: 0 <= i < j < |TraineeRefs(rows)| ==>
              TraineeRefs(rows)[i].id in TraineeIds(rows) && TraineeRefs(rows)[j].id in TraineeIds(rows) &&
              Seqs.FirstIndex(TraineeIds(rows), TraineeRefs(rows)[i].id) < Seqs.FirstIndex(TraineeIds(rows), TraineeRefs(rows)[j].id)
  {
    var ids := Seqs.Distinct(TraineeIds(rows));
    var refs := TraineeRefs(rows);
    Seqs.DistinctInEncounterOrder(TraineeIds(rows));
    forall i, j | 0 <= i < j < |refs|
      ensures refs[i].id in TraineeIds(rows) && refs[j].id in TraineeIds(rows)
      ensures Seqs.FirstIndex(TraineeIds(rows), refs[i].id) < Seqs.FirstIndex(TraineeIds(rows), refs[j].id)
    {
      assert refs[i].id == ids[i] && refs[j].id == ids[j];
    }
  }

  /** Every trainee of the rows is listed. */
  lemma TraineeRefsCoverRows(rows: seq<TestResult>)
    ensures forall k :: 0 <= k < |rows| ==> exists i :: 0 <= i < |TraineeRefs(rows)| && TraineeRefs(rows)[i].id == rows[k].traineeId
  {
    var ids := Seqs.Distinct(TraineeIds(rows));
    var refs := TraineeRefs(rows);
    forall k | 0 <= k < |rows| ensures exists i :: 0 <= i < |refs| && refs[i].id == rows[k].traineeId {
      assert TraineeIds(rows)[k] in ids;
      var i :| 0 <= i < |ids| && ids[i] == rows[k].traineeId;
      assert refs[i].id == rows[k].traineeId;
    }
  }

  /** Each listed name is the one on that trainee's first row. */
  lemma TraineeRefsFirstNames(rows: seq<TestResult>)
    ensures forall i :: 0 <= i < |TraineeRefs(rows)| ==>
              exists k :: 0 <= k < |rows| && rows[k].traineeId == TraineeRefs(rows)[i].id &&
                          TraineeRefs(rows)[i].name == rows[k].traineeName &&
                          forall j :: 0 <= j < k ==> rows[j].traineeId != rows[k].traineeId
  {
    var ids := Seqs.Distinct(TraineeIds(rows));
    var refs := TraineeRefs(rows);
    forall i | 0 <= i < |refs|
      ensures exists k :: 0 <= k < |rows| && rows[k].traineeId == refs[i].id &&
                          refs[i].name == rows[k].traineeName &&
                          forall j :: 0 <= j < k ==> rows[j].traineeId != rows[k].traineeId
    {
      var k := Seqs.FirstIndex(TraineeIds(rows), ids[i]);
      FirstOfTraineeIsFirst(rows, ids[i], k);
      assert refs[i].name == rows[k].traineeName;
    }
  }

  /** `traineeNameFor(id)`: the name on the first row of that trainee, or null. */
  function TraineeNameFor(rows: seq<TestResult>, id: string): (name: Option<string>)
    ensures name.None? <==> forall k :: 0 <= k < |rows| ==> rows[k].traineeId != id
  {
    match FirstOfTrainee(rows, id)
    case Some(r) => Some(r.traineeName)
    case None => None
  }

  /** The name found is the one on the trainee's first row. */
  lemma TraineeNameForFirstRow(rows: seq<TestResult>, id: string, k: int)
    requires 0 <= k < |rows| && rows[k].traineeId == id
    requires forall j :: 0 <= j < k ==> rows[j].traineeId != id
    ensures TraineeNameFor(rows, id) == Some(rows[k].traineeName)
  {
    FirstOfTraineeIsFirst(rows, id, k);
  }

  /** The subject picker: in string order, no repeats, exactly the subjects of the rows. */
  lemma SubjectChoices(rows: seq<TestResult>)
    ensures var subjects := Text.SortedDistinct(Subjects(rows));
            && (forall i, j :: 0 <= i < j < |subjects| ==> Text.StrLe(subjects[i], subjects[j]) && subjects[i] != subjects[j])
            && (forall x :: x in subjects <==> exists k :: 0 <= k < |rows| && rows[k].subject == x)
  {
    Text.SortedDistinctSpec(Subjects(rows));
    forall x ensures x in Subjects(rows) <==> exists k :: 0 <= k < |rows| && rows[k].subject == x {
      if x in Subjects(rows) {
        var k :| 0 <= k < |rows| && Subjects(rows)[k] == x;
      }
    }
  }

  // ---- chart3: average by subject ---------------------------------------------------------

  /** The grades of the rows about `subject`, in order. */
  function SubjectGrades(rows: seq<TestResult>, subject: string): seq<int> {
    if rows == [] then []
    else SubjectGrades(rows[..|rows| - 1], subject) + (if rows[|rows| - 1].subject == subject then [rows[|rows| - 1].grade] else [])
  }

  /** A subject has grades exactly when some row is about it. */
  lemma {:induction false} SubjectGradesPresent(rows: seq<TestResult>, subject: string)
    ensures |SubjectGrades(rows, subject)| > 0 <==> subject in Subjects(rows)
  {
    if rows != [] {
      var n := |rows| - 1;
      SubjectGradesPresent(rows[..n], subject);
      assert Subjects(rows) == Subjects(rows[..n]) + [rows[n].subject];
    }
  }

  /** Every grade of a subject is the grade of a row. */
  lemma {:induction false} SubjectGradesFromRows(rows: seq<TestResult>, subject: string)
    ensures forall g :: g in SubjectGrades(rows, subject) ==> exists k :: 0 <= k < |rows| && rows[k].grade == g
  {
    if rows != [] {
      var n := |rows| - 1;
      SubjectGradesFromRows(rows[..n], subject);
      forall g | g in SubjectGrades(rows, subject) ensures exists k :: 0 <= k < |rows| && rows[k].grade == g {
        if g in SubjectGrades(rows[..n], subject) {
          var k :| 0 <= k < n && rows[..n][k].grade == g;
          assert rows[k].grade == g;
        }
      }
    }
  }

  /** `barData`: the sorted distinct subjects, each with the mean of its grades. */
  function BarData(arr: seq<TestResult>): (c: ChartData)
    ensures c.BarChart? && |c.values| == |c.labels|
  {
    var subjects := Text.SortedDistinct(Subjects(arr));
    BarChart(subjects, "Average by subject",
             seq(|subjects|, i requires 0 <= i < |subjects| => Seqs.Mean(SubjectGrades(arr, subjects[i]))))
  }

  /** One bar per subject of the rows, in string order. */
  lemma BarLabels(arr: seq<TestResult>)
    ensures var c := BarData(arr);
            && (forall i, j :: 0 <= i < j < |c.labels| ==> Text.StrLe(c.labels[i], c.labels[j]) && c.labels[i] != c.labels[j])
            && (forall x :: x in c.labels <==> exists k :: 0 <= k < |arr| && arr[k].subject == x)
  {
    assert BarData(arr).labels == Text.SortedDistinct(Subjects(arr));
    SubjectChoices(arr);
  }

  /** Each bar is a true mean: its subject has grades, and the bar is their sum over their count. */
  lemma BarMeans(arr: seq<TestResult>)
    ensures var c := BarData(arr);
            forall i :: 0 <= i < |c.labels| ==>
              |SubjectGrades(arr, c.labels[i])| > 0 &&
              c.values[i] == Seqs.Sum(SubjectGrades(arr, c.labels[i])) as real / |SubjectGrades(arr, c.labels[i])| as real
  {
    var subjects := Text.SortedDistinct(Subjects(arr));
    assert BarData(arr).labels == subjects;
    forall i | 0 <= i < |subjects| ensures |SubjectGrades(arr, subjects[i])| > 0 {
      Text.SortedDistinctSpec(Subjects(arr));
      SubjectGradesPresent(arr, subjects[i]);
    }
  }

  /** When every grade lies in [lo, hi], so does every bar. */
  lemma BarValuesInRange(arr: seq<TestResult>, lo: int, hi: int)
    requires forall k :: 0 <= k < |arr| ==> lo <= arr[k].grade <= hi
    ensures forall i :: 0 <= i < |BarData(arr).values| ==> lo as real <= BarData(arr).values[i] <= hi as real
  {
    var c := BarData(arr);
    forall i | 0 <= i < |c.values| ensures lo as real <= c.values[i] <= hi as real {
      var grades := SubjectGrades(arr, c.labels[i]);
      Text.SortedDistinctSpec(Subjects(arr));
      SubjectGradesPresent(arr, c.labels[i]);
      SubjectGradesFromRows(arr, c.labels[i]);
      forall j | 0 <= j < |grades| ensures lo <= grades[j] <= hi {
        assert grades[j] in grades;
      }
      Seqs.MeanBounds(grades, lo, hi);
    }
  }

  // ---- chart1: average per trainee --------------------------------------------------------

  /** A legend or bar label: `name || id`. */
  function SeriesLabel(name: string, id: string): string {
    if name == "" then id else name
  }

  /** What `avgByTraineeData` collects per trainee: the first name seen and every grade. */
  datatype Scores = Scores(name: string, grades: seq<int>)

  function ScoresOf(rows: seq<TestResult>, id: string): Scores {
    Scores(FirstName(rows, id), GradesOf(rows, id))
  }

  /**
   * The loop step of `avgByTraineeData`: the entry got or created for `r`'s
   * trainee, with `r`'s grade pushed, is that trainee's entry after `r`; no
   * other trainee's entry changes.
   */
  lemma ScoresStep(rows: seq<TestResult>, r: TestResult, e: Scores)
    requires e == if r.traineeId in TraineeIds(rows) then ScoresOf(rows, r.traineeId) else Scores(r.traineeName, [])
    ensures Scores(e.name, e.grades + [r.grade]) == ScoresOf(rows + [r], r.traineeId)
    ensures forall id :: id != r.traineeId ==> ScoresOf(rows + [r], id) == ScoresOf(rows, id)
  {
    TraineeSnoc(rows, r, r.traineeId);
    GradesAndDaysCount(rows, r.traineeId);
    forall id | id != r.traineeId ensures ScoresOf(rows + [r], id) == ScoresOf(rows, id) {
      TraineeSnoc(rows, r, id);
    }
  }

  /** `avgByTraineeData`: one bar per trainee, in first-encounter order, valued by the mean grade. */
  function AvgByTrainee(arr: seq<TestResult>): (c: ChartData)
    ensures c.BarChart? && |c.labels| == |c.values| == |Seqs.Distinct(TraineeIds(arr))|
  {
    var ids := Seqs.Distinct(TraineeIds(arr));
    BarChart(seq(|ids|, k requires 0 <= k < |ids| => SeriesLabel(FirstName(arr, ids[k]), ids[k])),
             "Average per trainee",
             seq(|ids|, k requires 0 <= k < |ids| => Seqs.Mean(GradesOf(arr, ids[k]))))
  }

  /**
   * The bars follow the trainee picker entry for entry: bar `k` belongs to
   * picker entry `k` and is labelled with its name, or its id when the name
   * is empty.
   */
  lemma AvgByTraineeFollowsPicker(arr: seq<TestResult>)
    ensures |AvgByTrainee(arr).labels| == |TraineeRefs(arr)|
    ensures forall k :: 0 <= k < |TraineeRefs(arr)| ==>
              AvgByTrainee(arr).labels[k] == if TraineeRefs(arr)[k].name == "" then TraineeRefs(arr)[k].id else TraineeRefs(arr)[k].name
  {
  }

  /** Each bar is a true mean: its trainee has grades, and the bar is their sum over their count. */
  lemma AvgByTraineeMeans(arr: seq<TestResult>)
    ensures var ids := Seqs.Distinct(TraineeIds(arr));
            forall k :: 0 <= k < |ids| ==>
              |GradesOf(arr, ids[k])| > 0 &&
              AvgByTrainee(arr).values[k] == Seqs.Sum(GradesOf(arr, ids[k])) as real / |GradesOf(arr, ids[k])| as real
  {
    var ids := Seqs.Distinct(TraineeIds(arr));
    forall k | 0 <= k < |ids| ensures |GradesOf(arr, ids[k])| > 0 {
      TraineeHasGrades(arr, ids[k]);
    }
  }

  lemma TraineeHasGrades(rows: seq<TestResult>, id: string)
    requires id in TraineeIds(rows)
    ensures |GradesOf(rows, id)| > 0
  {
    GradesAndDaysCount(rows, id);
  }

  // ---- chart2: progress over time ---------------------------------------------------------

  type Positive = n: int | n > 0 witness 1

  /** The running total of one trainee's grades on one day, and how many there were. */
  datatype DayTotal = DayTotal(sum: int, n: Positive)

  /**
   * What `lineData` collects per trainee: the first name seen and a `Map`
   * from day to that day's total; `days` lists the map's keys in insertion
   * order, so the map's `size` is `|days|`.
   */
  datatype Progress = Progress(name: string, days: seq<string>, perDate: map<string, DayTotal>)

  /** One row's grade added to its day's total (a day not yet seen starts from nothing). */
  function AddGrade(p: Progress, r: TestResult): Progress {
    var d := DayOf(r.date);
    if d in p.perDate then
      Progress(p.name, p.days, p.perDate[d := DayTotal(p.perDate[d].sum + r.grade, p.perDate[d].n + 1)])
    else
      Progress(p.name, p.days + [d], p.perDate[d := DayTotal(r.grade, 1)])
  }

  /** The entry the loop of `lineData` holds for trainee `id` once it has read `rows`. */
  function ProgressOf(rows: seq<TestResult>, id: string): Progress {
    if rows == [] then Progress("", [], map[])
    else
      var prev := rows[..|rows| - 1];
      var r := rows[|rows| - 1];
      if r.traineeId != id then ProgressOf(prev, id)
      else AddGrade(if id in TraineeIds(prev) then ProgressOf(prev, id) else Progress(r.traineeName, [], map[]), r)
  }

  /**
   * The loop step of `lineData`: adding `r`'s grade to the entry got or
   * created for its trainee gives that trainee's entry after `r`; no other
   * trainee's entry changes.
   */
  lemma ProgressStep(rows: seq<TestResult>, r: TestResult, e: Progress)
    requires e == if r.traineeId in TraineeIds(rows) then ProgressOf(rows, r.traineeId) else Progress(r.traineeName, [], map[])
    ensures AddGrade(e, r) == ProgressOf(rows + [r], r.traineeId)
    ensures forall id :: id != r.traineeId ==> ProgressOf(rows + [r], id) == ProgressOf(rows, id)
  {
    assert (rows + [r])[..|rows|] == rows;
  }

  /** The grades trainee `id` got on day `d`, in order. */
  function DayGrades(rows: seq<TestResult>, id: string, d: string): seq<int> {
    if rows == [] then []
    else
      var r := rows[|rows| - 1];
      DayGrades(rows[..|rows| - 1], id, d) + (if r.traineeId == id && DayOf(r.date) == d then [r.grade] else [])
  }

  /** The day of every row, in order. */
  function AllDays(rows: seq<TestResult>): (r: seq<string>)
    ensures |r| == |rows| && forall i :: 0 <= i < |rows| ==> r[i] == DayOf(rows[i].date)
  {
    if rows == [] then [] else AllDays(rows[..|rows| - 1]) + [DayOf(rows[|rows| - 1].date)]
  }

  /** A trainee has grades on a day exactly when one of their rows falls on it. */
  lemma {:induction false} DayGradesPresent(rows: seq<TestResult>, id: string, d: string)
    ensures |DayGrades(rows, id, d)| > 0 <==> d in DaysOf(rows, id)
  {
    if rows != [] {
      var n := |rows| - 1;
      assert rows[..n] + [rows[n]] == rows;
      DayGradesPresent(rows[..n], id, d);
      TraineeSnoc(rows[..n], rows[n], id);
    }
  }

  /** The entry's days are the trainee's distinct days, in the order first seen. */
  lemma {:induction false} ProgressDays(rows: seq<TestResult>, id: string)
    ensures ProgressOf(rows, id).days == Seqs.Distinct(DaysOf(rows, id))
    ensures forall d :: d in ProgressOf(rows, id).perDate <==> d in DaysOf(rows, id)
  {
    if rows != [] {
      var n := |rows| - 1;
      var prev, r := rows[..n], rows[n];
      assert prev + [r] == rows;
      ProgressDays(prev, id);
      TraineeSnoc(prev, r, id);
      if r.traineeId == id {
        ProgressDaysStep(prev, r);
      } else {
        assert ProgressOf(rows, id) == ProgressOf(prev, id);
        assert DaysOf(rows, id) == DaysOf(prev, id);
      }
    }
  }

  /** A row of the trainee adds its day to the entry's days unless it is already there. */
  lemma ProgressDaysStep(prev: seq<TestResult>, r: TestResult)
    requires ProgressOf(prev, r.traineeId).days == Seqs.Distinct(DaysOf(prev, r.traineeId))
    requires forall d :: d in ProgressOf(prev, r.traineeId).perDate <==> d in DaysOf(prev, r.traineeId)
    ensures ProgressOf(prev + [r], r.traineeId).days == Seqs.Distinct(DaysOf(prev + [r], r.traineeId))
    ensures forall d :: d in ProgressOf(prev + [r], r.traineeId).perDate <==> d in DaysOf(prev + [r], r.traineeId)
  {
    var id := r.traineeId;
    TraineeSnoc(prev, r, id);
    var base := if id in TraineeIds(prev) then ProgressOf(prev, id) else Progress(r.traineeName, [], map[]);
    if id !in TraineeIds(prev) {
      GradesAndDaysCount(prev, id);
      assert DaysOf(prev, id) == [];
    }
    ProgressStep(prev, r, base);
    AddGradeDays(base, r, DaysOf(prev, id));
  }

  lemma AddGradeDays(p: Progress, r: TestResult, ds: seq<string>)
    requires p.days == Seqs.Distinct(ds)
    requires forall d :: d in p.perDate <==> d in ds
    ensures AddGrade(p, r).days == Seqs.Distinct(ds + [DayOf(r.date)])
    ensures forall d :: d in AddGrade(p, r).perDate <==> d in ds + [DayOf(r.date)]
  {
    assert (ds + [DayOf(r.date)])[..|ds|] == ds;
  }

  /** Each day's total is the sum and the count of the trainee's grades that day. */
  lemma {:induction false} ProgressTotals(rows: seq<TestResult>, id: string)
    ensures forall d :: d in ProgressOf(rows, id).perDate ==>
              ProgressOf(rows, id).perDate[d].sum == Seqs.Sum(DayGrades(rows, id, d)) &&
              ProgressOf(rows, id).perDate[d].n == |DayGrades(rows, id, d)|
  {
    if rows != [] {
      var n := |rows| - 1;
      var prev, r := rows[..n], rows[n];
      assert prev + [r] == rows;
      ProgressTotals(prev, id);
      if r.traineeId == id {
        var base := if id in TraineeIds(prev) then ProgressOf(prev, id) else Progress(r.traineeName, [], map[]);
        assert ProgressOf(rows, id) == AddGrade(base, r);
        ProgressDays(prev, id);
        if id !in TraineeIds(prev) {
          GradesAndDaysCount(prev, id);
        }
        forall d | d !in base.perDate ensures DayGrades(prev, id, d) == [] {
          DayGradesPresent(prev, id, d);
        }
        AddGradeTotals(base, prev, r);
      } else {
        assert ProgressOf(rows, id) == ProgressOf(prev, id);
        forall d ensures DayGrades(rows, id, d) == DayGrades(prev, id, d) {
        }
      }
    }
  }

  /** Adding the grade of `r` keeps every day's total equal to the sum and count of that day's grades. */
  lemma AddGradeTotals(p: Progress, prev: seq<TestResult>, r: TestResult)
    requires forall d :: d in p.perDate ==>
               p.perDate[d].sum == Seqs.Sum(DayGrades(prev, r.traineeId, d)) && p.perDate[d].n == |DayGrades(prev, r.traineeId, d)|
    requires forall d :: d !in p.perDate ==> DayGrades(prev, r.traineeId, d) == []
    ensures forall d :: d in AddGrade(p, r).perDate ==>
              AddGrade(p, r).perDate[d].sum == Seqs.Sum(DayGrades(prev + [r], r.traineeId, d)) &&
              AddGrade(p, r).perDate[d].n == |DayGrades(prev + [r], r.traineeId, d)|
  {
    var id, day := r.traineeId, DayOf(r.date);
    var q := AddGrade(p, r);
    assert (prev + [r])[..|prev|] == prev;
    forall d | d in q.perDate
      ensures q.perDate[d].sum == Seqs.Sum(DayGrades(prev + [r], id, d))
      ensures q.perDate[d].n == |DayGrades(prev + [r], id, d)|
    {
      var grades := DayGrades(prev, id, d);
      if d == day {
        assert DayGrades(prev + [r], id, d) == grades + [r.grade];
        Seqs.SumSnoc(grades, r.grade);
      } else {
        assert DayGrades(prev + [r], id, d) == grades;
      }
    }
  }

  /** The entry's name is the one on the trainee's first row. */
  lemma {:induction false} ProgressName(rows: seq<TestResult>, id: string)
    requires id in TraineeIds(rows)
    ensures ProgressOf(rows, id).name == FirstName(rows, id)
  {
    var n := |rows| - 1;
    var prev, r := rows[..n], rows[n];
    assert prev + [r] == rows;
    TraineeSnoc(prev, r, id);
    if id in TraineeIds(prev) {
      ProgressName(prev, id);
    }
  }

  /** A line point: the day's mean when the trainee has grades that day, otherwise a gap. */
  function Point(p: Progress, d: string): Option<real> {
    if d in p.perDate then Some(p.perDate[d].sum as real / p.perDate[d].n as real) else None
  }

  /** The mean of trainee `id`'s grades on day `d`, or a gap when they have none that day. */
  function DayMean(rows: seq<TestResult>, id: string, d: string): Option<real> {
    if |DayGrades(rows, id, d)| > 0
    then Some(Seqs.Sum(DayGrades(rows, id, d)) as real / |DayGrades(rows, id, d)| as real)
    else None
  }

  /** The point of trainee `id` on day `d` is the mean of their grades that day; a gap exactly when they have none. */
  lemma PointSpec(rows: seq<TestResult>, id: string, d: string)
    ensures Point(ProgressOf(rows, id), d) == DayMean(rows, id, d)
    ensures Point(ProgressOf(rows, id), d).Some? <==> d in DaysOf(rows, id)
  {
    ProgressDays(rows, id);
    ProgressTotals(rows, id);
    DayGradesPresent(rows, id, d);
  }

  /** One trainee's line: legend `name || id`, one point per label. */
  function SeriesOf(p: Progress, id: string, dates: seq<string>): (s: LineSeries)
    ensures |s.data| == |dates|
  {
    LineSeries(SeriesLabel(p.name, id), seq(|dates|, i requires 0 <= i < |dates| => Point(p, dates[i])))
  }

  /** The labels of the line chart: every row's day, once each, in string order. */
  function Dates(arr: seq<TestResult>): seq<string> {
    Text.SortedDistinct(AllDays(arr))
  }

  /** How many distinct days a trainee has in the loop's map (`perDate.size`). */
  function DayCount(arr: seq<TestResult>, id: string): nat {
    |ProgressOf(arr, id).days|
  }

  /** The ranking of the default picks: more days first. */
  function MoreDays(arr: seq<TestResult>): (string, string) -> bool {
    (a: string, b: string) => DayCount(arr, a) >= DayCount(arr, b)
  }

  /** With nothing selected: the (at most) two trainees with the most days. */
  function DefaultPicks(arr: seq<TestResult>): (picks: seq<string>)
    ensures |picks| == if |Seqs.Distinct(TraineeIds(arr))| < 2 then |Seqs.Distinct(TraineeIds(arr))| else 2
  {
    var ranked := Seqs.InsertionSort(Seqs.Distinct(TraineeIds(arr)), MoreDays(arr));
    ranked[..if |ranked| < 2 then |ranked| else 2]
  }

  /** The trainees `lineData` plots: the selection, or the default picks, keeping only those with rows. */
  function Plotted(arr: seq<TestResult>, selected: seq<string>): seq<string> {
    Seqs.Filter(if |selected| > 0 then selected else DefaultPicks(arr), (id: string) => id in TraineeIds(arr))
  }

  /** The series of the trainees `ids`, in that order, over the labels `dates`. */
  function Lines(arr: seq<TestResult>, ids: seq<string>, dates: seq<string>): (s: seq<LineSeries>)
    ensures |s| == |ids| && forall k :: 0 <= k < |s| ==> |s[k].data| == |dates|
  {
    seq(|ids|, k requires 0 <= k < |ids| => SeriesOf(ProgressOf(arr, ids[k]), ids[k], dates))
  }

  /** `lineData`: the sorted days as labels and one series per plotted trainee. */
  function LineView(arr: seq<TestResult>, selected: seq<string>): ChartData {
    LineChart(Dates(arr), Lines(arr, Plotted(arr, selected), Dates(arr)))
  }

  /** The labels are the days of the rows, each once, in string order. */
  lemma LineLabels(arr: seq<TestResult>, selected: seq<string>)
    ensures var c := LineView(arr, selected);
            && (forall i, j :: 0 <= i < j < |c.labels| ==> Text.StrLe(c.labels[i], c.labels[j]) && c.labels[i] != c.labels[j])
            && (forall x :: x in c.labels <==> exists k :: 0 <= k < |arr| && DayOf(arr[k].date) == x)
  {
    Text.SortedDistinctSpec(AllDays(arr));
    AllDaysMembers(arr);
  }

  lemma AllDaysMembers(arr: seq<TestResult>)
    ensures forall x :: x in AllDays(arr) <==> exists k :: 0 <= k < |arr| && DayOf(arr[k].date) == x
  {
    forall x ensures x in AllDays(arr) <==> exists k :: 0 <= k < |arr| && DayOf(arr[k].date) == x {
      if x in AllDays(arr) {
        var k :| 0 <= k < |arr| && AllDays(arr)[k] == x;
      }
    }
  }

  /** A trainee's series: legend `name || id` with the name on their first row, and their day means as points. */
  lemma SeriesSpec(arr: seq<TestResult>, id: string, dates: seq<string>)
    requires id in TraineeIds(arr)
    ensures var s := SeriesOf(ProgressOf(arr, id), id, dates);
            && s.legend == SeriesLabel(FirstName(arr, id), id)
            && forall i :: 0 <= i < |dates| ==> s.data[i] == DayMean(arr, id, dates[i])
  {
    ProgressName(arr, id);
    forall i | 0 <= i < |dates| ensures Point(ProgressOf(arr, id), dates[i]) == DayMean(arr, id, dates[i]) {
      PointSpec(arr, id, dates[i]);
    }
  }

  /**
   * Each series belongs to a trainee with rows, is labelled `name || id` with
   * the name on the trainee's first row, and has at each label the mean of
   * that trainee's grades on that day, or a gap.
   */
  lemma LinePoints(arr: seq<TestResult>, selected: seq<string>)
    ensures var c := LineView(arr, selected);
            var ids := Plotted(arr, selected);
            && |c.series| == |ids|
            && forall k :: 0 <= k < |ids| ==>
                 && ids[k] in TraineeIds(arr)
                 && c.series[k].legend == SeriesLabel(FirstName(arr, ids[k]), ids[k])
                 && |c.series[k].data| == |c.labels|
                 && forall i :: 0 <= i < |c.labels| ==> c.series[k].data[i] == DayMean(arr, ids[k], c.labels[i])
  {
    var dates := Dates(arr);
    var ids := Plotted(arr, selected);
    var lines := Lines(arr, ids, dates);
    forall k | 0 <= k < |ids|
      ensures ids[k] in TraineeIds(arr)
      ensures lines[k].legend == SeriesLabel(FirstName(arr, ids[k]), ids[k])
      ensures forall i :: 0 <= i < |dates| ==> lines[k].data[i] == DayMean(arr, ids[k], dates[i])
    {
      assert ids[k] in ids;
      SeriesSpec(arr, ids[k], dates);
    }
  }

  /** With a selection, exactly the selected trainees that have rows are plotted, in the selection's order. */
  lemma PlottedSelected(arr: seq<TestResult>, selected: seq<string>)
    requires |selected| > 0
    ensures forall id :: id in Plotted(arr, selected) <==> id in selected && id in TraineeIds(arr)
    ensures Seqs.IsSubsequence(Plotted(arr, selected), selected)
  {
    Seqs.FilterMembership(selected, (id: string) => id in TraineeIds(arr));
    Seqs.FilterIsSubsequence(selected, (id: string) => id in TraineeIds(arr));
  }

  /** Counting days in the loop's map counts the trainee's distinct days. */
  lemma DayCountSpec(arr: seq<TestResult>, id: string)
    ensures DayCount(arr, id) == |Seqs.Distinct(DaysOf(arr, id))|
  {
    ProgressDays(arr, id);
  }

  lemma MoreDaysIsTotalPreorder(arr: seq<TestResult>)
    ensures Seqs.TotalPreorder(MoreDays(arr))
  {
  }

  /**
   * The default picks are the two (or fewer, when there are fewer trainees)
   * with the most distinct days: different trainees of the rows, and no
   * trainee left out has more days than one picked.
   */
  lemma DefaultPicksSpec(arr: seq<TestResult>)
    ensures var picks := DefaultPicks(arr);
            && Seqs.NoDup(picks)
            && (forall p :: p in picks ==> p in TraineeIds(arr))
            && (forall id, p :: id in TraineeIds(arr) && id !in picks && p in picks ==>
                  |Seqs.Distinct(DaysOf(arr, p))| >= |Seqs.Distinct(DaysOf(arr, id))|)
  {
    RankedIds(arr);
    var ranked := Seqs.InsertionSort(Seqs.Distinct(TraineeIds(arr)), MoreDays(arr));
    assert DefaultPicks(arr) == ranked[..|DefaultPicks(arr)|];
    forall id, p | id in TraineeIds(arr) && id !in DefaultPicks(arr) && p in DefaultPicks(arr)
      ensures |Seqs.Distinct(DaysOf(arr, p))| >= |Seqs.Distinct(DaysOf(arr, id))|
    {
      PickedHasMoreDays(arr, id, p);
    }
  }

  /** A picked trainee has at least as many distinct days as any trainee left out. */
  lemma PickedHasMoreDays(arr: seq<TestResult>, id: string, p: string)
    requires id in TraineeIds(arr) && id !in DefaultPicks(arr) && p in DefaultPicks(arr)
    ensures |Seqs.Distinct(DaysOf(arr, p))| >= |Seqs.Distinct(DaysOf(arr, id))|
  {
    RankedIds(arr);
    var ranked := Seqs.InsertionSort(Seqs.Distinct(TraineeIds(arr)), MoreDays(arr));
    var picks := DefaultPicks(arr);
    assert picks == ranked[..|picks|];
    Seqs.SortedPrefixBelow(ranked, MoreDays(arr), |picks|, p, id);
    DayCountSpec(arr, p);
    DayCountSpec(arr, id);
  }

  /** The ranking lists every trainee once, more days first. */
  lemma RankedIds(arr: seq<TestResult>)
    ensures var ranked := Seqs.InsertionSort(Seqs.Distinct(TraineeIds(arr)), MoreDays(arr));
            && Seqs.NoDup(ranked)
            && Seqs.SortedBy(ranked, MoreDays(arr))
            && forall x :: x in ranked <==> x in TraineeIds(arr)
  {
    var ids := Seqs.Distinct(TraineeIds(arr));
    var ranked := Seqs.InsertionSort(ids, MoreDays(arr));
    MoreDaysIsTotalPreorder(arr);
    Seqs.InsertionSortCorrect(ids, MoreDays(arr));
    Seqs.DistinctInEncounterOrder(TraineeIds(arr));
    Seqs.PermutationKeepsNoDup(ids, ranked);
    forall x ensures x in ranked <==> x in TraineeIds(arr) {
      assert x in ranked <==> x in multiset(ranked);
      assert x in ids <==> x in multiset(ids);
    }
  }

  /** With nothing selected, the default picks are plotted as they are: each has rows. */
  lemma PlottedDefault(arr: seq<TestResult>)
    ensures Plotted(arr, []) == DefaultPicks(arr)
  {
    DefaultPicksSpec(arr);
    Seqs.FilterAll(DefaultPicks(arr), (id: string) => id in TraineeIds(arr));
  }

  // ---- the store -----------------------------------------------------------------

  /** The step of `uniqueTraineeIds` for a trainee not seen before: their name is stored and their id listed. */
  lemma NamesStepNew(rows: seq<TestResult>, r: TestResult, m: map<string, string>, order: seq<string>)
    requires Grouping.Tracks(rows, m, order, FirstName) && r.traineeId !in m
    ensures Grouping.Tracks(rows + [r], m[r.traineeId := r.traineeName], order + [r.traineeId], FirstName)
  {
    FirstNamesStep(rows, r);
    TraineeSnoc(rows, r, r.traineeId);
    Grouping.TracksStep(rows, r, m, order, FirstName, r.traineeName);
  }

  /** The step of `uniqueTraineeIds` for a trainee seen before: the first name seen never changes. */
  lemma NamesStepSeen(rows: seq<TestResult>, r: TestResult, m: map<string, string>, order: seq<string>)
    requires Grouping.Tracks(rows, m, order, FirstName) && r.traineeId in m
    ensures Grouping.Tracks(rows + [r], m, order, FirstName)
  {
    FirstNamesStep(rows, r);
    TraineeSnoc(rows, r, r.traineeId);
    Grouping.TracksKeep(rows, r, m, order, FirstName);
  }

  lemma FirstNamesStep(rows: seq<TestResult>, r: TestResult)
    ensures forall id :: id != r.traineeId ==> FirstName(rows + [r], id) == FirstName(rows, id)
  {
    forall id | id != r.traineeId ensures FirstName(rows + [r], id) == FirstName(rows, id) {
      TraineeSnoc(rows, r, id);
    }
  }

  /** The map and key order `uniqueTraineeIds` ends with, read out as picker entries. */
  lemma RefsFromNames(rows: seq<TestResult>, m: map<string, string>, order: seq<string>)
    requires Grouping.Tracks(rows, m, order, FirstName)
    ensures forall k :: 0 <= k < |order| ==> order[k] in m
    ensures seq(|order|, k requires 0 <= k < |order| && order[k] in m => TraineeRef(order[k], m[order[k]])) == TraineeRefs(rows)
  {
    Grouping.TracksListed(rows, m, order, FirstName);
  }

  /** The step of `avgByTraineeData`: get or create the entry, push the grade. */
  lemma ScoresTracked(rows: seq<TestResult>, r: TestResult, m: map<string, Scores>, order: seq<string>, e: Scores)
    requires Grouping.Tracks(rows, m, order, ScoresOf)
    requires e == if r.traineeId in m then m[r.traineeId] else Scores(r.traineeName, [])
    ensures Grouping.Tracks(rows + [r], m[r.traineeId := Scores(e.name, e.grades + [r.grade])],
                            if r.traineeId in m then order else order + [r.traineeId], ScoresOf)
  {
    ScoresStep(rows, r, e);
    Grouping.TracksStep(rows, r, m, order, ScoresOf, Scores(e.name, e.grades + [r.grade]));
  }

  /** The map read out key by key: a label and the mean of the grades per trainee. */
  function BarsOf(m: map<string, Scores>, order: seq<string>): ChartData {
    BarChart(seq(|order|, k requires 0 <= k < |order| => if order[k] in m then SeriesLabel(m[order[k]].name, order[k]) else ""),
             "Average per trainee",
             seq(|order|, k requires 0 <= k < |order| => if order[k] in m then Seqs.Mean(m[order[k]].grades) else 0.0))
  }

  /** The map and key order `avgByTraineeData` ends with, read out as labels and means. */
  lemma BarsFromScores(rows: seq<TestResult>, m: map<string, Scores>, order: seq<string>)
    requires Grouping.Tracks(rows, m, order, ScoresOf)
    ensures forall k :: 0 <= k < |order| ==> order[k] in m
    ensures BarsOf(m, order) == AvgByTrainee(rows)
  {
    Grouping.TracksListed(rows, m, order, ScoresOf);
    var labels, values := BarsOf(m, order).labels, BarsOf(m, order).values;
    var c := AvgByTrainee(rows);
    assert labels == c.labels by {
      forall k | 0 <= k < |order| ensures labels[k] == c.labels[k] {
        assert m[order[k]] == ScoresOf(rows, order[k]);
      }
    }
    assert values == c.values by {
      forall k | 0 <= k < |order| ensures values[k] == c.values[k] {
        assert m[order[k]] == ScoresOf(rows, order[k]);
      }
    }
  }

  /** The step of `lineData`: get or create the entry, add the grade to its day. */
  lemma ProgressTracked(rows: seq<TestResult>, r: TestResult, m: map<string, Progress>, order: seq<string>, e: Progress,
                        m': map<string, Progress>, order': seq<string>)
    requires Grouping.Tracks(rows, m, order, ProgressOf)
    requires e == if r.traineeId in m then m[r.traineeId] else Progress(r.traineeName, [], map[])
    requires m' == m[r.traineeId := AddGrade(e, r)]
    requires order' == if r.traineeId in m then order else order + [r.traineeId]
    ensures Grouping.Tracks(rows + [r], m', order', ProgressOf)
  {
    ProgressStep(rows, r, e);
    Grouping.TracksStep(rows, r, m, order, ProgressOf, AddGrade(e, r));
  }

  /** `perDate.size` of a trainee's entry (0 for a trainee without one). */
  function Size(m: map<string, Progress>, id: string): nat {
    if id in m then |m[id].days| else 0
  }

  /** Ranking the map's keys by entry size is ranking the trainees by their days. */
  lemma RankingBySize(rows: seq<TestResult>, m: map<string, Progress>, order: seq<string>)
    requires Grouping.Tracks(rows, m, order, ProgressOf)
    ensures Seqs.InsertionSort(order, (a: string, b: string) => Size(m, a) >= Size(m, b)) ==
            Seqs.InsertionSort(Seqs.Distinct(TraineeIds(rows)), MoreDays(rows))
  {
    Seqs.InsertionSortCongruent(order, (a: string, b: string) => Size(m, a) >= Size(m, b), MoreDays(rows));
  }

  /** Keeping the ids the map has is keeping the trainees with rows. */
  lemma KeptByMap(rows: seq<TestResult>, m: map<string, Progress>, order: seq<string>, ids: seq<string>)
    requires Grouping.Tracks(rows, m, order, ProgressOf)
    ensures Seqs.Filter(ids, (id: string) => id in m) == Seqs.Filter(ids, (id: string) => id in TraineeIds(rows))
  {
    Seqs.FilterCongruent(ids, (id: string) => id in m, (id: string) => id in TraineeIds(rows));
  }

  /** `ids.map(id => ...)` over the map `lineData` builds: one series per id, from that id's entry. */
  function SeriesFrom(m: map<string, Progress>, ids: seq<string>, dates: seq<string>): seq<LineSeries>
    requires forall id :: id in ids ==> id in m
  {
    seq(|ids|, k requires 0 <= k < |ids| => SeriesOf(m[ids[k]], ids[k], dates))
  }

  /** Reading the series out of the map `lineData` ends with gives each trainee's series. */
  lemma SeriesFromTracked(rows: seq<TestResult>, m: map<string, Progress>, order: seq<string>, ids: seq<string>, dates: seq<string>)
    requires Grouping.Tracks(rows, m, order, ProgressOf)
    requires forall id :: id in ids ==> id in TraineeIds(rows)
    ensures forall id :: id in ids ==> id in m
    ensures SeriesFrom(m, ids, dates) == Lines(rows, ids, dates)
  {
    forall id | id in ids ensures id in m && m[id] == ProgressOf(rows, id) {
      var j :| 0 <= j < |TraineeIds(rows)| && TraineeIds(rows)[j] == id;
    }
    var lhs, rhs := SeriesFrom(m, ids, dates), Lines(rows, ids, dates);
    forall k | 0 <= k < |ids| ensures lhs[k] == rhs[k] {
      assert ids[k] in ids;
    }
  }

  /** The loop of `uniqueTraineeIds`: each trainee's first name, keys in insertion order. */
  method CollectNames(rows: seq<TestResult>) returns (names: map<string, string>, order: seq<string>)
    ensures Grouping.Tracks(rows, names, order, FirstName)
  {
    names, order := map[], [];
    Grouping.TracksEmpty(FirstName);
    assert rows[..0] == [];
    assert Grouping.Tracks(rows[..0], names, order, FirstName);
    var i := 0;
    while i < |rows|
      invariant 0 <= i <= |rows|
      invariant Grouping.Tracks(rows[..i], names, order, FirstName)
    {
      var r := rows[i];
      Seqs.TakeSnoc(rows, i);
      if r.traineeId !in names {
        NamesStepNew(rows[..i], r, names, order);
        names := names[r.traineeId := r.traineeName];
        order := order + [r.traineeId];
      } else {
        NamesStepSeen(rows[..i], r, names, order);
      }
      assert Grouping.Tracks(rows[..i] + [r], names, order, FirstName);
      assert Grouping.Tracks(rows[..i + 1], names, order, FirstName);
      i := i + 1;
    }
    assert rows[..i] == rows;
  }

  /** The loop of `uniqueSubjects`: the subjects added to a `Set`, in insertion order. */
  method CollectSubjects(rows: seq<TestResult>) returns (seen: seq<string>)
    ensures seen == Seqs.Distinct(Subjects(rows))
  {
    seen := [];
    var i := 0;
    assert rows[..0] == [];
    while i < |rows|
      invariant 0 <= i <= |rows|
      invariant seen == Seqs.Distinct(Subjects(rows[..i]))
    {
      assert Seqs.Distinct(Subjects(rows[..i + 1])) ==
             if rows[i].subject in seen then seen else seen + [rows[i].subject] by {
        Seqs.TakeSnoc(rows, i);
        assert Subjects(rows[..i + 1])[..i] == Subjects(rows[..i]);
      }
      if rows[i].subject !in seen {
        seen := seen + [rows[i].subject];
      }
      i := i + 1;
    }
    assert rows[..i] == rows;
  }

  /** The loop of `avgByTraineeData`: per trainee the first name and every grade. */
  method CollectScores(arr: seq<TestResult>) returns (scores: map<string, Scores>, order: seq<string>)
    ensures Grouping.Tracks(arr, scores, order, ScoresOf)
  {
    scores, order := map[], [];
    Grouping.TracksEmpty(ScoresOf);
    assert arr[..0] == [];
    var i := 0;
    while i < |arr|
      invariant 0 <= i <= |arr|
      invariant Grouping.Tracks(arr[..i], scores, order, ScoresOf)
    {
      Seqs.TakeSnoc(arr, i);
      scores, order := AbsorbGrade(arr[..i], scores, order, arr[i]);
      i := i + 1;
    }
    assert arr[..i] == arr;
  }

  /** One pass of the loop of `avgByTraineeData`: get or create the row's trainee entry, then append the grade. */
  method AbsorbGrade(ghost seen: seq<TestResult>, scores: map<string, Scores>, order: seq<string>, r: TestResult)
      returns (scores': map<string, Scores>, order': seq<string>)
    requires Grouping.Tracks(seen, scores, order, ScoresOf)
    ensures Grouping.Tracks(seen + [r], scores', order', ScoresOf)
  {
    var e := if r.traineeId in scores then scores[r.traineeId] else Scores(r.traineeName, []);
    ScoresTracked(seen, r, scores, order, e);
    order' := if r.traineeId in scores then order else order + [r.traineeId];
    scores' := scores[r.traineeId := Scores(e.name, e.grades + [r.grade])];
  }

  /** `pd.get(d) ?? { sum: 0, n: 0 }` for the row's day, then the grade added and counted, and the total stored back. */
  method AddToDay(e: Progress, r: TestResult) returns (p: Progress)
    ensures p == AddGrade(e, r)
  {
    var d := DayOf(r.date);
    var sum: int, n: nat := 0, 0;
    if d in e.perDate {
      sum, n := e.perDate[d].sum, e.perDate[d].n;
    }
    sum, n := sum + r.grade, n + 1;
    var days := if d in e.perDate then e.days else e.days + [d];
    p := Progress(e.name, days, e.perDate[d := DayTotal(sum, n)]);
  }

  /** The loop of `lineData`: per trainee the first name and each day's running sum and count. */
  method CollectProgress(arr: seq<TestResult>) returns (byId: map<string, Progress>, order: seq<string>)
    ensures Grouping.Tracks(arr, byId, order, ProgressOf)
  {
    byId, order := map[], [];
    Grouping.TracksEmpty(ProgressOf);
    assert arr[..0] == [];
    var i := 0;
    while i < |arr|
      invariant 0 <= i <= |arr|
      invariant Grouping.Tracks(arr[..i], byId, order, ProgressOf)
    {
      Seqs.TakeSnoc(arr, i);
      byId, order := AbsorbRow(arr[..i], byId, order, arr[i]);
      i := i + 1;
    }
    assert arr[..i] == arr;
  }

  /** One pass of the loop of `lineData`: get or create the row's trainee entry, then add the grade to its day. */
  method AbsorbRow(ghost seen: seq<TestResult>, byId: map<string, Progress>, order: seq<string>, r: TestResult)
      returns (byId': map<string, Progress>, order': seq<string>)
    requires Grouping.Tracks(seen, byId, order, ProgressOf)
    ensures Grouping.Tracks(seen + [r], byId', order', ProgressOf)
  {
    var e := if r.traineeId in byId then byId[r.traineeId] else Progress(r.traineeName, [], map[]);
    order' := if r.traineeId in byId then order else order + [r.traineeId];
    var updated := AddToDay(e, r);
    byId' := byId[r.traineeId := updated];
    ProgressTracked(seen, r, byId, order, e, byId', order');
  }

  /** `lineData`: the days, the trainees to plot (the selection, else the two with the most days), their series. */
  method LinesOf(arr: seq<TestResult>, selected: seq<string>) returns (c: ChartData)
    ensures c == LineView(arr, selected)
  {
    var dates := Text.SortedDistinct(AllDays(arr));
    var byId, order := CollectProgress(arr);
    var ids := selected;
    if |ids| == 0 {
      ids := TopTwo(arr, byId, order);
    }
    var kept := Seqs.Filter(ids, (id: string) => id in byId);
    KeptByMap(arr, byId, order, ids);
    assert kept == Plotted(arr, selected);
    SeriesFromTracked(arr, byId, order, kept, dates);
    c := LineChart(dates, SeriesFrom(byId, kept, dates));
  }

  /** The entries sorted by `perDate.size`, most first, and the first two ids kept. */
  method TopTwo(ghost arr: seq<TestResult>, byId: map<string, Progress>, order: seq<string>) returns (ids: seq<string>)
    requires Grouping.Tracks(arr, byId, order, ProgressOf)
    ensures ids == DefaultPicks(arr)
  {
    var ranked := Seqs.InsertionSort(order, (a: string, b: string) => Size(byId, a) >= Size(byId, b));
    RankingBySize(arr, byId, order);
    ids := ranked[..if |ranked| < 2 then |ranked| else 2];
  }

  /**
   * The analysis page's state: the record store it reads, the chart each
   * of the two slots shows, and the trainee and subject selections.
   */
  class AnalysisStore {
    const data: DataPageState.DataPageStore
    var visibleLeft: ChartKey
    var visibleRight: ChartKey
    var selectedTraineeIds: seq<string>
    var selectedSubjects: seq<string>

    /** chart1 on the left, chart2 on the right, nothing selected. */
    constructor (data: DataPageState.DataPageStore)
      ensures this.data == data
      ensures visibleLeft == Chart1 && visibleRight == Chart2
      ensures selectedTraineeIds == [] && selectedSubjects == []
      ensures Hidden() == Chart3
    {
      this.data := data;
      visibleLeft := Chart1;
      visibleRight := Chart2;
      selectedTraineeIds := [];
      selectedSubjects := [];
    }

    /** `hiddenChart`: a chart neither slot shows. */
    function Hidden(): (h: ChartKey)
      reads this
      ensures h != visibleLeft && h != visibleRight
    {
      HiddenChart(visibleLeft, visibleRight)
    }

    /** `filteredResults`: exactly the rows the two selections admit, in list order. */
    function Filtered(): (f: seq<TestResult>)
      reads this, data
      ensures forall x :: x in f <==> x in data.results && Selected(x, selectedTraineeIds, selectedSubjects)
      ensures Seqs.IsSubsequence(f, data.results)
    {
      FilteredResultsSpec(data.results, selectedTraineeIds, selectedSubjects);
      FilteredResults(data.results, selectedTraineeIds, selectedSubjects)
    }

    /** `setSelectedTrainees(ids)`: null selects nothing. */
    method SetSelectedTrainees(ids: Option<seq<string>>)
      modifies this
      ensures selectedTraineeIds == ids.GetOr([])
      ensures selectedSubjects == old(selectedSubjects)
      ensures visibleLeft == old(visibleLeft) && visibleRight == old(visibleRight)
    {
      selectedTraineeIds := ids.GetOr([]);
    }

    /** `setSelectedSubjects(subs)`: null selects nothing. */
    method SetSelectedSubjects(subs: Option<seq<string>>)
      modifies this
      ensures selectedSubjects == subs.GetOr([])
      ensures selectedTraineeIds == old(selectedTraineeIds)
      ensures visibleLeft == old(visibleLeft) && visibleRight == old(visibleRight)
    {
      selectedSubjects := subs.GetOr([]);
    }

    /** `uniqueTraineeIds`: the `Map` read out as `{ id, name }` entries in insertion order. */
    method UniqueTraineeIds() returns (refs: seq<TraineeRef>)
      ensures refs == TraineeRefs(data.results)
    {
      var names, order := CollectNames(data.results);
      RefsFromNames(data.results, names, order);
      refs := seq(|order|, k requires 0 <= k < |order| && order[k] in names => TraineeRef(order[k], names[order[k]]));
    }

    /** `uniqueSubjects`: the `Set` of subjects, sorted. */
    method UniqueSubjects() returns (subjects: seq<string>)
      ensures subjects == Text.SortedDistinct(Subjects(data.results))
    {
      var seen := CollectSubjects(data.results);
      subjects := Seqs.InsertionSort(seen, Text.StrLe);
    }

    /** `avgByTraineeData`: the `Map` read out as a label and a mean per trainee, in insertion order. */
    method AvgByTraineeData() returns (c: ChartData)
      ensures c == AvgByTrainee(Filtered())
    {
      var arr := Filtered();
      var scores, order := CollectScores(arr);
      BarsFromScores(arr, scores, order);
      c := BarsOf(scores, order);
    }

    /** `lineData`, on the filtered rows and the trainee selection. */
    method LineData() returns (c: ChartData)
      ensures c == LineView(Filtered(), selectedTraineeIds)
    {
      c := LinesOf(Filtered(), selectedTraineeIds);
    }

    /** `getChartConf(key)`: chart1 the per-trainee bars, chart2 the progress lines, chart3 the per-subject bars. */
    method GetChartConf(key: ChartKey) returns (conf: ChartConf)
      ensures conf.kind == if key == Chart2 then Line else Bar
      ensures conf.data == match key
                           case Chart1 => AvgByTrainee(Filtered())
                           case Chart2 => LineView(Filtered(), selectedTraineeIds)
                           case Chart3 => BarData(Filtered())
    {
      if key == Chart1 {
        var d := AvgByTraineeData();
        return ChartConf(Bar, d);
      }
      if key == Chart2 {
        var d := LineData();
        return ChartConf(Line, d);
      }
      return ChartConf(Bar, BarData(Filtered()));
    }
  }
}
