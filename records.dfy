/**
 * The test-result record every store works on, and the lookups over a list of
 * them that several stores share.
 */
module Records {
  import opened Wrappers

  /** One exam result of one trainee; `grade` is a whole number. */
  datatype TestResult = TestResult(
    id: string,
    traineeId: string,
    traineeName: string,
    subject: string,
    grade: int,
    date: string)

  /** `date.slice(0, 10)`: the calendar-day part of an ISO date. */
  function DayOf(date: string): (d: string)
    ensures |d| == if |date| < 10 then |date| else 10
    ensures d <= date
  {
    if |date| <= 10 then date else date[..10]
  }

  /** The trainee id of every row, in order. */
  function TraineeIds(rows: seq<TestResult>): (r: seq<string>)
    ensures |r| == |rows| && forall i :: 0 <= i < |rows| ==> r[i] == rows[i].traineeId
  {
    if rows == [] then [] else TraineeIds(rows[..|rows| - 1]) + [rows[|rows| - 1].traineeId]
  }

  /** The subject of every row, in order. */
  function Subjects(rows: seq<TestResult>): (r: seq<string>)
    ensures |r| == |rows| && forall i :: 0 <= i < |rows| ==> r[i] == rows[i].subject
  {
    if rows == [] then [] else Subjects(rows[..|rows| - 1]) + [rows[|rows| - 1].subject]
  }

  /** The grades of the rows of trainee `id`, in order. */
  function GradesOf(rows: seq<TestResult>, id: string): seq<int> {
    if rows == [] then []
    else GradesOf(rows[..|rows| - 1], id) + (if rows[|rows| - 1].traineeId == id then [rows[|rows| - 1].grade] else [])
  }

  /** The days of the rows of trainee `id`, in order. */
  function DaysOf(rows: seq<TestResult>, id: string): seq<string> {
    if rows == [] then []
    else DaysOf(rows[..|rows| - 1], id) + (if rows[|rows| - 1].traineeId == id then [DayOf(rows[|rows| - 1].date)] else [])
  }

  /** Number of rows of trainee `id`. */
  function CountOf(rows: seq<TestResult>, id: string): nat {
    if rows == [] then 0
    else CountOf(rows[..|rows| - 1], id) + (if rows[|rows| - 1].traineeId == id then 1 else 0)
  }

  /** Every row of trainee `id` contributes one grade and one day. */
  lemma {:induction false} GradesAndDaysCount(rows: seq<TestResult>, id: string)
    ensures |GradesOf(rows, id)| == |DaysOf(rows, id)| == CountOf(rows, id)
    ensures CountOf(rows, id) > 0 <==> id in TraineeIds(rows)
  {
    if rows != [] {
      GradesAndDaysCount(rows[..|rows| - 1], id);
      assert TraineeIds(rows) == TraineeIds(rows[..|rows| - 1]) + [rows[|rows| - 1].traineeId];
    }
  }

  /** `rows.find(r => r.traineeId === id)`. */
  function FirstOfTrainee(rows: seq<TestResult>, id: string): (r: Option<TestResult>)
    ensures r.Some? ==> r.value in rows && r.value.traineeId == id
    ensures r.None? <==> forall i :: 0 <= i < |rows| ==> rows[i].traineeId != id
  {
    if rows == [] then None
    else
      var p := FirstOfTrainee(rows[..|rows| - 1], id);
      if p.Some? then p
      else if rows[|rows| - 1].traineeId == id then Some(rows[|rows| - 1])
      else None
  }

  /** The name of the first row of trainee `id`, or '' when there is none. */
  function FirstName(rows: seq<TestResult>, id: string): string {
    match FirstOfTrainee(rows, id)
    case Some(r) => r.traineeName
    case None => ""
  }

  /** How one more row changes what the rows say about trainee `id`. */
  lemma TraineeSnoc(rows: seq<TestResult>, r: TestResult, id: string)
    ensures TraineeIds(rows + [r]) == TraineeIds(rows) + [r.traineeId]
    ensures GradesOf(rows + [r], id) == GradesOf(rows, id) + (if r.traineeId == id then [r.grade] else [])
    ensures DaysOf(rows + [r], id) == DaysOf(rows, id) + (if r.traineeId == id then [DayOf(r.date)] else [])
    ensures FirstName(rows + [r], id) ==
            if r.traineeId == id && id !in TraineeIds(rows) then r.traineeName else FirstName(rows, id)
  {
    assert (rows + [r])[..|rows|] == rows;
    if id in TraineeIds(rows) {
      var k :| 0 <= k < |rows| && TraineeIds(rows)[k] == id;
      assert rows[k].traineeId == id;
    }
  }

  /** The row found is the first one of that trainee. */
  lemma {:induction false} FirstOfTraineeIsFirst(rows: seq<TestResult>, id: string, k: int)
    requires 0 <= k < |rows| && rows[k].traineeId == id
    requires forall j :: 0 <= j < k ==> rows[j].traineeId != id
    ensures FirstOfTrainee(rows, id) == Some(rows[k])
  {
    var n := |rows| - 1;
    if k < n {
      FirstOfTraineeIsFirst(rows[..n], id, k);
    } else {
      assert forall j :: 0 <= j < n ==> rows[..n][j].traineeId != id;
    }
  }

  /** `rows.find(row => row.id === id)`: the first row with the id. */
  function FindById(rows: seq<TestResult>, id: string): (r: Option<TestResult>)
    ensures r.Some? ==> r.value in rows && r.value.id == id
    ensures r.Some? ==> exists k :: 0 <= k < |rows| && rows[k] == r.value && forall j :: 0 <= j < k ==> rows[j].id != id
    ensures r.None? <==> forall i :: 0 <= i < |rows| ==> rows[i].id != id
  {
    if rows == [] then None
    else if rows[0].id == id then Some(rows[0])
    else
      var r := FindById(rows[1..], id);
      if r.Some? then
        var k :| 0 <= k < |rows[1..]| && rows[1..][k] == r.value && forall j :: 0 <= j < k ==> rows[1..][j].id != id;
        assert rows[k + 1] == r.value && forall j :: 0 <= j < k + 1 ==> rows[j].id != id by {
          forall j | 0 < j < k + 1 ensures rows[j].id != id {
            assert rows[j] == rows[1..][j - 1];
          }
        }
        r
      else r
  }

  /** The row `find` returns is the first row with the id, whichever comes later. */
  lemma {:induction false} FindByIdIsFirst(rows: seq<TestResult>, id: string, k: int)
    requires 0 <= k < |rows| && rows[k].id == id
    requires forall j :: 0 <= j < k ==> rows[j].id != id
    ensures FindById(rows, id) == Some(rows[k])
  {
    if k > 0 {
      forall j | 0 <= j < k - 1 ensures rows[1..][j].id != id {
        assert rows[1..][j] == rows[j + 1];
      }
      FindByIdIsFirst(rows[1..], id, k - 1);
    }
  }
}
