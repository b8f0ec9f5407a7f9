/**
 * What both versions of the record store derive from their state: the rows the
 * applied filter keeps, the page shown, the selected row, and the list edits
 * that `save` and `remove` perform.
 */
module RecordView {
  import opened Wrappers
  import opened Records
  import Seqs
  import Text

  /** A row is kept when its trainee name or its subject contains the filter, ignoring case. */
  predicate Matches(r: TestResult, applied: string) {
    var f := Text.ToLower(applied);
    Text.Contains(Text.ToLower(r.traineeName), f) || Text.Contains(Text.ToLower(r.subject), f)
  }

  /** The `filtered` view: the rows the applied filter keeps, in list order. */
  function Filtered(results: seq<TestResult>, applied: string): (r: seq<TestResult>)
    ensures forall x :: x in r ==> x in results && Matches(x, applied)
  {
    Seqs.Filter(results, x => Matches(x, applied))
  }

  /**
   * `filtered` keeps exactly the matching rows: a row is in it iff it matches,
   * each as often as in the list, and in list order.
   */
  lemma FilteredSpec(results: seq<TestResult>, applied: string)
    ensures forall i :: 0 <= i < |results| ==> (results[i] in Filtered(results, applied) <==> Matches(results[i], applied))
    ensures forall x :: multiset(Filtered(results, applied))[x] == if Matches(x, applied) then multiset(results)[x] else 0
    ensures Seqs.IsSubsequence(Filtered(results, applied), results)
  {
    var p := x => Matches(x, applied);
    forall i | 0 <= i < |results| && Matches(results[i], applied) ensures results[i] in Filtered(results, applied) {
      Seqs.FilterKeepsMatching(results, p, i);
    }
    forall x ensures multiset(Filtered(results, applied))[x] == if Matches(x, applied) then multiset(results)[x] else 0 {
      Seqs.FilterMultiset(results, p, x);
    }
    Seqs.FilterIsSubsequence(results, p);
  }

  /** The empty filter keeps every row. */
  lemma FilteredByEmpty(results: seq<TestResult>)
    ensures Filtered(results, "") == results
  {
    forall i | 0 <= i < |results| ensures Matches(results[i], "") {
      Text.ContainsEmpty(Text.ToLower(results[i].traineeName));
    }
    Seqs.FilterAll(results, x => Matches(x, ""));
  }

  /** The filter is case-insensitive: upper- and lower-case spellings keep the same rows. */
  lemma FilteredIgnoresCase(results: seq<TestResult>, applied: string)
    ensures Filtered(results, Text.ToLower(applied)) == Filtered(results, applied)
  {
    Text.ToLowerIdempotent(applied);
    Seqs.FilterCongruent(results, x => Matches(x, Text.ToLower(applied)), x => Matches(x, applied));
  }

  // ---- pagination -----------------------------------------------------------

  /** How `Array.prototype.slice` reads an index: negative counts from the end, then clamp. */
  function SliceIndex(i: int, len: nat): (k: nat)
    ensures k <= len
  {
    if i < 0 then (if len + i < 0 then 0 else len + i) else if i > len then len else i
  }

  /** `s.slice(start, end)`: the contiguous run of `s` between the two clamped indexes. */
  function JsSlice<T>(s: seq<T>, start: int, end: int): (r: seq<T>)
    ensures |r| == if SliceIndex(end, |s|) <= SliceIndex(start, |s|) then 0 else SliceIndex(end, |s|) - SliceIndex(start, |s|)
    ensures forall i :: 0 <= i < |r| ==> r[i] == s[SliceIndex(start, |s|) + i]
  {
    var a, b := SliceIndex(start, |s|), SliceIndex(end, |s|);
    if b <= a then [] else s[a..b]
  }

  /** The `page` view: `filtered.slice(pageIndex * pageSize, pageIndex * pageSize + pageSize)`. */
  function Page(filtered: seq<TestResult>, pageIndex: int, pageSize: nat): seq<TestResult> {
    JsSlice(filtered, pageIndex * pageSize, pageIndex * pageSize + pageSize)
  }

  /** A page never holds more than `pageSize` rows, whatever the index (negative ones included). */
  lemma PageLength(filtered: seq<TestResult>, pageIndex: int, pageSize: nat)
    ensures |Page(filtered, pageIndex, pageSize)| <= pageSize
  {
  }

  /**
   * For a non-negative index the page is the window `[pageIndex * pageSize,
   * pageIndex * pageSize + pageSize)` of `filtered`, cut at its end; past the end
   * it is empty.
   */
  lemma PageIsWindow(filtered: seq<TestResult>, pageIndex: nat, pageSize: nat)
    ensures var start := pageIndex * pageSize;
            var end := start + pageSize;
            Page(filtered, pageIndex, pageSize) ==
              if start >= |filtered| then [] else filtered[start..if end < |filtered| then end else |filtered|]
  {
    assert pageIndex * pageSize >= 0;
  }

  /** Fifteen rows and page size ten: the second page holds five. */
  lemma SecondPageOfFifteen(filtered: seq<TestResult>)
    requires |filtered| == 15
    ensures |Page(filtered, 1, 10)| == 5
  {
  }

  // ---- selection and list edits ------------------------------------------------

  /**
   * The `selectedRow` view: none when no id (or the empty id, which is falsy) is
   * selected, otherwise the first row with that id, if any.
   */
  function SelectedRow(results: seq<TestResult>, selected: Option<string>): (r: Option<TestResult>)
    ensures r.Some? ==> selected.Some? && r.value in results && r.value.id == selected.value
    ensures r.Some? ==> exists k :: 0 <= k < |results| && results[k] == r.value
                                    && forall j :: 0 <= j < k ==> results[j].id != selected.value
    ensures r.None? <==> (selected.None? || selected.value == ""
                          || forall i :: 0 <= i < |results| ==> results[i].id != selected.value)
  {
    if selected.None? || selected.value == "" then None else FindById(results, selected.value)
  }

  /** `results.map(row => row.id === updated.id ? updated : row)`. */
  function ReplaceById(results: seq<TestResult>, updated: TestResult): (r: seq<TestResult>)
    ensures |r| == |results|
    ensures forall i :: 0 <= i < |results| ==>
      r[i] == if results[i].id == updated.id then updated else results[i]
  {
    seq(|results|, i requires 0 <= i < |results| => if results[i].id == updated.id then updated else results[i])
  }

  /** `results.filter(row => row.id !== id)`. */
  function RemoveById(results: seq<TestResult>, id: string): (r: seq<TestResult>)
    ensures forall x :: x in r ==> x in results && x.id != id
  {
    Seqs.Filter(results, (x: TestResult) => x.id != id)
  }

  /** `remove` drops every row with the id and keeps all others, in order. */
  lemma RemoveByIdSpec(results: seq<TestResult>, id: string)
    ensures forall i :: 0 <= i < |results| && results[i].id != id ==> results[i] in RemoveById(results, id)
    ensures forall x :: multiset(RemoveById(results, id))[x] == if x.id != id then multiset(results)[x] else 0
    ensures Seqs.IsSubsequence(RemoveById(results, id), results)
  {
    var p := (x: TestResult) => x.id != id;
    forall i | 0 <= i < |results| && results[i].id != id ensures results[i] in RemoveById(results, id) {
      Seqs.FilterKeepsMatching(results, p, i);
    }
    forall x ensures multiset(RemoveById(results, id))[x] == if x.id != id then multiset(results)[x] else 0 {
      Seqs.FilterMultiset(results, p, x);
    }
    Seqs.FilterIsSubsequence(results, p);
  }

  /**
   * After `save(updated)` the selected row is `updated` whenever some row had its
   * id (and the id is not empty): the edit reads back unchanged.
   */
  lemma SaveReadsBack(results: seq<TestResult>, updated: TestResult)
    requires updated.id != ""
    requires exists i :: 0 <= i < |results| && results[i].id == updated.id
    ensures SelectedRow(ReplaceById(results, updated), Some(updated.id)) == Some(updated)
  {
    var r := ReplaceById(results, updated);
    var i :| 0 <= i < |results| && results[i].id == updated.id;
    assert r[i].id == updated.id;
    var found := SelectedRow(r, Some(updated.id));
    assert found.Some?;
    var k :| 0 <= k < |r| && r[k] == found.value;
    assert r[k].id == updated.id;
  }
}
