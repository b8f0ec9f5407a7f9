/**
 * The loop shape every per-trainee aggregation in the stores shares: walk the
 * rows once, get or create the trainee's entry in a `Map`, update it. A
 * JavaScript `Map` iterates in insertion order, so it is modelled as a Dafny
 * map together with the list of its keys in the order they were inserted.
 */
module Grouping {
  import opened Records
  import Seqs

  /**
   * The invariant of such a loop after `rows`: the keys, in insertion order,
   * are the distinct trainee ids of `rows`, and the entry of each is what
   * `entry` computes from `rows` for that trainee.
   */
  ghost predicate Tracks<V>(rows: seq<TestResult>, m: map<string, V>, order: seq<string>,
                            entry: (seq<TestResult>, string) -> V) {
    && order == Seqs.Distinct(TraineeIds(rows))
    && (forall id :: id in m <==> id in order)
    && (forall id :: id in m ==> m[id] == entry(rows, id))
  }

  /** Before the first row the map is empty. */
  lemma TracksEmpty<V>(entry: (seq<TestResult>, string) -> V)
    ensures Tracks([], map[], [], entry)
  {
  }

  /** The ids of one more row: those of the rows before it, then its own. */
  lemma TraineeIdsSnoc(rows: seq<TestResult>, r: TestResult)
    ensures TraineeIds(rows + [r]) == TraineeIds(rows) + [r.traineeId]
  {
    assert (rows + [r])[..|rows|] == rows;
  }

  /**
   * One loop step: storing the entry `v` of `r`'s trainee keeps the invariant
   * when `v` is that trainee's entry after `r` and no other trainee's entry
   * depends on `r`. A new trainee's id goes at the end of the key order.
   */
  lemma TracksStep<V>(rows: seq<TestResult>, r: TestResult, m: map<string, V>, order: seq<string>,
                      entry: (seq<TestResult>, string) -> V, v: V)
    requires Tracks(rows, m, order, entry)
    requires v == entry(rows + [r], r.traineeId)
    requires forall id :: id != r.traineeId ==> entry(rows + [r], id) == entry(rows, id)
    ensures Tracks(rows + [r], m[r.traineeId := v],
                   if r.traineeId in m then order else order + [r.traineeId], entry)
  {
    var m', order' := m[r.traineeId := v], if r.traineeId in m then order else order + [r.traineeId];
    assert order' == Seqs.Distinct(TraineeIds(rows + [r])) by {
      StepOrder(rows, r, order);
    }
    assert forall id :: id in m' <==> id in order';
    assert forall id :: id in m' ==> m'[id] == entry(rows + [r], id) by {
      StepEntries(rows, r, m, entry, v);
    }
  }

  lemma StepOrder(rows: seq<TestResult>, r: TestResult, order: seq<string>)
    requires order == Seqs.Distinct(TraineeIds(rows))
    ensures Seqs.Distinct(TraineeIds(rows + [r])) ==
            if r.traineeId in order then order else order + [r.traineeId]
  {
    var ids := TraineeIds(rows + [r]);
    TraineeIdsSnoc(rows, r);
    assert ids[..|ids| - 1] == TraineeIds(rows);
  }

  lemma StepEntries<V>(rows: seq<TestResult>, r: TestResult, m: map<string, V>,
                       entry: (seq<TestResult>, string) -> V, v: V)
    requires forall id :: id in m ==> m[id] == entry(rows, id)
    requires v == entry(rows + [r], r.traineeId)
    requires forall id :: id != r.traineeId ==> entry(rows + [r], id) == entry(rows, id)
    ensures forall id :: id in m[r.traineeId := v] ==> m[r.traineeId := v][id] == entry(rows + [r], id)
  {
  }

  /**
   * A step that leaves the map alone (the source's `if (!map.has(id))` on a
   * trainee already seen) keeps the invariant when no entry depends on `r`.
   */
  lemma TracksKeep<V>(rows: seq<TestResult>, r: TestResult, m: map<string, V>, order: seq<string>,
                      entry: (seq<TestResult>, string) -> V)
    requires Tracks(rows, m, order, entry) && r.traineeId in m
    requires forall id :: entry(rows + [r], id) == entry(rows, id)
    ensures Tracks(rows + [r], m, order, entry)
  {
    StepOrder(rows, r, order);
  }

  /** Every listed key has an entry, and it is that trainee's. */
  lemma TracksListed<V>(rows: seq<TestResult>, m: map<string, V>, order: seq<string>,
                        entry: (seq<TestResult>, string) -> V)
    requires Tracks(rows, m, order, entry)
    ensures forall k :: 0 <= k < |order| ==> order[k] in m && m[order[k]] == entry(rows, order[k])
  {
  }
}
