/**
 * The filter pipeline `debounceTime(300)` followed by `distinctUntilChanged()`,
 * with time made explicit. `Feed` is a new raw value entering the pipeline,
 * `Advance` lets time pass; a value comes out once 300 units have passed
 * without a newer input, unless it equals the previous value that came out.
 */
module Debounce {
  import opened Wrappers

  const QuietPeriod: nat := 300

  /**
   * `pending`: the latest input not yet emitted; `quiet`: time since that input;
   * `last`: the previous value that came out of `distinctUntilChanged`.
   */
  datatype Debouncer = Debouncer(pending: Option<string>, quiet: nat, last: Option<string>)

  /** Nothing pending and nothing emitted yet. */
  const Idle := Debouncer(None, 0, None)

  /** A new input replaces any pending one and restarts the quiet period. */
  function Feed(d: Debouncer, v: string): (r: Debouncer)
    ensures r.pending == Some(v) && r.quiet == 0 && r.last == d.last
  {
    Debouncer(Some(v), 0, d.last)
  }

  datatype Step = Step(next: Debouncer, emitted: Option<string>)

  /** `dt` units of time pass. */
  function Advance(d: Debouncer, dt: nat): (s: Step)
    ensures s.emitted.Some? ==> d.pending == s.emitted && d.quiet + dt >= QuietPeriod
    ensures s.emitted.Some? ==> d.last != s.emitted && s.next.last == s.emitted
    ensures s.emitted.None? ==> s.next.last == d.last
    ensures d.pending.Some? && d.quiet + dt < QuietPeriod ==> s == Step(d.(quiet := d.quiet + dt), None)
  {
    match d.pending
    case None => Step(d, None)
    case Some(v) =>
      if d.quiet + dt < QuietPeriod then Step(d.(quiet := d.quiet + dt), None)
      else if d.last == Some(v) then Step(Debouncer(None, 0, d.last), None)
      else Step(Debouncer(None, 0, Some(v)), Some(v))
  }

  /** Things that happen to the pipeline: an input, or time passing. */
  datatype Event = Input(text: string) | Wait(dt: nat)

  datatype Outcome = Outcome(final: Debouncer, emitted: seq<string>)

  /** Runs a sequence of events; collects the values that come out, in order. */
  function Run(d: Debouncer, events: seq<Event>): Outcome
    decreases |events|
  {
    if events == [] then Outcome(d, [])
    else match events[0]
      case Input(v) => Run(Feed(d, v), events[1..])
      case Wait(dt) =>
        var s := Advance(d, dt);
        var rest := Run(s.next, events[1..]);
        Outcome(rest.final, (if s.emitted.Some? then [s.emitted.value] else []) + rest.emitted)
  }

  function Waits(dts: seq<nat>): (r: seq<Event>)
    ensures |r| == |dts| && forall i :: 0 <= i < |r| ==> r[i] == Wait(dts[i])
  {
    if dts == [] then [] else [Wait(dts[0])] + Waits(dts[1..])
  }

  function Total(dts: seq<nat>): nat {
    if dts == [] then 0 else dts[0] + Total(dts[1..])
  }

  /** While less than the quiet period has passed since the input, nothing comes out. */
  lemma {:induction false} NothingBeforeQuietPeriod(d: Debouncer, dts: seq<nat>)
    requires d.pending.Some? && d.quiet + Total(dts) < QuietPeriod
    ensures Run(d, Waits(dts)).emitted == []
    ensures Run(d, Waits(dts)).final == d.(quiet := d.quiet + Total(dts))
    decreases |dts|
  {
    if dts != [] {
      assert Waits(dts)[1..] == Waits(dts[1..]);
      NothingBeforeQuietPeriod(d.(quiet := d.quiet + dts[0]), dts[1..]);
    }
  }

  /** With nothing pending, waiting emits nothing and changes nothing. */
  lemma {:induction false} IdleWaits(d: Debouncer, dts: seq<nat>)
    requires d.pending.None?
    ensures Run(d, Waits(dts)) == Outcome(d, [])
    decreases |dts|
  {
    if dts != [] {
      assert Waits(dts)[1..] == Waits(dts[1..]);
      IdleWaits(d, dts[1..]);
    }
  }

  /**
   * Once the quiet period has passed after the input `v`, `v` has come out
   * exactly once, unless it repeats the previous output, in which case nothing
   * came out.
   */
  lemma {:induction false} SettlesOnLatest(d: Debouncer, v: string, dts: seq<nat>)
    requires Total(dts) >= QuietPeriod
    ensures var o := Run(Feed(d, v), Waits(dts));
            && o.emitted == (if d.last == Some(v) then [] else [v])
            && o.final == Debouncer(None, 0, Some(v))
  {
    SettlesFrom(Feed(d, v), dts);
  }

  lemma {:induction false} SettlesFrom(d: Debouncer, dts: seq<nat>)
    requires d.pending.Some? && d.quiet < QuietPeriod <= d.quiet + Total(dts)
    ensures var o := Run(d, Waits(dts));
            && o.emitted == (if d.last == d.pending then [] else [d.pending.value])
            && o.final == Debouncer(None, 0, d.pending)
    decreases |dts|
  {
    assert dts != [];
    assert Waits(dts)[1..] == Waits(dts[1..]);
    var s := Advance(d, dts[0]);
    if d.quiet + dts[0] < QuietPeriod {
      SettlesFrom(s.next, dts[1..]);
    } else {
      IdleWaits(s.next, dts[1..]);
    }
  }

  /** An input arriving before the previous one settled replaces it: two rapid inputs collapse to one. */
  lemma LaterInputSupersedes(d: Debouncer, a: string, b: string, dt: nat)
    requires dt < QuietPeriod
    ensures Feed(Advance(Feed(d, a), dt).next, b) == Feed(d, b)
  {
  }

  /**
   * `distinctUntilChanged`: over any run, no value comes out twice in a row,
   * the first repeats no earlier output, and the last is remembered.
   */
  lemma {:induction false} NoConsecutiveRepeats(d: Debouncer, events: seq<Event>)
    ensures var o := Run(d, events);
            && (forall i :: 0 < i < |o.emitted| ==> o.emitted[i - 1] != o.emitted[i])
            && (|o.emitted| > 0 ==> d.last != Some(o.emitted[0]))
            && o.final.last == (if |o.emitted| > 0 then Some(o.emitted[|o.emitted| - 1]) else d.last)
    decreases |events|
  {
    if events != [] {
      match events[0]
      case Input(v) =>
        NoConsecutiveRepeats(Feed(d, v), events[1..]);
      case Wait(dt) =>
        var s := Advance(d, dt);
        NoConsecutiveRepeats(s.next, events[1..]);
    }
  }

  /** The scenario: "J", then "Jo" 100 units later, then 300 units: only "Jo" comes out. */
  lemma LatestOfTwoInputs()
    ensures Run(Feed(Idle, ""), [Wait(300), Input("J"), Wait(100), Input("Jo"), Wait(300)]).emitted == ["", "Jo"]
  {
  }
}
