// Ping classification and the confirmation of state changes
// (monitoring/ping.py, monitoring/state_machine.py).

module Debounce {
  import opened Options

  datatype Operational = OpUp | OpDown

  datatype Detailed = Up | UpUnstable | DownUnstable | Down

  /** The operational state that goes with a detailed state. */
  function OpOf(d: Detailed): Operational { if d.Up? || d.UpUnstable? then OpUp else OpDown }

  datatype PingResult = PingResult(success: nat, failed: nat, rtt: Option<real>)

  datatype Baseline = Baseline(mean: real, stddev: real)

  /** The ratio of answered pings is compared with 1 and with 3/5. */
  function Classify(r: PingResult, baseline: Option<Baseline>): (c: (Operational, Detailed))
    ensures c.0 == OpOf(c.1)
  {
    var total := r.success + r.failed;
    if total == 0 || r.success == 0 then (OpDown, Down)
    else if r.success >= total then
      if baseline.Some? && r.rtt.Some? && r.rtt.value > SlowBound(baseline.value) then (OpUp, UpUnstable)
      else (OpUp, Up)
    else if 5 * r.success >= 3 * total then (OpUp, UpUnstable)
    else (OpDown, DownUnstable)
  }

  /** Three deviations above the mean; the deviation counts as at least 2 ms. */
  function SlowBound(b: Baseline): real {
    b.mean + 3.0 * if b.stddev > 2.0 then b.stddev else 2.0
  }

  /** Slower than the mean by more than three standard deviations, and by more than 6 ms. */
  predicate Slow(r: PingResult, baseline: Option<Baseline>) {
    && r.rtt.Some? && baseline.Some?
    && r.rtt.value > baseline.value.mean + 3.0 * baseline.value.stddev
    && r.rtt.value > baseline.value.mean + 6.0
  }

  /** The cut-offs for every number of pings: no answer is Down and only that, three fifths or more
      is operationally up and only that, and only a full and not too slow answer is Up. */
  lemma Cutoffs(r: PingResult, baseline: Option<Baseline>)
    ensures var c := Classify(r, baseline);
            && (c.1.Down? <==> r.success == 0)
            && (c.0.OpUp? <==> r.success > 0 && 5 * r.success >= 3 * (r.success + r.failed))
            && (c.1.Up? <==> r.success > 0 && r.failed == 0 && !Slow(r, baseline))
            && (c.0.OpUp? <==> c.1.Up? || c.1.UpUnstable?)
  {
  }

  function Severity(d: Detailed): nat {
    match d
    case Up => 0
    case UpUnstable => 1
    case DownUnstable => 2
    case Down => 3
  }

  /** Of as many pings, with the same round-trip time, more answers never classify worse. */
  lemma MoreAnswersNeverWorse(a: PingResult, b: PingResult, baseline: Option<Baseline>)
    requires a.success + a.failed == b.success + b.failed && a.success <= b.success && a.rtt == b.rtt
    ensures Severity(Classify(b, baseline).1) <= Severity(Classify(a, baseline).1)
  {
  }

  // ------------------------------------------------------------------
  // Confirmation
  // ------------------------------------------------------------------

  /** What the state machine remembers between cycles. */
  datatype Tracker = Tracker(confirmed: Detailed, pending: Option<Detailed>, count: nat)

  /** One cycle of the confirmation logic. */
  function Track(threshold: int, t: Tracker, d: Detailed): Tracker {
    if d == t.confirmed then Tracker(t.confirmed, None, 0)
    else if Some(d) == t.pending then
      if t.count + 1 < threshold then Tracker(t.confirmed, Some(d), t.count + 1) else Tracker(d, None, 0)
    else Tracker(t.confirmed, Some(d), 1)
  }

  function TrackAll(threshold: int, start: Detailed, h: seq<Detailed>): Tracker {
    if h == [] then Tracker(start, None, 0)
    else Track(threshold, TrackAll(threshold, start, h[..|h| - 1]), h[|h| - 1])
  }

  /** A first sighting never confirms, so thresholds below two act as two. */
  function Effective(threshold: int): nat { if threshold < 2 then 2 else threshold }

  /** The length of the run of equal classifications at the end of the history. */
  function TrailingRun(h: seq<Detailed>): nat {
    if |h| < 2 then |h|
    else if h[|h| - 2] == h[|h| - 1] then TrailingRun(h[..|h| - 1]) + 1
    else 1
  }

  /** The history ends with n equal classifications. */
  predicate EndsStable(h: seq<Detailed>, n: nat)
    requires n > 0
  {
    n <= |h| && forall i :: |h| - n <= i < |h| ==> h[i] == h[|h| - 1]
  }

  /** The value of the latest stretch of n equal classifications anywhere in the history. */
  function LatestStable(h: seq<Detailed>, n: nat, start: Detailed): Detailed
    requires n > 0
  {
    if h == [] then start
    else if EndsStable(h, n) then h[|h| - 1]
    else LatestStable(h[..|h| - 1], n, start)
  }

  lemma {:induction false} TrailingRunIsStable(h: seq<Detailed>, n: nat)
    requires n > 0
    ensures TrailingRun(h) >= n <==> EndsStable(h, n)
    ensures TrailingRun(h) <= |h|
    decreases |h|
  {
    if |h| >= 2 {
      var init := h[..|h| - 1];
      if n > 1 {
        TrailingRunIsStable(init, n - 1);
        if h[|h| - 2] == h[|h| - 1] && EndsStable(init, n - 1) {
          forall i | |h| - n <= i < |h| ensures h[i] == h[|h| - 1] {
            if i < |h| - 1 { assert init[i] == init[|init| - 1]; }
          }
        }
        if EndsStable(h, n) {
          forall i | |init| - (n - 1) <= i < |init| ensures init[i] == init[|init| - 1] {
            assert init[i] == h[i] && h[i] == h[|h| - 1] && h[|h| - 2] == h[|h| - 1];
          }
        }
      } else {
        TrailingRunIsStable(init, 1);
      }
    }
  }

  /** The whole memory of the state machine is a function of the history: the confirmed state is the
      latest value seen n times in a row, and the pending state with its count is the trailing run,
      unless that run is of the confirmed state. */
  lemma {:induction false} TrackerClosedForm(threshold: int, start: Detailed, h: seq<Detailed>)
    ensures var t, n := TrackAll(threshold, start, h), Effective(threshold);
            && t.confirmed == LatestStable(h, n, start)
            && t.pending == (if h == [] || h[|h| - 1] == t.confirmed then None else Some(h[|h| - 1]))
            && t.count == (if h == [] || h[|h| - 1] == t.confirmed then 0 else TrailingRun(h))
    decreases |h|
  {
    if h != [] {
      var init, d, n := h[..|h| - 1], h[|h| - 1], Effective(threshold);
      TrackerClosedForm(threshold, start, init);
      TrailingRunIsStable(h, n);
      if init != [] {
        assert init[|init| - 1] == h[|h| - 2];
      }
    }
  }

  /** A change is confirmed exactly when a run of a value other than the confirmed one reaches the
      effective threshold; at that moment the run has exactly that length. */
  lemma ConfirmedWhen(threshold: int, start: Detailed, h: seq<Detailed>, d: Detailed)
    ensures var before, after := TrackAll(threshold, start, h), TrackAll(threshold, start, h + [d]);
            && (after.confirmed != before.confirmed <==>
                d != before.confirmed && TrailingRun(h + [d]) == Effective(threshold))
            && (after.confirmed != before.confirmed ==> after.confirmed == d && after.pending == None)
            && after.pending != Some(after.confirmed)
  {
    var n := Effective(threshold);
    TrackerClosedForm(threshold, start, h);
    TrackerClosedForm(threshold, start, h + [d]);
    assert (h + [d])[..|h|] == h;
    TrailingRunIsStable(h + [d], n);
    TrailingRunIsStable(h, n);
    if h != [] {
      assert (h + [d])[|h| - 1] == h[|h| - 1];
      if EndsStable(h, n) {
        assert LatestStable(h, n, start) == h[|h| - 1];
      }
    }
  }
}
