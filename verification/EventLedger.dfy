// The event rows of one endpoint (monitoring/state_machine.py, monitoring/gap_handler.py).

module EventLedger {
  import opened Options
  import opened Debounce

  const ROLLOVER_SECONDS := 86400
  const STARTUP_WINDOW := 7 * 86400

  /** One row of the endpoint's event table; its id is its position. Times are whole seconds. */
  datatype EventRow = EventRow(
    op: Operational, det: Detailed, success: nat, failed: nat, split: bool,
    start: int, end: Option<int>, duration: int, cycles: nat)

  datatype EndpointState = EndpointState(active: nat, op: Operational, det: Detailed, pending: Option<Detailed>,
                                         count: nat)

  /** The table and the engine's memory of the endpoint, if it has one. */
  datatype World = World(rows: seq<EventRow>, state: Option<EndpointState>)

  datatype Event =
    | Cycle(result: PingResult, baseline: Option<Baseline>, now: int)
    | Restart(gap: Option<int>, now: int)

  // ------------------------------------------------------------------
  // Row updates
  // ------------------------------------------------------------------

  function Fresh(op: Operational, det: Detailed, r: PingResult, split: bool, now: int): EventRow {
    EventRow(op, det, r.success, r.failed, split, now, None, 0, 1)
  }

  function Credited(row: EventRow, r: PingResult, now: int): EventRow {
    row.(duration := now - row.start, cycles := row.cycles + 1, success := row.success + r.success,
         failed := row.failed + r.failed)
  }

  function Closed(row: EventRow, now: int): EventRow {
    row.(end := Some(now), duration := now - row.start)
  }

  /** UPDATE ... SET end_time WHERE end_time IS NULL AND start_time >= since. */
  function ClosedSince(rows: seq<EventRow>, since: int, now: int): (out: seq<EventRow>)
    ensures |out| == |rows|
  {
    seq(|rows|, i requires 0 <= i < |rows| =>
        if rows[i].end.None? && rows[i].start >= since then Closed(rows[i], now) else rows[i])
  }

  /** UPDATE ... SET end_time WHERE end_time IS NULL. */
  function ClosedAll(rows: seq<EventRow>, now: int): (out: seq<EventRow>)
    ensures |out| == |rows|
  {
    seq(|rows|, i requires 0 <= i < |rows| => if rows[i].end.None? then Closed(rows[i], now) else rows[i])
  }

  predicate OpenAt(rows: seq<EventRow>, i: nat) { i < |rows| && rows[i].end.None? }

  predicate RollsOver(rows: seq<EventRow>, i: nat, now: int) {
    OpenAt(rows, i) && now - rows[i].start >= ROLLOVER_SECONDS
  }

  // ------------------------------------------------------------------
  // The steps
  // ------------------------------------------------------------------

  function TrackerOf(s: EndpointState): Tracker { Tracker(s.det, s.pending, s.count) }

  /** The state after the confirmation logic, before the rows are touched. */
  function Confirmed(threshold: int, s: EndpointState, c: (Operational, Detailed)): EndpointState {
    var t := Track(threshold, TrackerOf(s), c.1);
    EndpointState(s.active, if t.confirmed == s.det then s.op else c.0, t.confirmed, t.pending, t.count)
  }

  function FirstCycle(r: PingResult, baseline: Option<Baseline>, rows: seq<EventRow>, now: int): World {
    var c := Classify(r, baseline);
    World(rows + [Fresh(c.0, c.1, r, false, now)], Some(EndpointState(|rows|, c.0, c.1, None, 0)))
  }

  /** The rows after a cycle whose confirmed state did not change: rollover, update or reopening. */
  function Continued(rows: seq<EventRow>, next: EndpointState, r: PingResult, now: int): World {
    var a := next.active;
    if RollsOver(rows, a, now) then
      World(rows[a := Closed(Credited(rows[a], r, now), now)] + [Fresh(next.op, next.det, r, true, now)],
            Some(next.(active := |rows|)))
    else if OpenAt(rows, a) then World(rows[a := Credited(rows[a], r, now)], Some(next))
    else World(rows + [Fresh(next.op, next.det, r, false, now)], Some(next.(active := |rows|)))
  }

  function Transitioned(rows: seq<EventRow>, next: EndpointState, r: PingResult, now: int): World {
    World(ClosedAll(rows, now) + [Fresh(next.op, next.det, r, false, now)], Some(next.(active := |rows|)))
  }

  function Cycled(threshold: int, w: World, r: PingResult, baseline: Option<Baseline>, now: int): World {
    if w.state.None? then FirstCycle(r, baseline, w.rows, now)
    else
      var s := w.state.value;
      var next := Confirmed(threshold, s, Classify(r, baseline));
      if next.det == s.det then Continued(w.rows, next, r, now) else Transitioned(w.rows, next, r, now)
  }

  /** The row with the latest start; rows are inserted in order of time. */
  function LoadedState(rows: seq<EventRow>): Option<EndpointState> {
    if rows == [] then None
    else Some(EndpointState(|rows| - 1, rows[|rows| - 1].op, rows[|rows| - 1].det, None, 0))
  }

  /** A start of the engine: recent open rows close at the start of the unresolved gap, or now if there
      is none; then the state is loaded from the latest row. */
  function Restarted(w: World, gap: Option<int>, now: int): World {
    var at := gap.GetOr(now);
    var rows := ClosedSince(w.rows, at - STARTUP_WINDOW, at);
    World(rows, LoadedState(rows))
  }

  function Step(threshold: int, w: World, e: Event): World {
    match e
    case Cycle(r, baseline, now) => Cycled(threshold, w, r, baseline, now)
    case Restart(gap, now) => Restarted(w, gap, now)
  }

  function Run(threshold: int, events: seq<Event>): World {
    if events == [] then World([], None)
    else Step(threshold, Run(threshold, events[..|events| - 1]), events[|events| - 1])
  }

  // ------------------------------------------------------------------
  // The invariant
  // ------------------------------------------------------------------

  /** Neighbouring rows: the earlier one is closed, they do not overlap, and a gap between them (the
      engine was down) separates rows of the same state only; a row is split off exactly when it goes
      on with its predecessor's state without a gap, and only from a row that has lasted a day. */
  predicate Linked(a: EventRow, b: EventRow) {
    && a.end.Some? && a.start < a.end.value <= b.start
    && (a.end.value < b.start ==> b.det == a.det)
    && (b.split <==> b.det == a.det && a.end.value == b.start)
    && (b.split ==> a.end.value - a.start >= 86400)
  }

  predicate SoundRow(row: EventRow) {
    && row.op == OpOf(row.det)
    && (row.end.Some? ==> row.start < row.end.value && row.duration == row.end.value - row.start)
  }

  ghost predicate Chain(rows: seq<EventRow>) {
    && (forall i :: 0 <= i < |rows| ==> SoundRow(rows[i]))
    && (forall i {:trigger Linked(rows[i], rows[i + 1])} :: 0 <= i < |rows| - 1 ==> Linked(rows[i], rows[i + 1]))
  }

  ghost predicate StateFits(rows: seq<EventRow>, s: EndpointState) {
    && rows != [] && s.active == |rows| - 1
    && s.det == rows[s.active].det && s.op == rows[s.active].op
    && s.pending != Some(s.det)
    && (s.pending.Some? ==> OpenAt(rows, s.active))
    && (s.pending.Some? <==> s.count > 0)
  }

  ghost predicate Inv(w: World, clock: int) {
    && Chain(w.rows)
    && (w.rows != [] ==> var last := w.rows[|w.rows| - 1];
        last.start <= clock && (last.end.Some? ==> last.end.value <= clock))
    && (if w.state.None? then w.rows == [] else StateFits(w.rows, w.state.value))
  }

  /** After a cycle the last row is open, younger than a day, and the active one. */
  ghost predicate Current(w: World, now: int) {
    && w.rows != [] && w.state.Some? && w.state.value.active == |w.rows| - 1
    && var last := w.rows[|w.rows| - 1];
       last.end.None? && now - last.start < 86400 && last.duration == now - last.start
           && last.det == w.state.value.det && last.op == w.state.value.op
  }

  lemma ChainAppend(rows: seq<EventRow>, row: EventRow)
    requires Chain(rows) && SoundRow(row)
    requires rows != [] ==> Linked(rows[|rows| - 1], row)
    ensures Chain(rows + [row])
  {
    var all := rows + [row];
    forall i | 0 <= i < |all| - 1 ensures Linked(all[i], all[i + 1]) {
      if i < |rows| - 1 {
        assert Linked(rows[i], rows[i + 1]);
      }
    }
  }

  /** Replacing the last row by one with the same start, state and split mark keeps the chain. */
  lemma ChainReplaceLast(rows: seq<EventRow>, row: EventRow)
    requires rows != [] && Chain(rows) && SoundRow(row)
    requires var last := rows[|rows| - 1]; row.start == last.start && row.det == last.det && row.split == last.split
    ensures Chain(rows[|rows| - 1 := row])
  {
    var n := |rows| - 1;
    var all := rows[n := row];
    forall i | 0 <= i < |all| - 1 ensures Linked(all[i], all[i + 1]) {
      assert Linked(rows[i], rows[i + 1]);
    }
  }

  /** In a chain only the last row can be open. */
  lemma OnlyLastOpen(rows: seq<EventRow>, i: nat)
    requires Chain(rows) && OpenAt(rows, i)
    ensures i == |rows| - 1
  {
    if i + 1 < |rows| {
      LinkedAt(rows, i);
      assert false;
    }
  }

  lemma LinkedAt(rows: seq<EventRow>, i: nat)
    requires Chain(rows) && i + 1 < |rows|
    ensures Linked(rows[i], rows[i + 1])
  {
  }

  lemma ClosedAllLast(rows: seq<EventRow>, now: int)
    requires rows != [] && Chain(rows) && OpenAt(rows, |rows| - 1)
    ensures ClosedAll(rows, now) == rows[|rows| - 1 := Closed(rows[|rows| - 1], now)]
  {
    forall i | 0 <= i < |rows| - 1 ensures ClosedAll(rows, now)[i] == rows[i] {
      if OpenAt(rows, i) { OnlyLastOpen(rows, i); }
    }
  }

  lemma ClosedSinceLast(rows: seq<EventRow>, since: int, now: int)
    requires Chain(rows)
    ensures ClosedSince(rows, since, now) ==
            if rows != [] && OpenAt(rows, |rows| - 1) && rows[|rows| - 1].start >= since
            then rows[|rows| - 1 := Closed(rows[|rows| - 1], now)] else rows
  {
    forall i | 0 <= i < |rows| - 1 ensures ClosedSince(rows, since, now)[i] == rows[i] {
      if OpenAt(rows, i) { OnlyLastOpen(rows, i); }
    }
  }

  // ------------------------------------------------------------------
  // Every step keeps it
  // ------------------------------------------------------------------

  lemma ContinuedKeeps(rows: seq<EventRow>, next: EndpointState, r: PingResult, now: int, clock: int)
    requires Inv(World(rows, Some(next.(pending := None, count := 0))), clock) && clock < now
    requires next.pending != Some(next.det) && (next.pending.Some? <==> next.count > 0)
    ensures Inv(Continued(rows, next, r, now), now) && Current(Continued(rows, next, r, now), now)
  {
    var a := next.active;
    assert SoundRow(rows[a]);
    var successor := Fresh(next.op, next.det, r, RollsOver(rows, a, now), now);
    if RollsOver(rows, a, now) {
      var closed := Closed(Credited(rows[a], r, now), now);
      ChainReplaceLast(rows, closed);
      ChainAppend(rows[a := closed], successor);
    } else if OpenAt(rows, a) {
      ChainReplaceLast(rows, Credited(rows[a], r, now));
    } else {
      ChainAppend(rows, successor);
    }
  }

  lemma TransitionedKeeps(rows: seq<EventRow>, next: EndpointState, r: PingResult, now: int, clock: int)
    requires Chain(rows) && rows != [] && next.active == |rows| - 1 && OpenAt(rows, next.active)
    requires rows[next.active].start <= clock < now && next.det != rows[next.active].det
    requires next.op == OpOf(next.det) && next.pending == None && next.count == 0
    ensures Inv(Transitioned(rows, next, r, now), now) && Current(Transitioned(rows, next, r, now), now)
  {
    var a := next.active;
    assert SoundRow(rows[a]);
    ClosedAllLast(rows, now);
    ChainReplaceLast(rows, Closed(rows[a], now));
    ChainAppend(rows[a := Closed(rows[a], now)], Fresh(next.op, next.det, r, false, now));
  }

  lemma CycleKeeps(threshold: int, w: World, r: PingResult, baseline: Option<Baseline>, now: int, clock: int)
    requires Inv(w, clock) && clock < now
    ensures Inv(Cycled(threshold, w, r, baseline, now), now)
    ensures Current(Cycled(threshold, w, r, baseline, now), now)
  {
    var c := Classify(r, baseline);
    if w.state.None? {
      ChainAppend(w.rows, Fresh(c.0, c.1, r, false, now));
    } else {
      var s := w.state.value;
      var next := Confirmed(threshold, s, c);
      assert SoundRow(w.rows[s.active]);
      if next.det == s.det {
        ContinuedKeeps(w.rows, next, r, now, clock);
      } else {
        TransitionedKeeps(w.rows, next, r, now, clock);
      }
    }
  }

  /** Every recent open row started before the time at which a restart closes rows. */
  predicate OpenBefore(rows: seq<EventRow>, at: int) {
    forall i :: 0 <= i < |rows| && OpenAt(rows, i) && rows[i].start >= at - STARTUP_WINDOW ==> rows[i].start < at
  }

  lemma RestartShape(w: World, gap: Option<int>, now: int)
    requires Chain(w.rows) && OpenBefore(w.rows, gap.GetOr(now))
    ensures var at, rows, n := gap.GetOr(now), Restarted(w, gap, now).rows, |w.rows| - 1;
            && Chain(rows) && |rows| == |w.rows|
            && (n >= 0 ==> rows[n] == w.rows[n] || (OpenAt(w.rows, n) && rows[n] == Closed(w.rows[n], at)))
  {
    var at, n := gap.GetOr(now), |w.rows| - 1;
    ClosedSinceLast(w.rows, at - STARTUP_WINDOW, at);
    if n >= 0 && OpenAt(w.rows, n) && w.rows[n].start >= at - STARTUP_WINDOW {
      assert SoundRow(w.rows[n]);
      ChainReplaceLast(w.rows, Closed(w.rows[n], at));
    }
  }

  lemma RestartKeeps(w: World, gap: Option<int>, now: int, clock: int)
    requires Inv(w, clock) && clock < now && gap.GetOr(now) <= now && OpenBefore(w.rows, gap.GetOr(now))
    ensures Inv(Restarted(w, gap, now), now)
  {
    hide Chain, OpenBefore, ClosedSince;
    RestartShape(w, gap, now);
  }

  /** A row that ends no later than it starts. */
  predicate Inverted(rows: seq<EventRow>, i: nat) {
    i < |rows| && rows[i].end.Some? && rows[i].end.value <= rows[i].start
  }

  lemma RestartInverts(w: World, gap: Option<int>, now: int)
    requires !OpenBefore(w.rows, gap.GetOr(now))
    ensures exists i :: Inverted(Restarted(w, gap, now).rows, i)
  {
    var at := gap.GetOr(now);
    var i :| 0 <= i < |w.rows| && OpenAt(w.rows, i) && w.rows[i].start >= at - STARTUP_WINDOW && w.rows[i].start >= at;
    assert Inverted(Restarted(w, gap, now).rows, i);
  }

  lemma InvertedIsUnsound(rows: seq<EventRow>, i: nat)
    requires Inverted(rows, i)
    ensures !Chain(rows)
  {
    assert !SoundRow(rows[i]);
  }

  /** A restart keeps the chain exactly when it finds no recent open row that started at or after the
      time at which it closes rows; an unresolved gap that is older than the open row breaks it. */
  lemma RestartKeepsIff(w: World, gap: Option<int>, now: int)
    requires Chain(w.rows)
    ensures Chain(Restarted(w, gap, now).rows) <==> OpenBefore(w.rows, gap.GetOr(now))
  {
    if OpenBefore(w.rows, gap.GetOr(now)) {
      RestartShape(w, gap, now);
    } else {
      RestartInverts(w, gap, now);
      var i :| Inverted(Restarted(w, gap, now).rows, i);
      InvertedIsUnsound(Restarted(w, gap, now).rows, i);
    }
  }

  /** No step touches a closed row again. */
  lemma ClosedRowsStay(threshold: int, w: World, e: Event, i: nat)
    requires i < |w.rows| && w.rows[i].end.Some?
    ensures var rows := Step(threshold, w, e).rows; i < |rows| && rows[i] == w.rows[i]
  {
  }

  /** A cycle at 10 and a restart at 20 that finds a gap unresolved since 5: the row of the cycle ends
      before it starts. */
  lemma OldGapEndsBeforeStart(threshold: int, r: PingResult)
    ensures var w := Run(threshold, [Cycle(r, None, 10), Restart(Some(5), 20)]);
            && |w.rows| == 1 && w.rows[0].start == 10 && w.rows[0].end == Some(5) && w.rows[0].duration == -5
            && !Chain(w.rows)
  {
    var first, both := [Cycle(r, None, 10)], [Cycle(r, None, 10), Restart(Some(5), 20)];
    assert first[..0] == [] && both[..1] == first;
    var w := Run(threshold, both);
    assert w == Step(threshold, Run(threshold, first), both[1]);
    assert Run(threshold, first) == Step(threshold, World([], None), first[0]);
    assert !SoundRow(w.rows[0]);
  }

  // ------------------------------------------------------------------
  // Runs
  // ------------------------------------------------------------------

  /** The clock strictly increases, and a gap found at a restart opened before it. */
  predicate Timed(events: seq<Event>) {
    && (forall e :: e in events && e.Restart? ==> e.gap.GetOr(e.now) <= e.now)
    && (forall i {:trigger events[i + 1]} :: 0 <= i < |events| - 1 ==> events[i].now < events[i + 1].now)
  }

  /** Every gap found at a restart opened after the start of the row that is open then. */
  predicate GapsFit(threshold: int, events: seq<Event>) {
    events == []
    || var init, e := events[..|events| - 1], events[|events| - 1];
       GapsFit(threshold, init) && (e.Restart? ==> OpenBefore(Run(threshold, init).rows, e.gap.GetOr(e.now)))
  }

  lemma TimedLast(events: seq<Event>)
    requires Timed(events) && events != []
    ensures var e := events[|events| - 1]; e.Restart? ==> e.gap.GetOr(e.now) <= e.now
    ensures |events| >= 2 ==> events[|events| - 2].now < events[|events| - 1].now
  {
    var i := |events| - 2;
    assert events[|events| - 1] in events;
    if i >= 0 {
      assert events[i].now < events[i + 1].now;
    }
  }

  lemma TimedInit(events: seq<Event>)
    requires Timed(events) && events != []
    ensures Timed(events[..|events| - 1])
  {
    var init := events[..|events| - 1];
    assert forall e :: e in init ==> e in events;
    forall i | 0 <= i < |init| - 1 ensures init[i].now < init[i + 1].now {
      assert events[i].now < events[i + 1].now;
    }
  }

  lemma {:induction false} RunInv(threshold: int, events: seq<Event>)
    requires Timed(events) && GapsFit(threshold, events)
    ensures events != [] ==> Inv(Run(threshold, events), events[|events| - 1].now)
    ensures events != [] && events[|events| - 1].Cycle? ==> Current(Run(threshold, events), events[|events| - 1].now)
    decreases |events|
  {
    if events != [] {
      var init, e := events[..|events| - 1], events[|events| - 1];
      var w := Run(threshold, init);
      TimedInit(events);
      RunInv(threshold, init);
      var clock := if init == [] then e.now - 1 else init[|init| - 1].now;
      TimedLast(events);
      assert Inv(w, clock);
      match e {
        case Cycle(r, baseline, now) => CycleKeeps(threshold, w, r, baseline, now, clock);
        case Restart(gap, now) => RestartKeeps(w, gap, now, clock);
      }
    }
  }

  /** Over any run the rows form a chain exactly when every gap fits: a row that a restart ended before
      its start stays in the table. */
  lemma {:induction false} ChainIffGapsFit(threshold: int, events: seq<Event>)
    requires Timed(events)
    ensures Chain(Run(threshold, events).rows) <==> GapsFit(threshold, events)
    ensures !GapsFit(threshold, events) ==> exists i :: Inverted(Run(threshold, events).rows, i)
    decreases |events|
  {
    if GapsFit(threshold, events) {
      RunInv(threshold, events);
    } else {
      var init, e := events[..|events| - 1], events[|events| - 1];
      TimedInit(events);
      ChainIffGapsFit(threshold, init);
      var w := Run(threshold, init);
      if GapsFit(threshold, init) {
        RestartInverts(w, e.gap, e.now);
      } else {
        var i :| Inverted(w.rows, i);
        ClosedRowsStay(threshold, w, e, i);
        assert Inverted(Step(threshold, w, e).rows, i);
      }
      var i :| Inverted(Run(threshold, events).rows, i);
      InvertedIsUnsound(Run(threshold, events).rows, i);
    }
  }

  /** Ledger safety: whatever happens, rows never overlap, at most the last row is open, a change of
      state leaves no gap, a row is split off exactly when it goes on without a gap in the same state,
      and then after a day at least, durations are the distance from start to end, after every cycle
      the open row is the active one, carries the confirmed state and is younger than a day,
          and the confirmed operational state always is the one
      that goes with the confirmed detailed state. */
  lemma LedgerSafe(threshold: int, events: seq<Event>)
    requires Timed(events) && GapsFit(threshold, events) && events != []
    ensures var w := Run(threshold, events);
            && (forall i, j :: 0 <= i < j < |w.rows| ==> w.rows[i].end.Some? && w.rows[i].end.value <= w.rows[j].start)
            && (forall i :: 0 <= i < |w.rows| - 1 && w.rows[i + 1].det != w.rows[i].det ==>
                  w.rows[i].end == Some(w.rows[i + 1].start))
            && (forall i :: 0 <= i < |w.rows| - 1 ==>
                  (w.rows[i + 1].split <==>
                   w.rows[i + 1].det == w.rows[i].det && w.rows[i].end == Some(w.rows[i + 1].start)))
            && (forall i :: 0 <= i < |w.rows| - 1 && w.rows[i + 1].split ==> w.rows[i].duration >= 86400)
            && (forall i :: 0 <= i < |w.rows| && w.rows[i].end.Some? ==>
                  w.rows[i].duration == w.rows[i].end.value - w.rows[i].start > 0)
            && (events[|events| - 1].Cycle? ==> Current(w, events[|events| - 1].now))
            && (w.state.Some? ==> w.state.value.op == OpOf(w.state.value.det))
            && (w.state.None? <==> w.rows == [])
  {
    RunInv(threshold, events);
    var rows := Run(threshold, events).rows;
    forall i, j | 0 <= i < j < |rows| ensures rows[i].end.Some? && rows[i].end.value <= rows[j].start {
      ChainOrdered(rows, i, j);
    }
    forall i | 0 <= i < |rows|
      ensures rows[i].end.Some? ==> rows[i].duration == rows[i].end.value - rows[i].start > 0
      ensures i < |rows| - 1 ==> Linked(rows[i], rows[i + 1])
    {
      assert SoundRow(rows[i]);
      if i < |rows| - 1 {
        LinkedAt(rows, i);
      }
    }
  }

  lemma {:induction false} ChainOrdered(rows: seq<EventRow>, i: nat, j: nat)
    requires Chain(rows) && i < j < |rows|
    ensures rows[i].end.Some? && rows[i].end.value <= rows[j].start
    decreases j - i
  {
    assert Linked(rows[i], rows[i + 1]);
    if i + 1 < j {
      ChainOrdered(rows, i + 1, j);
      assert SoundRow(rows[i + 1]);
    }
  }

  /** The last row of a chain is the one with the greatest start. */
  lemma LastStartsLast(rows: seq<EventRow>)
    requires Chain(rows)
    ensures forall i :: 0 <= i < |rows| - 1 ==> rows[i].start < rows[|rows| - 1].start
  {
    forall i | 0 <= i < |rows| - 1 ensures rows[i].start < rows[|rows| - 1].start {
      ChainOrdered(rows, i, |rows| - 1);
      assert SoundRow(rows[i]);
    }
  }

  // ------------------------------------------------------------------
  // Cycle accounting
  // ------------------------------------------------------------------

  datatype Counter = Cycles | Successes | Failures

  function CountOf(c: Counter, row: EventRow): nat {
    match c
    case Cycles => row.cycles
    case Successes => row.success
    case Failures => row.failed
  }

  function AmountOf(c: Counter, r: PingResult): nat {
    match c
    case Cycles => 1
    case Successes => r.success
    case Failures => r.failed
  }

  function Total(c: Counter, rows: seq<EventRow>): nat {
    if rows == [] then 0 else Total(c, rows[..|rows| - 1]) + CountOf(c, rows[|rows| - 1])
  }

  /** The step closes a row that has grown a day old and opens its continuation. */
  predicate IsRollover(threshold: int, w: World, e: Event) {
    && e.Cycle? && w.state.Some?
    && Confirmed(threshold, w.state.value, Classify(e.result, e.baseline)).det == w.state.value.det
    && RollsOver(w.rows, w.state.value.active, e.now)
  }

  /** What a step adds to the totals: a rollover credits its cycle to both rows. */
  function Credit(c: Counter, threshold: int, w: World, e: Event): nat {
    if e.Restart? then 0
    else if IsRollover(threshold, w, e) then AmountOf(c, e.result) + AmountOf(c, e.result)
    else AmountOf(c, e.result)
  }

  function Credits(c: Counter, threshold: int, events: seq<Event>): nat {
    if events == [] then 0
    else
      Credits(c, threshold, events[..|events| - 1])
      + Credit(c, threshold, Run(threshold, events[..|events| - 1]), events[|events| - 1])
  }

  lemma TotalAppend(c: Counter, rows: seq<EventRow>, row: EventRow)
    ensures Total(c, rows + [row]) == Total(c, rows) + CountOf(c, row)
  {
    assert (rows + [row])[..|rows|] == rows;
  }

  lemma TotalReplaceLast(c: Counter, rows: seq<EventRow>, row: EventRow)
    requires rows != []
    ensures Total(c, rows[|rows| - 1 := row]) == Total(c, rows) - CountOf(c, rows[|rows| - 1]) + CountOf(c, row)
  {
    assert rows[|rows| - 1 := row][..|rows| - 1] == rows[..|rows| - 1];
  }

  lemma ContinuedTotal(c: Counter, rows: seq<EventRow>, next: EndpointState, r: PingResult, now: int)
    requires rows != [] && next.active == |rows| - 1
    ensures Total(c, Continued(rows, next, r, now).rows) ==
            Total(c, rows)
            + if RollsOver(rows, next.active, now) then AmountOf(c, r) + AmountOf(c, r) else AmountOf(c, r)
  {
    var a := next.active;
    if RollsOver(rows, a, now) {
      var closed := Closed(Credited(rows[a], r, now), now);
      TotalReplaceLast(c, rows, closed);
      TotalAppend(c, rows[a := closed], Fresh(next.op, next.det, r, true, now));
    } else if OpenAt(rows, a) {
      TotalReplaceLast(c, rows, Credited(rows[a], r, now));
    } else {
      TotalAppend(c, rows, Fresh(next.op, next.det, r, false, now));
    }
  }

  predicate SameCounts(a: EventRow, b: EventRow) {
    a.cycles == b.cycles && a.success == b.success && a.failed == b.failed && a.split == b.split
  }

  /** Closing rows changes no count and no split mark. */
  lemma {:induction false} SameCountsAddUp(c: Counter, a: seq<EventRow>, b: seq<EventRow>)
    requires |a| == |b| && forall i :: 0 <= i < |a| ==> SameCounts(a[i], b[i])
    ensures Total(c, a) == Total(c, b) && SplitRows(a) == SplitRows(b)
    decreases |a|
  {
    if a != [] {
      assert SameCounts(a[|a| - 1], b[|b| - 1]);
      SameCountsAddUp(c, a[..|a| - 1], b[..|b| - 1]);
    }
  }

  lemma TransitionedTotal(c: Counter, rows: seq<EventRow>, next: EndpointState, r: PingResult, now: int)
    ensures Total(c, Transitioned(rows, next, r, now).rows) == Total(c, rows) + AmountOf(c, r)
  {
    SameCountsAddUp(c, rows, ClosedAll(rows, now));
    TotalAppend(c, ClosedAll(rows, now), Fresh(next.op, next.det, r, false, now));
  }

  /** The engine's memory points at the last row. */
  predicate AtLast(w: World) { w.state.Some? ==> w.rows != [] && w.state.value.active == |w.rows| - 1 }

  lemma RunAtLast(threshold: int, events: seq<Event>)
    ensures AtLast(Run(threshold, events))
  {
  }

  lemma StepCredits(c: Counter, threshold: int, w: World, e: Event)
    requires AtLast(w)
    ensures Total(c, Step(threshold, w, e).rows) == Total(c, w.rows) + Credit(c, threshold, w, e)
  {
    hide Classify, Total, Continued, Transitioned;
    match e {
      case Restart(gap, now) => SameCountsAddUp(c, w.rows, Restarted(w, gap, now).rows);
      case Cycle(r, baseline, now) =>
        var k := Classify(r, baseline);
        if w.state.None? {
          TotalAppend(c, w.rows, Fresh(k.0, k.1, r, false, now));
        } else {
          var next := Confirmed(threshold, w.state.value, k);
          if next.det == w.state.value.det {
            ContinuedTotal(c, w.rows, next, r, now);
          } else {
            TransitionedTotal(c, w.rows, next, r, now);
          }
        }
    }
  }

  /** Accounting over any run, whatever the clock and the gaps: the cycle, success and failure counts of
      all rows add up to what the cycles delivered, with the cycle of each rollover counted twice. */
  lemma {:induction false} CountsAddUp(c: Counter, threshold: int, events: seq<Event>)
    ensures Total(c, Run(threshold, events).rows) == Credits(c, threshold, events)
    decreases |events|
  {
    if events != [] {
      var init := events[..|events| - 1];
      CountsAddUp(c, threshold, init);
      RunAtLast(threshold, init);
      StepCredits(c, threshold, Run(threshold, init), events[|events| - 1]);
    }
  }

  function SplitRows(rows: seq<EventRow>): nat {
    if rows == [] then 0 else SplitRows(rows[..|rows| - 1]) + if rows[|rows| - 1].split then 1 else 0
  }

  function CycleEvents(events: seq<Event>): nat {
    if events == [] then 0 else CycleEvents(events[..|events| - 1]) + if events[|events| - 1].Cycle? then 1 else 0
  }

  lemma SplitAppend(rows: seq<EventRow>, row: EventRow)
    ensures SplitRows(rows + [row]) == SplitRows(rows) + if row.split then 1 else 0
  {
    assert (rows + [row])[..|rows|] == rows;
  }

  lemma SplitReplaceLast(rows: seq<EventRow>, row: EventRow)
    requires rows != [] && row.split == rows[|rows| - 1].split
    ensures SplitRows(rows[|rows| - 1 := row]) == SplitRows(rows)
  {
    assert rows[|rows| - 1 := row][..|rows| - 1] == rows[..|rows| - 1];
  }

  lemma StepSplits(threshold: int, w: World, e: Event)
    requires AtLast(w)
    ensures SplitRows(Step(threshold, w, e).rows) == SplitRows(w.rows) + if IsRollover(threshold, w, e) then 1 else 0
  {
    var rows, a := w.rows, |w.rows| - 1;
    match e {
      case Restart(gap, now) =>
        SameCountsAddUp(Cycles, rows, Restarted(w, gap, now).rows);
      case Cycle(r, baseline, now) =>
        var k := Classify(r, baseline);
        if w.state.None? {
          SplitAppend(rows, Fresh(k.0, k.1, r, false, now));
        } else {
          var next := Confirmed(threshold, w.state.value, k);
          if next.det != w.state.value.det {
            SameCountsAddUp(Cycles, rows, ClosedAll(rows, now));
            SplitAppend(ClosedAll(rows, now), Fresh(next.op, next.det, r, false, now));
          } else if RollsOver(rows, a, now) {
            var closed := Closed(Credited(rows[a], r, now), now);
            SplitReplaceLast(rows, closed);
            SplitAppend(rows[a := closed], Fresh(next.op, next.det, r, true, now));
          } else if OpenAt(rows, a) {
            SplitReplaceLast(rows, Credited(rows[a], r, now));
          } else {
            SplitAppend(rows, Fresh(next.op, next.det, r, false, now));
          }
        }
    }
  }

  /** The cycle counts of all rows add up to the processed cycles plus one for every split row. */
  lemma {:induction false} CyclesAddUp(threshold: int, events: seq<Event>)
    ensures Total(Cycles, Run(threshold, events).rows) == CycleEvents(events) + SplitRows(Run(threshold, events).rows)
    decreases |events|
  {
    if events != [] {
      var init := events[..|events| - 1];
      CyclesAddUp(threshold, init);
      RunAtLast(threshold, init);
      StepCredits(Cycles, threshold, Run(threshold, init), events[|events| - 1]);
      StepSplits(threshold, Run(threshold, init), events[|events| - 1]);
    }
  }

  // ------------------------------------------------------------------
  // The ledger follows the confirmation logic
  // ------------------------------------------------------------------

  function Classes(events: seq<Event>): seq<Detailed>
    requires forall e :: e in events ==> e.Cycle?
  {
    seq(|events|, i requires 0 <= i < |events| => Classify(events[i].result, events[i].baseline).1)
  }

  function RunFrom(threshold: int, w: World, events: seq<Event>): World {
    if events == [] then w else Step(threshold, RunFrom(threshold, w, events[..|events| - 1]), events[|events| - 1])
  }

  /** From a freshly created or loaded state, the memory after any cycles is the tracker of their
      classifications: rows and timing never influence what gets confirmed. */
  lemma {:induction false} MemoryIsTracker(threshold: int, w: World, events: seq<Event>)
    requires w.state.Some? && w.state.value.pending == None && w.state.value.count == 0
    requires forall e :: e in events ==> e.Cycle?
    ensures RunFrom(threshold, w, events).state.Some?
    ensures TrackerOf(RunFrom(threshold, w, events).state.value) ==
            TrackAll(threshold, w.state.value.det, Classes(events))
    decreases |events|
  {
    if events != [] {
      var init := events[..|events| - 1];
      assert forall e :: e in init ==> e in events;
      MemoryIsTracker(threshold, w, init);
      assert Classes(events)[..|events| - 1] == Classes(init);
      assert events[|events| - 1] in events;
    }
  }

  lemma {:induction false} RunConcat(threshold: int, a: seq<Event>, b: seq<Event>)
    ensures Run(threshold, a + b) == RunFrom(threshold, Run(threshold, a), b)
    decreases |b|
  {
    hide Step;
    if b == [] {
      assert a + b == a;
    } else {
      var n := |b| - 1;
      RunConcat(threshold, a, b[..n]);
      assert (a + b)[..|a| + n] == a + b[..n] && (a + b)[|a| + n] == b[n];
    }
  }

  /** The active row is the last one and carries the confirmed state. */
  predicate Matches(w: World) {
    && (w.state.None? <==> w.rows == [])
    && (w.state.Some? ==>
          var s, row := w.state.value, w.rows[|w.rows| - 1];
          s.active == |w.rows| - 1 && s.det == row.det && s.op == row.op == OpOf(row.det))
  }

  lemma ConfirmedMatches(threshold: int, s: EndpointState, c: (Operational, Detailed))
    requires s.op == OpOf(s.det) && c.0 == OpOf(c.1)
    ensures var next := Confirmed(threshold, s, c); next.active == s.active && next.op == OpOf(next.det)
  {
  }

  lemma StepMatches(threshold: int, w: World, e: Event)
    requires Matches(w)
    ensures Matches(Step(threshold, w, e))
  {
    hide Classify, Confirmed, OpOf;
    if e.Cycle? && w.state.Some? {
      ConfirmedMatches(threshold, w.state.value, Classify(e.result, e.baseline));
    }
  }

  /** So it is after any run whatever. */
  lemma {:induction false} ActiveRow(threshold: int, events: seq<Event>)
    ensures Matches(Run(threshold, events))
    decreases |events|
  {
    hide Step;
    if events != [] {
      ActiveRow(threshold, events[..|events| - 1]);
      StepMatches(threshold, Run(threshold, events[..|events| - 1]), events[|events| - 1]);
    }
  }

  lemma KnownFrom(threshold: int, before: seq<Event>, first: Event)
    requires first.Cycle? ==> Run(threshold, before).rows == []
    requires first.Restart? ==> Run(threshold, before).rows != []
    ensures var w := Run(threshold, before + [first]);
            && w.state.Some? && w.state.value.pending == None && w.state.value.count == 0
            && w.state.value.det ==
               if first.Cycle? then Classify(first.result, first.baseline).1
               else var rows := Run(threshold, before).rows; rows[|rows| - 1].det
  {
    hide Classify;
    assert (before + [first])[..|before|] == before;
    ActiveRow(threshold, before);
  }

  /** What an endpoint is confirmed as: the latest classification seen max(threshold, 2) times in a row
      since the engine has known it, and before that the classification of its first cycle ever or,
      after a restart, the state of its last row. */
  lemma ConfirmedIsMeasured(threshold: int, before: seq<Event>, first: Event, cycles: seq<Event>)
    requires forall e :: e in cycles ==> e.Cycle?
    requires first.Cycle? ==> Run(threshold, before).rows == []
    requires first.Restart? ==> Run(threshold, before).rows != []
    ensures var w := Run(threshold, before + [first] + cycles);
            var start := if first.Cycle? then Classify(first.result, first.baseline).1
                         else var rows := Run(threshold, before).rows; rows[|rows| - 1].det;
            && w.state.Some? && w.rows != []
            && w.state.value.det == LatestStable(Classes(cycles), if threshold < 2 then 2 else threshold, start)
            && w.rows[|w.rows| - 1].det == w.state.value.det
            && w.rows[|w.rows| - 1].op == w.state.value.op == OpOf(w.state.value.det)
  {
    hide Run, RunFrom, Classify, Classes, LatestStable;
    var known := before + [first];
    KnownFrom(threshold, before, first);
    RunConcat(threshold, known, cycles);
    MemoryIsTracker(threshold, Run(threshold, known), cycles);
    TrackerClosedForm(threshold, Run(threshold, known).state.value.det, Classes(cycles));
    ActiveRow(threshold, known + cycles);
  }

  /** A restart closes exactly the rows that are open and started in the seven days before its closing
      time, and forgets a pending change. */
  lemma RestartCloses(w: World, gap: Option<int>, now: int, i: nat)
    requires i < |w.rows|
    ensures var at, w' := if gap.Some? then gap.value else now, Restarted(w, gap, now);
            && |w'.rows| == |w.rows| && w'.state.Some? && w'.state.value.pending == None && w'.state.value.count == 0
            && w'.rows[i] ==
               if w.rows[i].end.None? && w.rows[i].start >= at - 7 * 24 * 3600
               then w.rows[i].(end := Some(at), duration := at - w.rows[i].start)
               else w.rows[i]
  {
  }

  // ------------------------------------------------------------------
  // Which row counts which cycle
  // ------------------------------------------------------------------

  /** What the cycles since a time delivered. */
  function CreditsSince(c: Counter, events: seq<Event>, since: int): nat {
    if events == [] then 0
    else
      var e := events[|events| - 1];
      CreditsSince(c, events[..|events| - 1], since) + if e.Cycle? && e.now >= since then AmountOf(c, e.result) else 0
  }

  lemma {:induction false} NoCreditsYet(c: Counter, events: seq<Event>, since: int)
    requires Timed(events) && (events != [] ==> events[|events| - 1].now < since)
    ensures CreditsSince(c, events, since) == 0
    decreases |events|
  {
    if events != [] {
      TimedInit(events);
      TimedLast(events);
      NoCreditsYet(c, events[..|events| - 1], since);
    }
  }

  /** A cycle is counted on the row it finds when the confirmed state stays, and on the row it opens. */
  lemma CycleCounts(c: Counter, threshold: int, w: World, e: Event)
    requires Matches(w) && e.Cycle?
    ensures var w', n := Step(threshold, w, e), |w.rows|;
            && (|w'.rows| == n || |w'.rows| == n + 1)
            && (|w'.rows| == n + 1 ==> CountOf(c, w'.rows[n]) == AmountOf(c, e.result) && w'.rows[n].start == e.now)
            && (n > 0 ==>
                  && w'.state.Some? && w'.rows[n - 1].start == w.rows[n - 1].start
                  && CountOf(c, w'.rows[n - 1]) == CountOf(c, w.rows[n - 1])
                     + if w'.state.value.det == w.state.value.det && w.rows[n - 1].end.None?
                       then AmountOf(c, e.result) else 0)
            && (|w'.rows| == n ==>
                  n > 0 && w'.state.value.det == w.state.value.det && w.rows[n - 1].end.None?)
  {
    hide Classify, Confirmed, OpOf;
    if w.state.Some? {
      var k := Classify(e.result, e.baseline);
      ConfirmedKeepsRow(threshold, w.state.value, k);
    }
  }

  lemma ConfirmedKeepsRow(threshold: int, s: EndpointState, c: (Operational, Detailed))
    ensures Confirmed(threshold, s, c).active == s.active
  {
  }

  /** The last row counts exactly the cycles since its start. */
  lemma {:induction false} LastRowCounts(c: Counter, threshold: int, events: seq<Event>)
    requires Timed(events) && Run(threshold, events).rows != []
    ensures var rows := Run(threshold, events).rows;
            CountOf(c, rows[|rows| - 1]) == CreditsSince(c, events, rows[|rows| - 1].start)
    ensures events != [] && var rows := Run(threshold, events).rows; rows[|rows| - 1].start <= events[|events| - 1].now
    decreases |events|
  {
    hide Step, CountOf, AmountOf;
    var init, e := events[..|events| - 1], events[|events| - 1];
    var w := Run(threshold, init);
    TimedInit(events);
    TimedLast(events);
    ActiveRow(threshold, init);
    if w.rows != [] {
      LastRowCounts(c, threshold, init);
    }
    if e.Cycle? {
      CycleCounts(c, threshold, w, e);
      NoCreditsYet(c, init, e.now);
    } else {
      RestartCounts(c, threshold, w, e);
    }
  }

  lemma RestartCounts(c: Counter, threshold: int, w: World, e: Event)
    requires e.Restart?
    ensures var rows := Step(threshold, w, e).rows;
            |rows| == |w.rows|
            && forall i :: 0 <= i < |rows| ==>
                CountOf(c, rows[i]) == CountOf(c, w.rows[i]) && rows[i].start == w.rows[i].start
  {
  }

  // ------------------------------------------------------------------
  // The state machine object
  // ------------------------------------------------------------------

  class StateMachine {
    const threshold: int
    var rows: seq<EventRow>

    constructor (threshold: int)
      ensures this.threshold == threshold && rows == []
    {
      this.threshold := threshold;
      rows := [];
    }

    method InsertRow(row: EventRow) returns (id: nat)
      modifies this
      ensures rows == old(rows) + [row] && id == |old(rows)|
    {
      id := |rows|;
      rows := rows + [row];
    }

    /** Loads the state from the latest row, if there is one. */
    method InitializeEndpoint() returns (state: Option<EndpointState>)
      ensures state == LoadedState(rows)
      ensures state.None? <==> rows == []
      ensures Chain(rows) && state.Some? ==>
                var a := state.value.active;
                && a < |rows| && state.value.op == rows[a].op && state.value.det == rows[a].det
                && forall i :: 0 <= i < |rows| && i != a ==> rows[i].start < rows[a].start
    {
      if Chain(rows) {
        LastStartsLast(rows);
      }
      if rows == [] {
        return None;
      }
      var last := rows[|rows| - 1];
      return Some(EndpointState(|rows| - 1, last.op, last.det, None, 0));
    }

    method CreateInitialEvent(r: PingResult, baseline: Option<Baseline>, now: int) returns (state: EndpointState)
      modifies this
      ensures World(rows, Some(state)) == FirstCycle(r, baseline, old(rows), now)
      ensures rows == old(rows) + [EventRow(state.op, state.det, r.success, r.failed, false, now, None, 0, 1)]
      ensures state.active == |old(rows)| && state.pending == None && state.count == 0
      ensures state.det.Down? <==> r.success == 0
      ensures state.op.OpUp? <==> r.success > 0 && 5 * r.success >= 3 * (r.success + r.failed)
      ensures state.op.OpUp? <==> state.det.Up? || state.det.UpUnstable?
      ensures state.det.Up? <==> r.success > 0 && r.failed == 0 && !Slow(r, baseline)
    {
      Cutoffs(r, baseline);
      var c := Classify(r, baseline);
      var id := InsertRow(Fresh(c.0, c.1, r, false, now));
      state := EndpointState(id, c.0, c.1, None, 0);
    }

    /** The confirmation cases A, B1 and B2. */
    method Confirm(state: EndpointState, c: (Operational, Detailed)) returns (next: EndpointState)
      ensures next == Confirmed(threshold, state, c)
    {
      if c.1 == state.det {
        next := state.(pending := None, count := 0);
      } else if Some(c.1) == state.pending {
        var count := state.count + 1;
        if count < threshold {
          next := state.(pending := Some(c.1), count := count);
        } else {
          next := EndpointState(state.active, c.0, c.1, None, 0);
        }
      } else {
        next := state.(pending := Some(c.1), count := 1);
      }
    }

    /** Closes the open rows that started at or after `since`. */
    method CloseOpen(since: Option<int>, now: int)
      modifies this
      ensures rows == if since.Some? then ClosedSince(old(rows), since.value, now) else ClosedAll(old(rows), now)
    {
      var out: seq<EventRow> := [];
      for i := 0 to |rows|
        invariant |out| == i && rows == old(rows)
        invariant forall k :: 0 <= k < i ==>
                    out[k] ==
                    if rows[k].end.None? && (since.Some? ==> rows[k].start >= since.value)
                    then Closed(rows[k], now) else rows[k]
      {
        var row := rows[i];
        if row.end.None? && (since.None? || row.start >= since.value) {
          row := row.(end := Some(now), duration := now - row.start);
        }
        out := out + [row];
      }
      rows := out;
    }

    /** One monitoring cycle of an endpoint that already has a state. */
    method ProcessCycle(state: EndpointState, r: PingResult, baseline: Option<Baseline>, now: int)
      returns (next: EndpointState)
      modifies this
      ensures World(rows, Some(next)) == Cycled(threshold, World(old(rows), Some(state)), r, baseline, now)
    {
      var c := Classify(r, baseline);
      next := Confirm(state, c);
      var id := state.active;
      if next.det == state.det {
        var rollover := false;
        if id < |rows| && rows[id].end.None? {
          rollover := now - rows[id].start >= ROLLOVER_SECONDS;
        }
        if rollover {
          var row := rows[id];
          rows := rows[id := row.(end := Some(now), duration := now - row.start, cycles := row.cycles + 1,
                                  success := row.success + r.success, failed := row.failed + r.failed)];
          id := InsertRow(Fresh(next.op, next.det, r, true, now));
        } else if id < |rows| && rows[id].end.None? {
          var row := rows[id];
          rows := rows[id := row.(duration := now - row.start, cycles := row.cycles + 1,
                                  success := row.success + r.success, failed := row.failed + r.failed)];
        } else {
          id := InsertRow(Fresh(next.op, next.det, r, false, now));
        }
      } else {
        CloseOpen(None, now);
        id := InsertRow(Fresh(next.op, next.det, r, false, now));
      }
      next := next.(active := id);
    }

    /** The start of the engine, with the start of the latest unresolved gap if there is one. */
    method ResolveStartup(gap: Option<int>, now: int) returns (state: Option<EndpointState>)
      modifies this
      ensures World(rows, state) == Restarted(World(old(rows), None), gap, now)
    {
      var closeTime := if gap.Some? then gap.value else now;
      CloseOpen(Some(closeTime - STARTUP_WINDOW), closeTime);
      state := InitializeEndpoint();
    }
  }
}
