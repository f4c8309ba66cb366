// The aggregator as a step system: the consumer may add flows between any two steps of a flush
// (monitoring/flow/aggregator.py).

module FlowAggregator {
  import opened Options
  import opened FlowCounters

  /** One stream message; a message that fails the consumer's checks carries no flow. */
  datatype Message = Message(id: string, flow: Option<Flow>)

  type InterfaceIds = set<(Id, int)>

  /** Where the one flush that the lock admits stands. */
  datatype Flush =
    | NoFlush
    | Writing(snap: Entries, ifSnap: Entries, ifaces: InterfaceIds, ack: seq<string>)
    | Committed(snap: Entries, ifSnap: Entries, ifaces: InterfaceIds, ack: seq<string>)
    | Recording(ifaces: InterfaceIds, ack: seq<string>)
    | Acking(ack: seq<string>, sent: nat)

  /** The aggregator's memory, the two tables, and what Redis has been told. */
  datatype State = State(
    acc: Entries, ifAcc: Entries, active: InterfaceIds, pending: seq<string>, flush: Flush,
    table: Entries, ifTable: Entries, recorded: InterfaceIds, acked: set<string>)

  /** The atomic sections between two awaits. */
  datatype Event =
    | Arrive(msg: Message)
    | Start
    | CommitOk
    | CommitFailed
    | DeductSnapshot
    | RecordInterfaces(ok: bool)
    | AckChunk
    | AckFailed
    | Finish

  const ACK_BATCH := 500

  // ------------------------------------------------------------------
  // The steps
  // ------------------------------------------------------------------

  function Arrived(s: State, msg: Message): State {
    var s1 := s.(pending := s.pending + [msg.id]);
    if msg.flow.None? then s1
    else
      var f := msg.flow.value;
      s1.(acc := ConversationsAfter(s.acc, f), ifAcc := InterfacesAfter(s.ifAcc, f), active := s.active + TouchedBy(f))
  }

  function Started(s: State): State {
    if !s.flush.NoFlush? || (s.acc == map[] && s.ifAcc == map[] && s.pending == []) then s
    else if s.acc == map[] && s.ifAcc == map[] then s.(flush := Acking(s.pending, 0))
    else s.(flush := Writing(s.acc, s.ifAcc, s.active, s.pending))
  }

  function AckPhase(ack: seq<string>): Flush { if ack == [] then NoFlush else Acking(ack, 0) }

  function Recorded(s: State, ok: bool): State
    requires s.flush.Recording?
  {
    var s1 := s.(flush := AckPhase(s.flush.ack));
    if ok && s.flush.ifaces != {} then s1.(recorded := s.recorded + s.flush.ifaces, active := s.active - s.flush.ifaces)
    else s1
  }

  function ChunkEnd(ack: seq<string>, sent: nat): nat { if sent + ACK_BATCH <= |ack| then sent + ACK_BATCH else |ack| }

  function IdsOf(ids: seq<string>): set<string> { set id | id in ids }

  function ChunkAcked(s: State): State
    requires s.flush.Acking?
  {
    var ack, sent := s.flush.ack, s.flush.sent;
    var end := ChunkEnd(ack, sent);
    if sent < end then s.(acked := s.acked + IdsOf(ack[sent..end]), flush := Acking(ack, end)) else s
  }

  function Finished(s: State): State
    requires s.flush.Acking?
  {
    var n := |s.flush.ack|;
    if s.flush.sent < n then s
    else s.(pending := if n <= |s.pending| then s.pending[n..] else [], flush := NoFlush)
  }

  /** One step; an event that does not fit the flush's position changes nothing. */
  ghost function Step(s: State, e: Event): State {
    match e
    case Arrive(msg) => Arrived(s, msg)
    case Start => Started(s)
    case CommitOk =>
      if s.flush.Writing? then
        var w := s.flush;
        s.(table := Upserted(s.table, Grouped(w.snap)), ifTable := Upserted(s.ifTable, Grouped(w.ifSnap)),
           flush := Committed(w.snap, w.ifSnap, w.ifaces, w.ack))
      else s
    case CommitFailed => if s.flush.Writing? then s.(flush := NoFlush) else s
    case DeductSnapshot =>
      if s.flush.Committed? then
        s.(acc := Deducted(s.acc, s.flush.snap), ifAcc := Deducted(s.ifAcc, s.flush.ifSnap),
           flush := Recording(s.flush.ifaces, s.flush.ack))
      else s
    case RecordInterfaces(ok) => if s.flush.Recording? then Recorded(s, ok) else s
    case AckChunk => if s.flush.Acking? then ChunkAcked(s) else s
    case AckFailed => if s.flush.Acking? then s.(flush := NoFlush) else s
    case Finish => if s.flush.Acking? then Finished(s) else s
  }

  const INITIAL := State(map[], map[], {}, [], NoFlush, map[], map[], {}, {})

  ghost function Run(events: seq<Event>): State {
    if events == [] then INITIAL else Step(Run(events[..|events| - 1]), events[|events| - 1])
  }

  /** The messages a run consumed. */
  function LogOf(events: seq<Event>): seq<Message> {
    if events == [] then []
    else LogOf(events[..|events| - 1]) + if events[|events| - 1].Arrive? then [events[|events| - 1].msg] else []
  }

  function FlowsOf(log: seq<Message>): seq<Flow> {
    if log == [] then []
    else FlowsOf(log[..|log| - 1]) + if log[|log| - 1].flow.Some? then [log[|log| - 1].flow.value] else []
  }

  function Ids(log: seq<Message>): (ids: seq<string>)
    ensures |ids| == |log|
  {
    seq(|log|, i requires 0 <= i < |log| => log[i].id)
  }

  lemma {:induction false} FlowsConcat(a: seq<Message>, b: seq<Message>)
    ensures FlowsOf(a + b) == FlowsOf(a) + FlowsOf(b)
    decreases |b|
  {
    if b == [] {
      assert a + b == a;
    } else {
      var init := b[..|b| - 1];
      FlowsConcat(a, init);
      assert (a + b)[..|a + b| - 1] == a + init;
      assert (a + b)[|a + b| - 1] == b[|b| - 1];
    }
  }

  lemma FlowsBetween(log: seq<Message>, i: nat, j: nat, k: nat)
    requires i <= j <= k <= |log|
    ensures FlowsOf(log[i..k]) == FlowsOf(log[i..j]) + FlowsOf(log[j..k])
  {
    FlowsConcat(log[i..j], log[j..k]);
    assert log[i..j] + log[j..k] == log[i..k];
  }

  // ------------------------------------------------------------------
  // The invariant
  // ------------------------------------------------------------------

  /** Positions in the log: the prefix that has left the accumulators, the prefix the current flush
      took, and the prefix whose ids have left the pending list. */
  datatype Marks = Marks(deducted: nat, taken: nat, sliced: nat)

  ghost predicate HoldsBoth(m: Entries, ifM: Entries, h: seq<Flow>) {
    Holds(Conversations, m, h) && Holds(Interfaces, ifM, h)
  }

  ghost predicate TablesHold(table: Entries, ifTable: Entries, h: seq<Flow>) {
    Holds(Rows, table, h) && Holds(Interfaces, ifTable, h)
  }

  ghost predicate Ordered(log: seq<Message>, m: Marks) {
    m.sliced <= m.deducted <= m.taken <= |log|
  }

  ghost predicate FlushInv(flush: Flush, acked: set<string>, log: seq<Message>, m: Marks)
    requires Ordered(log, m)
  {
    match flush
    case NoFlush => true
    case Writing(snap, ifSnap, _, ack) =>
      HoldsBoth(snap, ifSnap, FlowsOf(log[m.deducted..m.taken])) && ack == Ids(log[m.sliced..m.taken])
    case Committed(snap, ifSnap, _, ack) =>
      HoldsBoth(snap, ifSnap, FlowsOf(log[m.deducted..m.taken])) && ack == Ids(log[m.sliced..m.taken])
    case Recording(_, ack) => m.taken == m.deducted && ack == Ids(log[m.sliced..m.taken])
    case Acking(ack, sent) => m.taken == m.deducted && ack == Ids(log[m.sliced..m.taken]) && sent <= |ack|
                              && forall i :: 0 <= i < sent ==> ack[i] in acked
  }

  /** The prefix of the log that the tables hold. */
  function InTables(flush: Flush, m: Marks): nat { if flush.Committed? then m.taken else m.deducted }

  ghost predicate IdsInv(pending: seq<string>, acked: set<string>, log: seq<Message>, m: Marks)
    requires Ordered(log, m)
  {
    && pending == Ids(log[m.sliced..])
    && (forall i :: 0 <= i < m.sliced ==> log[i].id in acked)
    && (forall id :: id in acked ==> exists i :: 0 <= i < m.deducted && log[i].id == id)
  }

  ghost predicate Inv(s: State, log: seq<Message>, m: Marks) {
    && Ordered(log, m)
    && HoldsBoth(s.acc, s.ifAcc, FlowsOf(log[m.deducted..]))
    && TablesHold(s.table, s.ifTable, FlowsOf(log[..InTables(s.flush, m)]))
    && IdsInv(s.pending, s.acked, log, m)
    && FlushInv(s.flush, s.acked, log, m)
  }

  // ------------------------------------------------------------------
  // Every step keeps it
  // ------------------------------------------------------------------

  lemma ArriveKeeps(s: State, log: seq<Message>, m: Marks, msg: Message)
    requires Inv(s, log, m)
    ensures Inv(Arrived(s, msg), log + [msg], m)
  {
    hide HoldsBoth, TablesHold, FlowsOf, IdsInv, FlushInv;
    ArriveSums(s, log, m, msg);
    assert (log + [msg])[..InTables(s.flush, m)] == log[..InTables(s.flush, m)];
    ArriveIds(s, log, m, msg);
    ArriveFlush(s, log, m, msg);
  }

  lemma ArriveSums(s: State, log: seq<Message>, m: Marks, msg: Message)
    requires Inv(s, log, m)
    ensures HoldsBoth(Arrived(s, msg).acc, Arrived(s, msg).ifAcc, FlowsOf((log + [msg])[m.deducted..]))
  {
    hide TablesHold, IdsInv, FlushInv, Holds, ConversationsAfter, InterfacesAfter, TouchedBy;
    var recent := log[m.deducted..];
    assert (log + [msg])[m.deducted..] == recent + [msg];
    assert (recent + [msg])[..|recent|] == recent;
    if msg.flow.Some? {
      AccumulatedConversation(s.acc, FlowsOf(recent), msg.flow.value);
      AccumulatedInterfaces(s.ifAcc, FlowsOf(recent), msg.flow.value);
    } else {
      assert FlowsOf(recent) + [] == FlowsOf(recent);
    }
  }

  lemma ArriveIds(s: State, log: seq<Message>, m: Marks, msg: Message)
    requires Ordered(log, m) && IdsInv(s.pending, s.acked, log, m)
    ensures IdsInv(Arrived(s, msg).pending, s.acked, log + [msg], m)
  {
    var log' := log + [msg];
    assert log'[m.sliced..] == log[m.sliced..] + [msg];
    forall id | id in s.acked ensures exists i :: 0 <= i < m.deducted && log'[i].id == id {
      var i :| 0 <= i < m.deducted && log[i].id == id;
      assert log'[i].id == id;
    }
  }

  lemma ArriveFlush(s: State, log: seq<Message>, m: Marks, msg: Message)
    requires Ordered(log, m) && FlushInv(s.flush, s.acked, log, m)
    ensures FlushInv(s.flush, s.acked, log + [msg], m)
  {
    assert (log + [msg])[m.deducted..m.taken] == log[m.deducted..m.taken];
    assert (log + [msg])[m.sliced..m.taken] == log[m.sliced..m.taken];
  }

  /** Empty accumulators mean that no message since the last deduction carried a flow. */
  lemma EmptyMeansNoFlows(acc: Entries, h: seq<Flow>)
    requires acc == map[] && Holds(Conversations, acc, h)
    ensures h == []
  {
    if h != [] {
      FlowHasEntry(h, h[0], KeyOf(h[0]));
      HoldsGet(Conversations, acc, h, KeyOf(h[0]));
      assert false;
    }
  }

  lemma SuffixWithoutFlows(log: seq<Message>, k: nat)
    requires k <= |log| && FlowsOf(log[k..]) == []
    ensures FlowsOf(log[..|log|]) == FlowsOf(log[..k])
  {
    FlowsConcat(log[..k], log[k..]);
    assert log[..k] + log[k..] == log[..|log|];
  }

  lemma StartKeeps(s: State, log: seq<Message>, m: Marks) returns (m': Marks)
    requires Inv(s, log, m)
    ensures Inv(Started(s), log, m')
  {
    hide TablesHold;
    m' := m;
    if s.flush.NoFlush? && !(s.acc == map[] && s.ifAcc == map[] && s.pending == []) {
      assert log[m.deducted..|log|] == log[m.deducted..];
      assert log[m.sliced..|log|] == log[m.sliced..];
      if s.acc == map[] && s.ifAcc == map[] {
        m' := Marks(|log|, |log|, m.sliced);
        EmptyMeansNoFlows(s.acc, FlowsOf(log[m.deducted..]));
        SuffixWithoutFlows(log, m.deducted);
        assert log[|log|..] == [];
      } else {
        m' := Marks(m.deducted, |log|, m.sliced);
      }
    }
  }

  /** The committed batches are the sums of the flows the flush took. */
  lemma CommitSums(s: State, before: seq<Flow>, next: seq<Flow>)
    requires s.flush.Writing? && TablesHold(s.table, s.ifTable, before) && HoldsBoth(s.flush.snap, s.flush.ifSnap, next)
    ensures TablesHold(Step(s, CommitOk).table, Step(s, CommitOk).ifTable, before + next)
  {
    GroupedHolds(s.flush.snap, next);
    GroupedInterfaces(s.flush.ifSnap, next);
    UpsertExact(Rows, s.table, Grouped(s.flush.snap), before, next);
    UpsertExact(Interfaces, s.ifTable, Grouped(s.flush.ifSnap), before, next);
  }

  lemma CommitKeeps(s: State, log: seq<Message>, m: Marks)
    requires Inv(s, log, m)
    ensures Inv(Step(s, CommitOk), log, m)
  {
    if s.flush.Writing? {
      hide TablesHold, HoldsBoth, Upserted, Grouped, IdsInv, FlowsOf;
      CommitSums(s, FlowsOf(log[..m.deducted]), FlowsOf(log[m.deducted..m.taken]));
      FlowsBetween(log, 0, m.deducted, m.taken);
      assert log[0..m.deducted] == log[..m.deducted] && log[0..m.taken] == log[..m.taken];
    }
  }

  /** Grouping interface entries by their own key changes nothing. */
  lemma GroupedInterfaces(m: Entries, h: seq<Flow>)
    requires Holds(Interfaces, m, h)
    ensures Grouped(m) == m
  {
    hide Holds, Plus, TotalOver;
    HoldsSized(Interfaces, m, h);
    assert RowsAmong(m.Keys) == m.Keys by {
      forall k | k in m.Keys ensures RowOf(k) == k {}
      forall k | k in m.Keys ensures k in RowsAmong(m.Keys) { assert RowOf(k) == k; }
    }
    forall k | k in m ensures TotalOver(m, m.Keys, k) == m[k] {
      GroupOne(m, m.Keys - {k}, k);
      assert m.Keys - {k} + {k} == m.Keys;
      assert RowOf(k) == k;
      assert k !in RowsAmong(m.Keys - {k}) by {
        forall x | x in m.Keys - {k} ensures RowOf(x) != k { assert RowOf(x) == x; }
      }
    }
  }

  /** What is left is the sums of the flows that came after the snapshots. */
  lemma DeductSums(s: State, before: seq<Flow>, after: seq<Flow>)
    requires s.flush.Committed? && HoldsBoth(s.acc, s.ifAcc, before + after)
             && HoldsBoth(s.flush.snap, s.flush.ifSnap, before)
    ensures HoldsBoth(Step(s, DeductSnapshot).acc, Step(s, DeductSnapshot).ifAcc, after)
  {
    DeductExact(Conversations, s.acc, s.flush.snap, before, after);
    DeductExact(Interfaces, s.ifAcc, s.flush.ifSnap, before, after);
  }

  lemma IdsLater(pending: seq<string>, acked: set<string>, log: seq<Message>, m: Marks, m': Marks)
    requires Ordered(log, m) && Ordered(log, m') && IdsInv(pending, acked, log, m)
    requires m'.sliced == m.sliced && m.deducted <= m'.deducted
    ensures IdsInv(pending, acked, log, m')
  {
    forall id | id in acked ensures exists i :: 0 <= i < m'.deducted && log[i].id == id {
      var i :| 0 <= i < m.deducted && log[i].id == id;
    }
  }

  lemma DeductFlush(s: State, log: seq<Message>, m: Marks) returns (m': Marks)
    requires Ordered(log, m) && s.flush.Committed? && FlushInv(s.flush, s.acked, log, m)
    ensures m' == Marks(m.taken, m.taken, m.sliced)
    ensures FlushInv(Step(s, DeductSnapshot).flush, s.acked, log, m')
    ensures HoldsBoth(s.flush.snap, s.flush.ifSnap, FlowsOf(log[m.deducted..m.taken]))
  {
    hide HoldsBoth, Deducted, FlowsOf, Ids;
    m' := Marks(m.taken, m.taken, m.sliced);
  }

  lemma DeductKeeps(s: State, log: seq<Message>, m: Marks) returns (m': Marks)
    requires Inv(s, log, m)
    ensures Inv(Step(s, DeductSnapshot), log, m')
    ensures s.flush.Committed? ==> m' == Marks(m.taken, m.taken, m.sliced)
  {
    m' := m;
    if s.flush.Committed? {
      hide TablesHold, HoldsBoth, Deducted, FlowsOf, Ids, IdsInv, FlushInv;
      m' := DeductFlush(s, log, m);
      IdsLater(s.pending, s.acked, log, m, m');
      FlowsBetween(log, m.deducted, m.taken, |log|);
      assert log[m.deducted..|log|] == log[m.deducted..] && log[m.taken..|log|] == log[m.taken..];
      DeductSums(s, FlowsOf(log[m.deducted..m.taken]), FlowsOf(log[m.taken..]));
    }
  }

  lemma ChunkKeeps(s: State, log: seq<Message>, m: Marks)
    requires Inv(s, log, m) && s.flush.Acking?
    ensures Inv(ChunkAcked(s), log, m)
  {
    hide HoldsBoth, TablesHold, FlowsOf;
    var ack, sent := s.flush.ack, s.flush.sent;
    var s', end := ChunkAcked(s), ChunkEnd(ack, sent);
    if sent < end {
      forall i | 0 <= i < end ensures ack[i] in s'.acked {
        if i >= sent {
          assert ack[sent..end][i - sent] == ack[i];
        }
      }
      forall id | id in s'.acked ensures exists i :: 0 <= i < m.deducted && log[i].id == id {
        if id !in s.acked {
          var j :| 0 <= j < |ack[sent..end]| && ack[sent..end][j] == id;
          assert ack[sent + j] == log[m.sliced..m.taken][sent + j].id;
          assert log[m.sliced + sent + j].id == id;
        }
      }
    }
  }

  lemma FinishKeeps(s: State, log: seq<Message>, m: Marks) returns (m': Marks)
    requires Inv(s, log, m) && s.flush.Acking?
    ensures Inv(Finished(s), log, m')
  {
    hide HoldsBoth, TablesHold, FlowsOf;
    m' := m;
    if s.flush.sent == |s.flush.ack| {
      m' := Marks(m.deducted, m.taken, m.taken);
      var n := |s.flush.ack|;
      assert n == m.taken - m.sliced;
      assert Ids(log[m.sliced..])[n..] == Ids(log[m.taken..]);
      forall i | 0 <= i < m.taken ensures log[i].id in s.acked {
        if i >= m.sliced {
          assert s.flush.ack[i - m.sliced] == log[m.sliced..m.taken][i - m.sliced].id;
        }
      }
    }
  }

  lemma RecordKeeps(s: State, log: seq<Message>, m: Marks, ok: bool)
    requires Inv(s, log, m)
    ensures Inv(Step(s, RecordInterfaces(ok)), log, m)
  {
    hide HoldsBoth, TablesHold, IdsInv, FlowsOf, Ids;
  }

  /** A flush that gives up changes nothing but its own position. */
  lemma ReleaseKeeps(s: State, log: seq<Message>, m: Marks)
    requires Inv(s, log, m) && !s.flush.Committed?
    ensures Inv(s.(flush := NoFlush), log, m)
  {
    hide HoldsBoth, TablesHold, IdsInv, FlowsOf, Ids;
  }

  lemma StepKeeps(s: State, log: seq<Message>, m: Marks, e: Event) returns (m': Marks)
    requires Inv(s, log, m)
    ensures Inv(Step(s, e), log + if e.Arrive? then [e.msg] else [], m')
  {
    hide Inv, Started, Arrived, Finished, ChunkAcked, Upserted, Grouped, Deducted, Recorded;
    m' := m;
    assert log + [] == log;
    match e {
      case Arrive(msg) => ArriveKeeps(s, log, m, msg);
      case Start => m' := StartKeeps(s, log, m);
      case CommitOk => CommitKeeps(s, log, m);
      case CommitFailed => if s.flush.Writing? { ReleaseKeeps(s, log, m); }
      case DeductSnapshot => m' := DeductKeeps(s, log, m);
      case RecordInterfaces(ok) => RecordKeeps(s, log, m, ok);
      case AckChunk => if s.flush.Acking? { ChunkKeeps(s, log, m); }
      case AckFailed => if s.flush.Acking? { ReleaseKeeps(s, log, m); }
      case Finish => if s.flush.Acking? { m' := FinishKeeps(s, log, m); }
    }
  }

  lemma {:induction false} RunInv(events: seq<Event>) returns (m: Marks)
    ensures Inv(Run(events), LogOf(events), m)
    decreases |events|
  {
    if events == [] {
      m := Marks(0, 0, 0);
      HoldsNothing(Conversations);
      HoldsNothing(Interfaces);
      HoldsNothing(Rows);
    } else {
      m := RunInv(events[..|events| - 1]);
      m := StepKeeps(Run(events[..|events| - 1]), LogOf(events[..|events| - 1]), m, events[|events| - 1]);
    }
  }

  // ------------------------------------------------------------------
  // What every reachable state promises
  // ------------------------------------------------------------------

  /** What has been committed but not yet deducted, for one key. */
  ghost function InFlight(s: State, k: Key): Totals {
    if s.flush.Committed? then
      if k.Interface? then Get(s.flush.ifSnap, k) else TotalOver(s.flush.snap, s.flush.snap.Keys, k)
    else Zero(k)
  }

  /** Conservation of conversations: in every reachable state, for every table row and every
      counter, table plus accumulator is the sum over all accepted flows plus what is in flight. */
  lemma ConversationsConserved(events: seq<Event>, row: Key)
    requires row.Row?
    ensures var s := Run(events);
            Plus(Get(s.table, row), TotalOver(s.acc, s.acc.Keys, row)) ==
                Plus(Sum(FlowsOf(LogOf(events)), row), InFlight(s, row))
  {
    var s, log := Run(events), LogOf(events);
    var m := RunInv(events);
    var c := InTables(s.flush, m);
    HoldsGet(Rows, s.table, FlowsOf(log[..c]), row);
    TotalIsRowSum(s.acc, FlowsOf(log[m.deducted..]), row);
    if s.flush.Committed? {
      TotalIsRowSum(s.flush.snap, FlowsOf(log[m.deducted..m.taken]), row);
    }
    SplitSums(log, m.deducted, c, row);
    PlusZero(Sum(FlowsOf(log), row), row);
  }

  /** The same for interfaces. */
  lemma InterfacesConserved(events: seq<Event>, k: Key)
    requires k.Interface?
    ensures var s := Run(events);
            Plus(Get(s.ifTable, k), Get(s.ifAcc, k)) == Plus(Sum(FlowsOf(LogOf(events)), k), InFlight(s, k))
  {
    var s, log := Run(events), LogOf(events);
    var m := RunInv(events);
    var c := InTables(s.flush, m);
    HoldsGet(Interfaces, s.ifTable, FlowsOf(log[..c]), k);
    HoldsGet(Interfaces, s.ifAcc, FlowsOf(log[m.deducted..]), k);
    if s.flush.Committed? {
      HoldsGet(Interfaces, s.flush.ifSnap, FlowsOf(log[m.deducted..m.taken]), k);
    }
    SplitSums(log, m.deducted, c, k);
    PlusZero(Sum(FlowsOf(log), k), k);
  }

  /** A prefix up to c and a suffix from d <= c count the stretch between them twice. */
  lemma SplitSums(log: seq<Message>, d: nat, c: nat, k: Key)
    requires d <= c <= |log|
    ensures Plus(Sum(FlowsOf(log[..c]), k), Sum(FlowsOf(log[d..]), k)) ==
            Plus(Sum(FlowsOf(log), k), Sum(FlowsOf(log[d..c]), k))
    ensures d == c ==> Sum(FlowsOf(log[d..c]), k) == Zero(k)
  {
    FlowsConcat(log[..c], log[c..]);
    FlowsConcat(log[d..c], log[c..]);
    assert log[..c] + log[c..] == log;
    assert log[d..c] + log[c..] == log[d..];
    SumConcat(FlowsOf(log[..c]), FlowsOf(log[c..]), k);
    SumConcat(FlowsOf(log[d..c]), FlowsOf(log[c..]), k);
    var a, x, y := Sum(FlowsOf(log[..c]), k), Sum(FlowsOf(log[d..c]), k), Sum(FlowsOf(log[c..]), k);
    PlusAssoc(a, x, y);
    PlusSwap(a, x, y);
  }

  /** The tables hold exactly the flows of the first c messages, every acknowledged id is among
      them, and the pending list is the ids from position b on, all earlier ones acknowledged. */
  ghost predicate AckSafe(s: State, log: seq<Message>, c: nat, b: nat) {
    && b <= c <= |log|
    && TablesHold(s.table, s.ifTable, FlowsOf(log[..c]))
    && (forall id :: id in s.acked ==> exists i :: 0 <= i < c && log[i].id == id)
    && s.pending == Ids(log[b..])
    && (forall i :: 0 <= i < b ==> log[i].id in s.acked)
  }

  /** Ack safety: in every reachable state only committed messages are acknowledged, and no consumed
      message is forgotten. */
  lemma AckedAreCommitted(events: seq<Event>)
    ensures exists c: nat, b: nat :: AckSafe(Run(events), LogOf(events), c, b)
  {
    var s, log := Run(events), LogOf(events);
    var m := RunInv(events);
    var c := InTables(s.flush, m);
    forall id | id in s.acked ensures exists i :: 0 <= i < c && log[i].id == id {
      var i :| 0 <= i < m.deducted && log[i].id == id;
    }
    assert AckSafe(s, log, c, m.sliced);
  }

  /** Every interface that a consumed flow touched is waiting to be recorded or has been. */
  lemma {:induction false} InterfacesRemembered(events: seq<Event>)
    ensures forall f :: f in FlowsOf(LogOf(events)) ==> TouchedBy(f) <= Run(events).active + Run(events).recorded
    decreases |events|
  {
    if events != [] {
      var before, e := events[..|events| - 1], events[|events| - 1];
      InterfacesRemembered(before);
      KnownGrows(Run(before), e);
      if e.Arrive? {
        FlowsConcat(LogOf(before), [e.msg]);
        assert FlowsOf([e.msg]) == if e.msg.flow.Some? then [e.msg.flow.value] else [];
      } else {
        assert LogOf(events) == LogOf(before);
      }
    }
  }

  lemma KnownGrows(s: State, e: Event)
    ensures s.active + s.recorded <= Step(s, e).active + Step(s, e).recorded
    ensures e.Arrive? && e.msg.flow.Some? ==> TouchedBy(e.msg.flow.value) <= Step(s, e).active
  {
    hide Upserted, Grouped, Deducted, ConversationsAfter, InterfacesAfter, TouchedBy;
  }

  // ------------------------------------------------------------------
  // An undisturbed flush empties everything
  // ------------------------------------------------------------------

  function Chunks(k: nat): seq<Event> {
    if k == 0 then [] else Chunks(k - 1) + [AckChunk]
  }

  /** The steps of one flush that succeeds and that no arrival disturbs; steps beyond the last
      chunk change nothing. */
  function Flushing(k: nat): seq<Event> {
    [Start, CommitOk, DeductSnapshot, RecordInterfaces(true)] + Chunks(k) + [Finish]
  }

  ghost function WrittenOut(s: State): State {
    Step(Step(Step(Started(s), CommitOk), DeductSnapshot), RecordInterfaces(true))
  }

  ghost function ChunksAcked(s: State, k: nat): State {
    if k == 0 then s else Step(ChunksAcked(s, k - 1), AckChunk)
  }

  lemma RunOneMore(events: seq<Event>, e: Event)
    ensures Run(events + [e]) == Step(Run(events), e)
    ensures LogOf(events + [e]) == LogOf(events) + if e.Arrive? then [e.msg] else []
  {
    assert (events + [e])[..|events|] == events;
  }

  lemma RunWritesOut(events: seq<Event>)
    ensures var four := events + [Start, CommitOk, DeductSnapshot, RecordInterfaces(true)];
            Run(four) == WrittenOut(Run(events)) && LogOf(four) == LogOf(events)
  {
    hide Run, LogOf, Started;
    var one := events + [Start];
    var two := one + [CommitOk];
    var three := two + [DeductSnapshot];
    RunOneMore(events, Start);
    RunOneMore(one, CommitOk);
    RunOneMore(two, DeductSnapshot);
    RunOneMore(three, RecordInterfaces(true));
    assert three + [RecordInterfaces(true)] == events + [Start, CommitOk, DeductSnapshot, RecordInterfaces(true)];
    assert LogOf(events) + [] == LogOf(events);
  }

  lemma {:induction false} RunAcksChunks(events: seq<Event>, k: nat)
    ensures Run(events + Chunks(k)) == ChunksAcked(Run(events), k) && LogOf(events + Chunks(k)) == LogOf(events)
    decreases k
  {
    hide Run, LogOf, Step;
    if k == 0 {
      assert events + [] == events;
    } else {
      RunAcksChunks(events, k - 1);
      RunOneMore(events + Chunks(k - 1), AckChunk);
      assert (events + Chunks(k - 1)) + [AckChunk] == events + Chunks(k);
      assert LogOf(events) + [] == LogOf(events);
    }
  }

  /** After the write phase every flow is in the tables, and the pending ids are being acknowledged. */
  ghost predicate AllWritten(s: State, log: seq<Message>, m: Marks) {
    && Inv(s, log, m) && m.deducted == m.taken == |log|
    && if s.flush.NoFlush? then s.pending == [] else s.flush.Acking? && s.flush.sent == 0 && s.flush.ack == s.pending
  }

  lemma WriteOut(s: State, log: seq<Message>, m: Marks) returns (m': Marks)
    requires Inv(s, log, m) && s.flush.NoFlush?
    ensures AllWritten(WrittenOut(s), log, m')
  {
    hide Inv, Step;
    StartShape(s);
    if Started(s).flush.Writing? {
      m' := WriteSnapshots(s, log, m);
    } else {
      NothingToWrite(s);
      if Started(s).flush.NoFlush? {
        m' := NothingHeld(s, log, m);
      } else {
        m' := StartsAcking(s, log, m);
      }
    }
  }

  lemma StartShape(s: State)
    requires s.flush.NoFlush?
    ensures Started(s).pending == s.pending
    ensures Started(s).flush.NoFlush? ==> Started(s) == s && s.acc == map[] && s.pending == []
    ensures Started(s).flush.Writing? ==> Started(s).flush.ack == s.pending == Started(s).pending
    ensures Started(s).flush.NoFlush? || Started(s).flush.Writing? || Started(s).flush == Acking(s.pending, 0)
  {
  }

  lemma NothingToWrite(s: State)
    requires !Started(s).flush.Writing? && s.flush.NoFlush?
    ensures WrittenOut(s) == Started(s)
  {
    hide Upserted, Grouped, Deducted, AckPhase, Recorded;
  }

  lemma StartsAcking(s: State, log: seq<Message>, m: Marks) returns (m': Marks)
    requires Inv(s, log, m) && s.flush.NoFlush? && Started(s).flush == Acking(s.pending, 0)
             && Started(s).pending == s.pending
    requires WrittenOut(s) == Started(s)
    ensures AllWritten(WrittenOut(s), log, m')
  {
    m' := StartKeeps(s, log, m);
    IdsReachEnd(Started(s), log, m');
  }

  lemma IdsReachEnd(s: State, log: seq<Message>, m: Marks)
    requires Inv(s, log, m) && (s.flush.Writing? || s.flush.Acking?) && s.flush.ack == s.pending
    ensures m.taken == |log|
  {
    assert |s.pending| == |log| - m.sliced && |s.flush.ack| == m.taken - m.sliced;
  }

  lemma WriteSnapshots(s: State, log: seq<Message>, m: Marks) returns (m': Marks)
    requires Inv(s, log, m) && s.flush.NoFlush? && Started(s).flush.Writing?
    ensures AllWritten(WrittenOut(s), log, m')
  {
    hide Inv, Step, Started;
    WritingShape(s);
    m' := StartKeeps(s, log, m);
    IdsReachEnd(Started(s), log, m');
    CommitKeeps(Started(s), log, m');
    var s2 := Step(Started(s), CommitOk);
    m' := DeductKeeps(s2, log, m');
    RecordKeeps(Step(s2, DeductSnapshot), log, m', true);
  }

  lemma CommitShape(s: State)
    requires s.flush.Writing?
    ensures var s' := Step(s, CommitOk);
            s'.flush.Committed? && s'.flush.ack == s.flush.ack && s'.pending == s.pending
  {
    hide Upserted, Grouped;
  }

  lemma DeductShape(s: State)
    requires s.flush.Committed?
    ensures var s' := Step(s, DeductSnapshot);
            s'.flush.Recording? && s'.flush.ack == s.flush.ack && s'.pending == s.pending
  {
    hide Deducted;
  }

  lemma RecordShape(s: State)
    requires s.flush.Recording?
    ensures var s' := Step(s, RecordInterfaces(true));
            s'.flush == AckPhase(s.flush.ack) && s'.pending == s.pending
  {
    hide AckPhase;
  }

  lemma WritingShape(s: State)
    requires s.flush.NoFlush? && Started(s).flush.Writing?
    ensures Step(Started(s), CommitOk).flush.Committed?
    ensures Started(s).flush.ack == s.pending == Started(s).pending == WrittenOut(s).pending
    ensures WrittenOut(s).flush == AckPhase(s.pending)
  {
    hide Step, Started, AckPhase;
    StartShape(s);
    CommitShape(Started(s));
    DeductShape(Step(Started(s), CommitOk));
    RecordShape(Step(Step(Started(s), CommitOk), DeductSnapshot));
  }

  lemma NothingHeld(s: State, log: seq<Message>, m: Marks) returns (m': Marks)
    requires Inv(s, log, m) && s.flush.NoFlush? && s.acc == map[] && s.pending == []
    ensures AllWritten(s, log, m')
  {
    m' := Marks(|log|, |log|, m.sliced);
    assert |s.pending| == |log| - m.sliced;
  }

  lemma ChunkCounts(s: State)
    requires s.flush.Acking?
    ensures ChunkAcked(s).pending == s.pending
    ensures s.flush.sent <= |s.flush.ack| ==>
            ChunkAcked(s).flush == Acking(s.flush.ack, ChunkEnd(s.flush.ack, s.flush.sent))
  {
  }

  /** Chunk by chunk all ids of the snapshot are acknowledged, and nothing else changes. */
  lemma {:induction false} AckAll(s: State, log: seq<Message>, m: Marks, k: nat)
    requires Inv(s, log, m) && s.flush.Acking? && s.flush.sent == 0
    ensures var s' := ChunksAcked(s, k);
            && Inv(s', log, m) && s'.flush.Acking? && s'.flush.ack == s.flush.ack && s'.pending == s.pending
            && s'.flush.sent == if ACK_BATCH * k <= |s.flush.ack| then ACK_BATCH * k else |s.flush.ack|
    decreases k
  {
    if k > 0 {
      hide Inv, ChunkAcked;
      AckAll(s, log, m, k - 1);
      ChunkKeeps(ChunksAcked(s, k - 1), log, m);
      ChunkCounts(ChunksAcked(s, k - 1));
    }
  }

  lemma NothingLeft(m: Entries, kind: Kind)
    requires Holds(kind, m, [])
    ensures m == map[]
  {
    forall k ensures k !in m {
      assert HoldsAt(kind, m, [], k);
    }
  }

  lemma LastChunk(s: State, log: seq<Message>, m: Marks, k: nat)
    requires AllWritten(s, log, m) && ACK_BATCH * k >= |s.pending|
    ensures Drained(Step(ChunksAcked(s, k), Finish), log)
  {
    var end := Step(ChunksAcked(s, k), Finish);
    if s.flush.Acking? {
      AckAll(s, log, m, k);
      var m' := FinishKeeps(ChunksAcked(s, k), log, m);
      InvDrained(end, log, m');
    } else {
      NoChunks(s, k);
      InvDrained(s, log, m);
    }
  }

  lemma {:induction false} NoChunks(s: State, k: nat)
    requires s.flush.NoFlush?
    ensures ChunksAcked(s, k) == s
    decreases k
  {
    if k > 0 {
      NoChunks(s, k - 1);
    }
  }

  /** Nothing is held back: the accumulators and the pending list are empty, the tables hold every
      flow, and every message is acknowledged. */
  ghost predicate Drained(s: State, log: seq<Message>) {
    && s.flush.NoFlush? && s.acc == map[] && s.ifAcc == map[] && s.pending == []
    && TablesHold(s.table, s.ifTable, FlowsOf(log))
    && forall i :: 0 <= i < |log| ==> log[i].id in s.acked
  }

  lemma InvDrained(s: State, log: seq<Message>, m: Marks)
    requires Inv(s, log, m) && s.flush.NoFlush? && m.deducted == |log| && s.pending == []
    ensures Drained(s, log)
  {
    assert |s.pending| == |log| - m.sliced;
    assert log[|log|..] == [] && log[..|log|] == log;
    NothingLeft(s.acc, Conversations);
    NothingLeft(s.ifAcc, Interfaces);
  }

  /** After a flush that succeeds and that no arrival disturbs, nothing is held back. */
  lemma FlushDrains(events: seq<Event>, k: nat)
    requires Run(events).flush.NoFlush? && ACK_BATCH * k >= |Run(events).pending|
    ensures Drained(Run(events + Flushing(k)), LogOf(events))
  {
    hide Run, LogOf, Step, Inv, Drained;
    var s, log := Run(events), LogOf(events);
    var m := RunInv(events);
    m := WriteOut(s, log, m);
    var four := events + [Start, CommitOk, DeductSnapshot, RecordInterfaces(true)];
    RunWritesOut(events);
    RunAcksChunks(four, k);
    RunOneMore(four + Chunks(k), Finish);
    assert (four + Chunks(k)) + [Finish] == events + Flushing(k);
    PendingKept(s);
    LastChunk(WrittenOut(s), log, m, k);
  }

  lemma PendingKept(s: State)
    requires s.flush.NoFlush?
    ensures WrittenOut(s).pending == s.pending
  {
    hide Step, Started, WrittenOut;
    StartShape(s);
    if Started(s).flush.Writing? {
      WritingShape(s);
    } else {
      NothingToWrite(s);
    }
  }

  // ------------------------------------------------------------------
  // The aggregator object
  // ------------------------------------------------------------------

  class Aggregator {
    var acc: Entries
    var ifAcc: Entries
    var active: InterfaceIds
    var pending: seq<string>
    var flush: Flush
    var table: Entries
    var ifTable: Entries
    var recorded: InterfaceIds
    var acked: set<string>

    ghost function View(): State
      reads this
    {
      State(acc, ifAcc, active, pending, flush, table, ifTable, recorded, acked)
    }

    /** Every accumulator list has the length of its kind. */
    ghost predicate Valid()
      reads this
    {
      && Sized(acc) && Sized(ifAcc)
      && (flush.Writing? || flush.Committed? ==> Sized(flush.snap) && Sized(flush.ifSnap))
    }

    constructor ()
      ensures Valid() && View() == INITIAL
    {
      acc, ifAcc, active, pending, flush := map[], map[], {}, [], NoFlush;
      table, ifTable, recorded, acked := map[], map[], {}, {};
    }

    /** The consumer's body for one message: the id is noted first, then the flow is counted. */
    method Consume(msg: Message)
      requires Valid()
      modifies this
      ensures Valid() && View() == Step(old(View()), Arrive(msg))
    {
      pending := pending + [msg.id];
      if msg.flow.Some? {
        var f := msg.flow.value;
        var m := AccumulateConversation(acc, f);
        var n, touched := AccumulateInterfaces(ifAcc, f);
        acc, ifAcc, active := m, n, active + touched;
      }
    }

    /** Takes the lock and the snapshots; with nothing to write it goes straight to acknowledging. */
    method BeginFlush()
      requires Valid()
      modifies this
      ensures Valid() && View() == Step(old(View()), Start)
    {
      if !flush.NoFlush? || (acc == map[] && ifAcc == map[] && pending == []) {
        return;
      }
      if acc == map[] && ifAcc == map[] {
        flush := Acking(pending, 0);
      } else {
        flush := Writing(acc, ifAcc, active, pending);
      }
    }

    /** The transaction: group, upsert, commit, all or nothing. */
    method Commit(succeeds: bool)
      requires Valid()
      modifies this
      ensures Valid() && View() == Step(old(View()), if succeeds then CommitOk else CommitFailed)
    {
      if !flush.Writing? {
        return;
      }
      if succeeds {
        var rows := GroupRows(flush.snap);
        var ifRows := GroupRows(flush.ifSnap);
        var t := Upsert(table, rows);
        var u := Upsert(ifTable, ifRows);
        table, ifTable := t, u;
        flush := Committed(flush.snap, flush.ifSnap, flush.ifaces, flush.ack);
      } else {
        flush := NoFlush;
      }
    }

    method DeductCommitted()
      requires Valid()
      modifies this
      ensures Valid() && View() == Step(old(View()), DeductSnapshot)
    {
      if flush.Committed? {
        DeductedSized(acc, flush.snap);
        DeductedSized(ifAcc, flush.ifSnap);
        var m := Deduct(acc, flush.snap);
        var n := Deduct(ifAcc, flush.ifSnap);
        acc, ifAcc := m, n;
        flush := Recording(flush.ifaces, flush.ack);
      }
    }

    method RecordActive(ok: bool)
      requires Valid()
      modifies this
      ensures Valid() && View() == Step(old(View()), RecordInterfaces(ok))
    {
      if flush.Recording? {
        if ok && flush.ifaces != {} {
          recorded, active := recorded + flush.ifaces, active - flush.ifaces;
        }
        flush := AckPhase(flush.ack);
      }
    }

    method AcknowledgeChunk()
      requires Valid()
      modifies this
      ensures Valid() && View() == Step(old(View()), AckChunk)
    {
      if flush.Acking? {
        var end := ChunkEnd(flush.ack, flush.sent);
        if flush.sent < end {
          acked := acked + IdsOf(flush.ack[flush.sent..end]);
          flush := Acking(flush.ack, end);
        }
      }
    }

    /** Ends the flush: after the last chunk the acknowledged ids leave the pending list; after an
        error they stay. */
    method EndFlush(failed: bool)
      requires Valid()
      modifies this
      ensures Valid() && View() == Step(old(View()), if failed then AckFailed else Finish)
    {
      if flush.Acking? {
        if failed {
          flush := NoFlush;
        } else if |flush.ack| <= flush.sent {
          var n := |flush.ack|;
          pending := if n <= |pending| then pending[n..] else [];
          flush := NoFlush;
        }
      }
    }
  }

  lemma DeductedSized(m: Entries, snap: Entries)
    requires Sized(m)
    ensures Sized(Deducted(m, snap))
  {
  }
}
