// What the tables and the accumulators hold, column by column, in terms of the accepted flows alone
// (monitoring/flow/aggregator.py).

module FlowAccounts {
  import opened Options
  import opened FlowCounters
  import opened FlowAggregator

  // ------------------------------------------------------------------
  // The flows of a row
  // ------------------------------------------------------------------

  datatype Columns = Columns(bucket: int, exporter: string, srcIp: string, dstIp: string, protocol: int, port: int)

  /** The source port is the service: a well-known port talking to an unknown one, or a listed service
      port talking to a high one. */
  predicate SourceServes(f: Flow) {
    || (f.srcPort < 1024 && f.dstPort >= 1024)
    || (f.srcPort in {8080, 8443, 3306, 5432, 6379, 9200} && f.dstPort > 10000)
  }

  /** The flow started in the minute that begins at `bucket`. */
  predicate InMinute(f: Flow, bucket: int) { bucket % 60 == 0 && bucket <= f.start < bucket + 60 }

  /** The columns are the flow's own: its addresses, its protocol, its exporter or the sentinel, the
      minute of its start and the port of its service side. */
  predicate Belongs(f: Flow, c: Columns) {
    && InMinute(f, c.bucket)
    && c.exporter == (if f.exporter.Some? then f.exporter.value else "00000000-0000-0000-0000-000000000000")
    && f.srcIp == c.srcIp && f.dstIp == c.dstIp && f.protocol == c.protocol
    && c.port == (if SourceServes(f) then f.srcPort else f.dstPort)
  }

  function Grown(h: seq<Flow>, f: Flow, grows: bool): seq<Flow> { if grows then h + [f] else h }

  function Select(h: seq<Flow>, c: Columns): seq<Flow> {
    if h == [] then [] else Grown(Select(h[..|h| - 1], c), h[|h| - 1], Belongs(h[|h| - 1], c))
  }

  /** Those between two given endpoints. */
  function Between(h: seq<Flow>, srcEp: Option<Id>, dstEp: Option<Id>): seq<Flow> {
    if h == [] then []
    else
      var f := h[|h| - 1];
      Grown(Between(h[..|h| - 1], srcEp, dstEp), f, f.srcEp == srcEp && f.dstEp == dstEp)
  }

  function Bytes(h: seq<Flow>): int {
    if h == [] then 0 else Bytes(h[..|h| - 1]) + h[|h| - 1].bytes
  }

  function Packets(h: seq<Flow>): int {
    if h == [] then 0 else Packets(h[..|h| - 1]) + h[|h| - 1].packets
  }

  lemma OneMore(h: seq<Flow>, f: Flow)
    ensures Bytes(h + [f]) == Bytes(h) + f.bytes && Packets(h + [f]) == Packets(h) + f.packets
  {
    assert (h + [f])[..|h|] == h;
  }

  lemma MinuteOf(f: Flow, bucket: int)
    ensures InMinute(f, bucket) <==> bucket == Minute(f.start)
  {
    if InMinute(f, bucket) {
      var q := bucket / 60;
      assert bucket == 60 * q && f.start == 60 * q + (f.start - bucket);
    }
  }

  function RowKey(c: Columns): Key { Row(c.bucket, c.exporter, c.srcIp, c.dstIp, c.protocol, c.port) }

  function EntryKey(c: Columns, srcEp: Option<Id>, dstEp: Option<Id>): Key {
    Conversation(c.bucket, c.exporter, srcEp, dstEp, c.srcIp, c.dstIp, c.protocol, c.port)
  }

  lemma ShareOfRow(f: Flow, c: Columns)
    ensures Share(f, RowKey(c)) == if Belongs(f, c) then [f.bytes, f.packets, 1] else [0, 0, 0]
  {
    MinuteOf(f, c.bucket);
  }

  lemma ShareOfEntry(f: Flow, c: Columns, srcEp: Option<Id>, dstEp: Option<Id>)
    ensures Share(f, EntryKey(c, srcEp, dstEp)) ==
            if Belongs(f, c) && f.srcEp == srcEp && f.dstEp == dstEp then [f.bytes, f.packets, 1] else [0, 0, 0]
  {
    MinuteOf(f, c.bucket);
  }

  function Counted(h: seq<Flow>): Totals { [Bytes(h), Packets(h), |h|] }

  lemma CountedOneMore(h: seq<Flow>, f: Flow)
    ensures Plus(Counted(h), [f.bytes, f.packets, 1]) == Counted(h + [f])
    ensures Plus(Counted(h), [0, 0, 0]) == Counted(h)
  {
    OneMore(h, f);
  }

  lemma {:induction false} RowSum(h: seq<Flow>, c: Columns)
    ensures Sum(h, RowKey(c)) == Counted(Select(h, c))
    decreases |h|
  {
    hide Share, Counted, Plus, Belongs;
    if h == [] {
      CountedNothing();
    } else {
      var init, f := h[..|h| - 1], h[|h| - 1];
      RowSum(init, c);
      ShareOfRow(f, c);
      CountedOneMore(Select(init, c), f);
    }
  }

  lemma CountedNothing()
    ensures Counted([]) == [0, 0, 0]
  {
  }

  lemma {:induction false} EntrySum(h: seq<Flow>, c: Columns, srcEp: Option<Id>, dstEp: Option<Id>)
    ensures Sum(h, EntryKey(c, srcEp, dstEp)) == Counted(Between(Select(h, c), srcEp, dstEp))
    decreases |h|
  {
    hide Share, Counted, Plus, Belongs;
    if h == [] {
      CountedNothing();
    } else {
      var init, f := h[..|h| - 1], h[|h| - 1];
      EntrySum(init, c, srcEp, dstEp);
      ShareOfEntry(f, c, srcEp, dstEp);
      CountedOneMore(Between(Select(init, c), srcEp, dstEp), f);
      assert (Select(init, c) + [f])[..|Select(init, c)|] == Select(init, c);
    }
  }

  // ------------------------------------------------------------------
  // The flows of an interface
  // ------------------------------------------------------------------

  /** Flows of an identified exporter in one minute count on its interfaces 1 to 2^31 - 1. */
  predicate Counts(f: Flow, bucket: int, exporter: string, index: int) {
    && InMinute(f, bucket) && 0 < index <= 2147483647
    && f.exporter == Some(exporter) && exporter != "00000000-0000-0000-0000-000000000000"
  }

  function Entering(h: seq<Flow>, bucket: int, exporter: string, index: int): seq<Flow> {
    if h == [] then []
    else
      var f := h[|h| - 1];
      Grown(Entering(h[..|h| - 1], bucket, exporter, index), f,
            Counts(f, bucket, exporter, index) && f.inIf == index)
  }

  function Leaving(h: seq<Flow>, bucket: int, exporter: string, index: int): seq<Flow> {
    if h == [] then []
    else
      var f := h[|h| - 1];
      Grown(Leaving(h[..|h| - 1], bucket, exporter, index), f,
            Counts(f, bucket, exporter, index) && f.outIf == index)
  }

  function Touching(h: seq<Flow>, bucket: int, exporter: string, index: int): seq<Flow> {
    if h == [] then []
    else
      var f := h[|h| - 1];
      Grown(Touching(h[..|h| - 1], bucket, exporter, index), f,
            Counts(f, bucket, exporter, index) && (f.inIf == index || f.outIf == index))
  }

  /** Bytes in and out, packets in and out, and flows. */
  function Traffic(h: seq<Flow>, bucket: int, exporter: string, index: int): Totals {
    var entering, leaving := Entering(h, bucket, exporter, index), Leaving(h, bucket, exporter, index);
    [Bytes(entering), Bytes(leaving), Packets(entering), Packets(leaving), |Touching(h, bucket, exporter, index)|]
  }

  lemma ShareOfInterface(f: Flow, bucket: int, exporter: string, index: int)
    ensures var goesIn, goesOut := Counts(f, bucket, exporter, index) && f.inIf == index,
            Counts(f, bucket, exporter, index) && f.outIf == index;
            Share(f, Interface(bucket, exporter, index)) ==
            [if goesIn then f.bytes else 0, if goesOut then f.bytes else 0,
             if goesIn then f.packets else 0, if goesOut then f.packets else 0, if goesIn || goesOut then 1 else 0]
  {
    MinuteOf(f, bucket);
  }

  lemma {:induction false} InterfaceSum(h: seq<Flow>, bucket: int, exporter: string, index: int)
    ensures Sum(h, Interface(bucket, exporter, index)) == Traffic(h, bucket, exporter, index)
    decreases |h|
  {
    if h != [] {
      hide Share, Plus, Counts, Grown;
      var init, f := h[..|h| - 1], h[|h| - 1];
      InterfaceSum(init, bucket, exporter, index);
      ShareOfInterface(f, bucket, exporter, index);
      TrafficOneMore(Entering(init, bucket, exporter, index), Leaving(init, bucket, exporter, index),
                     Touching(init, bucket, exporter, index), f,
                     Counts(f, bucket, exporter, index) && f.inIf == index,
                     Counts(f, bucket, exporter, index) && f.outIf == index);
    }
  }

  lemma GrownCounts(h: seq<Flow>, f: Flow, grows: bool)
    ensures Bytes(Grown(h, f, grows)) == Bytes(h) + if grows then f.bytes else 0
    ensures Packets(Grown(h, f, grows)) == Packets(h) + if grows then f.packets else 0
    ensures |Grown(h, f, grows)| == |h| + if grows then 1 else 0
  {
    OneMore(h, f);
  }

  lemma PlusFive(a: int, b: int, c: int, d: int, e: int, a': int, b': int, c': int, d': int, e': int)
    ensures Plus([a, b, c, d, e], [a', b', c', d', e']) == [a + a', b + b', c + c', d + d', e + e']
  {
  }

  lemma TrafficOneMore(entering: seq<Flow>, leaving: seq<Flow>, touching: seq<Flow>, f: Flow, goesIn: bool,
                       goesOut: bool)
    ensures Plus([Bytes(entering), Bytes(leaving), Packets(entering), Packets(leaving), |touching|],
                 [if goesIn then f.bytes else 0, if goesOut then f.bytes else 0,
                  if goesIn then f.packets
                  else 0, if goesOut then f.packets else 0, if goesIn || goesOut then 1 else 0])
            == [Bytes(Grown(entering, f, goesIn)), Bytes(Grown(leaving, f, goesOut)),
                Packets(Grown(entering, f, goesIn)), Packets(Grown(leaving, f, goesOut)),
                |Grown(touching, f, goesIn || goesOut)|]
  {
    hide Bytes, Packets, Grown, Plus;
    GrownCounts(entering, f, goesIn);
    GrownCounts(leaving, f, goesOut);
    GrownCounts(touching, f, goesIn || goesOut);
    PlusFive(Bytes(entering), Bytes(leaving), Packets(entering), Packets(leaving), |touching|,
             if goesIn then f.bytes else 0, if goesOut then f.bytes else 0,
             if goesIn then f.packets else 0, if goesOut then f.packets else 0, if goesIn || goesOut then 1 else 0);
  }

  // ------------------------------------------------------------------
  // Every reachable state
  // ------------------------------------------------------------------

  /** The table has a row for exactly the columns that some flow of h belongs to, with their counts. */
  ghost predicate RowsCount(table: Entries, h: seq<Flow>) {
    forall c: Columns ::
      && (RowKey(c) in table <==> Select(h, c) != [])
      && (RowKey(c) in table ==> table[RowKey(c)] == [Bytes(Select(h, c)), Packets(Select(h, c)), |Select(h, c)|])
  }

  /** The accumulator likewise, apart for each pair of endpoints. */
  ghost predicate EntriesCount(acc: Entries, h: seq<Flow>) {
    forall c: Columns, srcEp: Option<Id>, dstEp: Option<Id> ::
      var k, own := EntryKey(c, srcEp, dstEp), Between(Select(h, c), srcEp, dstEp);
      && (k in acc <==> own != [])
      && (k in acc ==> acc[k] == [Bytes(own), Packets(own), |own|])
  }

  ghost predicate TrafficCounts(m: Entries, h: seq<Flow>) {
    forall bucket: int, exporter: string, index: int ::
      var k := Interface(bucket, exporter, index);
      && (k in m <==> Touching(h, bucket, exporter, index) != [])
      && (k in m ==> m[k] == Traffic(h, bucket, exporter, index))
  }

  lemma HoldsRows(table: Entries, h: seq<Flow>)
    requires Holds(Rows, table, h)
    ensures RowsCount(table, h)
  {
    forall c: Columns ensures
      && (RowKey(c) in table <==> Select(h, c) != [])
      && (RowKey(c) in table ==> table[RowKey(c)] == [Bytes(Select(h, c)), Packets(Select(h, c)), |Select(h, c)|])
    {
      assert HoldsAt(Rows, table, h, RowKey(c));
      RowSum(h, c);
    }
  }

  lemma HoldsEntries(acc: Entries, h: seq<Flow>)
    requires Holds(Conversations, acc, h)
    ensures EntriesCount(acc, h)
  {
    forall c: Columns, srcEp: Option<Id>, dstEp: Option<Id> ensures
      var k, own := EntryKey(c, srcEp, dstEp), Between(Select(h, c), srcEp, dstEp);
      && (k in acc <==> own != [])
      && (k in acc ==> acc[k] == [Bytes(own), Packets(own), |own|])
    {
      assert HoldsAt(Conversations, acc, h, EntryKey(c, srcEp, dstEp));
      EntrySum(h, c, srcEp, dstEp);
    }
  }

  lemma HoldsTraffic(m: Entries, h: seq<Flow>)
    requires Holds(Interfaces, m, h)
    ensures TrafficCounts(m, h)
  {
    forall bucket: int, exporter: string, index: int ensures
      var k := Interface(bucket, exporter, index);
      && (k in m <==> Touching(h, bucket, exporter, index) != [])
      && (k in m ==> m[k] == Traffic(h, bucket, exporter, index))
    {
      assert HoldsAt(Interfaces, m, h, Interface(bucket, exporter, index));
      InterfaceSum(h, bucket, exporter, index);
    }
  }

  /** In every reachable state the tables count exactly the flows of a first part of the accepted
      messages, and the accumulators exactly those of the rest; only between a commit and its deduction
      do the two parts overlap. */
  lemma Accounts(events: seq<Event>) returns (written: nat, waiting: nat)
    ensures waiting <= written <= |LogOf(events)|
    ensures !Run(events).flush.Committed? ==> waiting == written
    ensures RowsCount(Run(events).table, FlowsOf(LogOf(events)[..written]))
    ensures TrafficCounts(Run(events).ifTable, FlowsOf(LogOf(events)[..written]))
    ensures EntriesCount(Run(events).acc, FlowsOf(LogOf(events)[waiting..]))
    ensures TrafficCounts(Run(events).ifAcc, FlowsOf(LogOf(events)[waiting..]))
  {
    hide Run, LogOf, FlowsOf, Holds, RowsCount, EntriesCount, TrafficCounts;
    var s, log := Run(events), LogOf(events);
    var m := RunInv(events);
    written, waiting := InTables(s.flush, m), m.deducted;
    HoldsRows(s.table, FlowsOf(log[..written]));
    HoldsTraffic(s.ifTable, FlowsOf(log[..written]));
    HoldsEntries(s.acc, FlowsOf(log[waiting..]));
    HoldsTraffic(s.ifAcc, FlowsOf(log[waiting..]));
  }

  // ------------------------------------------------------------------
  // Interfaces and acknowledgements
  // ------------------------------------------------------------------

  /** A flow touches an interface of its identified exporter. */
  predicate Touches(f: Flow, exporter: string, index: int) {
    && f.exporter == Some(exporter) && exporter != "00000000-0000-0000-0000-000000000000"
    && 0 < index <= 2147483647 && (f.inIf == index || f.outIf == index)
  }

  lemma TouchedOnly(f: Flow, exporter: string, index: int)
    ensures (exporter, index) in TouchedBy(f) <==> Touches(f, exporter, index)
  {
  }

  /** A flush records only interfaces that are waiting to be recorded. */
  predicate RecordsActive(s: State) {
    s.flush.Writing? || s.flush.Committed? || s.flush.Recording? ==> s.flush.ifaces <= s.active
  }

  lemma KnownExactly(s: State, e: Event, i: (Id, int))
    requires RecordsActive(s)
    ensures var s' := Step(s, e);
            && RecordsActive(s')
            && (i in s'.active + s'.recorded <==>
                i in s.active + s.recorded
                || (e.Arrive? && e.msg.flow.Some? && i in TouchedBy(e.msg.flow.value)))
  {
    hide Upserted, Grouped, Deducted, ConversationsAfter, InterfacesAfter, TouchedBy, ChunkEnd, IdsOf;
  }

  lemma {:induction false} AlwaysRecordsActive(events: seq<Event>)
    ensures RecordsActive(Run(events))
    decreases |events|
  {
    hide Step;
    if events != [] {
      AlwaysRecordsActive(events[..|events| - 1]);
      KnownExactly(Run(events[..|events| - 1]), events[|events| - 1], ("", 0));
    }
  }

  lemma TouchedOneMore(log: seq<Message>, msg: Message, exporter: string, index: int)
    ensures (exists f :: f in FlowsOf(log + [msg]) && Touches(f, exporter, index)) <==>
            || (exists f :: f in FlowsOf(log) && Touches(f, exporter, index))
            || (msg.flow.Some? && (exporter, index) in TouchedBy(msg.flow.value))
  {
    hide Touches, TouchedBy;
    FlowsConcat(log, [msg]);
    assert FlowsOf([msg]) == if msg.flow.Some? then [msg.flow.value] else [];
    if msg.flow.Some? {
      TouchedOnly(msg.flow.value, exporter, index);
      assert msg.flow.value in FlowsOf(log + [msg]);
    }
  }

  /** The interfaces recorded or waiting to be recorded are exactly those an accepted flow touches. */
  lemma {:induction false} InterfacesKnown(events: seq<Event>, exporter: string, index: int)
    ensures (exporter, index) in Run(events).active + Run(events).recorded <==>
            exists f :: f in FlowsOf(LogOf(events)) && Touches(f, exporter, index)
    decreases |events|
  {
    hide Step, Touches, TouchedBy, FlowsOf;
    if events == [] {
      NothingTouched(exporter, index);
    } else {
      var before, e := events[..|events| - 1], events[|events| - 1];
      InterfacesKnown(before, exporter, index);
      AlwaysRecordsActive(before);
      KnownExactly(Run(before), e, (exporter, index));
      if e.Arrive? {
        TouchedOneMore(LogOf(before), e.msg, exporter, index);
      } else {
        assert LogOf(before) + [] == LogOf(before);
      }
    }
  }

  lemma NothingTouched(exporter: string, index: int)
    ensures !exists f :: f in FlowsOf([]) && Touches(f, exporter, index)
  {
  }

  /** Ids are acknowledged in chunks of at most 500, in order. */
  lemma ChunkOf500(s: State)
    requires s.flush.Acking? && s.flush.sent <= |s.flush.ack|
    ensures var s', left := Step(s, AckChunk), |s.flush.ack| - s.flush.sent;
            && s'.flush == Acking(s.flush.ack, s.flush.sent + if left <= 500 then left else 500)
            && forall id :: id in s'.acked <==>
                 id in s.acked || id in s.flush.ack[s.flush.sent..s'.flush.sent]
  {
  }

  /** A failed write leaves what it was to write: the tables and accumulators, the interfaces waiting to be
      recorded, or the pending ids and the acknowledged ones. */
  lemma FailuresWriteNothing(s: State)
    ensures var c := Step(s, CommitFailed);
            c.table == s.table && c.ifTable == s.ifTable && c.acc == s.acc && c.ifAcc == s.ifAcc
                && c.pending == s.pending
    ensures var r := Step(s, RecordInterfaces(false)); r.active == s.active && r.recorded == s.recorded
    ensures var a := Step(s, AckFailed); a.pending == s.pending && a.acked == s.acked
  {
  }
}
