// NetFlow v5: fixed records behind a counted header (monitoring/flow/v5_parser.py).

module FlowV5 {
  import opened Collections
  import opened Options
  import opened Wire
  import opened FlowRecords

  const HEADER_SIZE := 24
  const RECORD_SIZE := 48

  /** Where record n begins. */
  function Offset(n: nat): nat { HEADER_SIZE + RECORD_SIZE * n }

  /** The fields of a record that are used. */
  datatype Record = Record(
    src: IpBytes, dst: IpBytes, inputIf: nat, outputIf: nat, packets: nat, octets: nat, first: nat, last: nat,
    srcPort: nat, dstPort: nat, tcpFlags: nat, protocol: nat)

  function ReadRecord(p: seq<Byte>, i: nat): Record
    requires i + RECORD_SIZE <= |p|
  {
    Record(p[i..i + 4], p[i + 4..i + 8], U16(p, i + 12), U16(p, i + 14), U32(p, i + 16), U32(p, i + 20),
           U32(p, i + 24), U32(p, i + 28), U16(p, i + 32), U16(p, i + 34), p[i + 37], p[i + 38])
  }

  /** The low 14 bits of the sampling field are the interval; no interval means every packet. */
  function Multiplier(sampling: nat): nat {
    var interval := sampling % 0x4000;
    if interval > 0 then interval else 1
  }

  function FlowOfRecord(exporter: string, times: Times, sampling: nat, r: Record): FlowRecord {
    FlowRecord(exporter, r.src, r.dst, r.srcPort, r.dstPort, r.protocol, r.octets * Multiplier(sampling),
               r.packets * Multiplier(sampling), r.tcpFlags, r.inputIf, r.outputIf,
               EventTime(times.sysUptime, times.seconds, r.first), EventTime(times.sysUptime, times.seconds, r.last))
  }

  function RecordsAt(p: seq<Byte>, n: nat): seq<Record>
    requires Offset(n) <= |p|
  {
    if n == 0 then [] else RecordsAt(p, n - 1) + [ReadRecord(p, Offset(n - 1))]
  }

  function FlowsOfRecords(exporter: string, times: Times, sampling: nat, records: seq<Record>): seq<FlowRecord> {
    if records == [] then []
    else FlowsOfRecords(exporter, times, sampling, records[..|records| - 1])
         + [FlowOfRecord(exporter, times, sampling, records[|records| - 1])]
  }

  predicate Acceptable(data: seq<Byte>) {
    |data| >= HEADER_SIZE && U16(data, 0) == 5 && U16(data, 2) > 0
  }

  /** The records that are both announced and wholly there. */
  function Whole(data: seq<Byte>): (n: nat)
    requires |data| >= HEADER_SIZE
    ensures Offset(n) <= |data|
  {
    var room := (|data| - HEADER_SIZE) / RECORD_SIZE;
    if U16(data, 2) < room then U16(data, 2) else room
  }

  function Parsed(data: seq<Byte>, exporter: string): seq<FlowRecord> {
    if !Acceptable(data) then []
    else FlowsOfRecords(exporter, Times(U32(data, 4), U32(data, 8)), U16(data, 22), RecordsAt(data, Whole(data)))
  }

  lemma FlowsOneMore(exporter: string, times: Times, sampling: nat, records: seq<Record>, r: Record)
    ensures FlowsOfRecords(exporter, times, sampling, records + [r]) ==
            FlowsOfRecords(exporter, times, sampling, records) + [FlowOfRecord(exporter, times, sampling, r)]
  {
    assert (records + [r])[..|records|] == records;
  }

  lemma NextRecord(data: seq<Byte>, exporter: string, times: Times, sampling: nat, i: nat, r: Record)
    requires Offset(i + 1) <= |data| && r == ReadRecord(data, Offset(i))
    ensures FlowsOfRecords(exporter, times, sampling, RecordsAt(data, i + 1)) ==
            FlowsOfRecords(exporter, times, sampling, RecordsAt(data, i)) + [FlowOfRecord(exporter, times, sampling, r)]
  {
    FlowsOneMore(exporter, times, sampling, RecordsAt(data, i), r);
  }

  lemma NoRecords(data: seq<Byte>, exporter: string, times: Times, sampling: nat)
    requires HEADER_SIZE <= |data|
    ensures FlowsOfRecords(exporter, times, sampling, RecordsAt(data, 0)) == []
  {
  }

  method ParseV5Packet(data: seq<Byte>, exporter: string) returns (flows: seq<FlowRecord>)
    ensures flows == Parsed(data, exporter)
  {
    hide FlowsOfRecords, RecordsAt, ReadRecord, FlowOfRecord, Whole;
    flows := [];
    if |data| < HEADER_SIZE || U16(data, 0) != 5 || U16(data, 2) == 0 {
      return;
    }
    var times, sampling := Times(U32(data, 4), U32(data, 8)), U16(data, 22);
    var offset := HEADER_SIZE;
    NoRecords(data, exporter, times, sampling);
    for i := 0 to Whole(data)
      invariant offset == Offset(i) <= |data|
      invariant flows == FlowsOfRecords(exporter, times, sampling, RecordsAt(data, i))
    {
      var r := ReadRecord(data, offset);
      NextRecord(data, exporter, times, sampling, i, r);
      flows := flows + [FlowOfRecord(exporter, times, sampling, r)];
      offset := offset + RECORD_SIZE;
    }
  }

  // ------------------------------------------------------------------
  // Round trip
  // ------------------------------------------------------------------

  /** A record as sent, with what stands in the unused fields: the next hop, then padding, service
      type and routing data. */
  datatype Wired = Wired(record: Record, nextHop: seq<Byte>, pad: seq<Byte>, rest: seq<Byte>)

  predicate Fits(w: Wired) {
    && |w.record.src| == 4 && |w.record.dst| == 4 && |w.nextHop| == 4 && |w.pad| == 1 && |w.rest| == 9
    && w.record.inputIf < 0x10000 && w.record.outputIf < 0x10000 && w.record.packets < ROLLOVER
    && w.record.octets < ROLLOVER
    && w.record.first < ROLLOVER && w.record.last < ROLLOVER && w.record.srcPort < 0x10000 && w.record.dstPort < 0x10000
    && w.record.tcpFlags < 256 && w.record.protocol < 256
  }

  function Routes(w: Wired): seq<Byte> {
    w.record.src + w.record.dst + w.nextHop + BeEnc(w.record.inputIf, 2) + BeEnc(w.record.outputIf, 2)
  }

  function Counts(w: Wired): seq<Byte> {
    BeEnc(w.record.packets, 4) + BeEnc(w.record.octets, 4) + BeEnc(w.record.first, 4) + BeEnc(w.record.last, 4)
  }

  function Ports(w: Wired): seq<Byte>
    requires w.record.tcpFlags < 256 && w.record.protocol < 256
  {
    BeEnc(w.record.srcPort, 2) + BeEnc(w.record.dstPort, 2) + w.pad + [w.record.tcpFlags] + [w.record.protocol] + w.rest
  }

  function RecordBytes(w: Wired): (s: seq<Byte>)
    requires Fits(w)
    ensures |s| == RECORD_SIZE
  {
    Routes(w) + Counts(w) + Ports(w)
  }

  predicate AllFit(ws: seq<Wired>) { forall i :: 0 <= i < |ws| ==> Fits(ws[i]) }

  function RecordsBytes(ws: seq<Wired>): (s: seq<Byte>)
    requires AllFit(ws)
    ensures |s| == RECORD_SIZE * |ws|
  {
    if ws == [] then [] else RecordsBytes(ws[..|ws| - 1]) + RecordBytes(ws[|ws| - 1])
  }

  function RecordsOf(ws: seq<Wired>): seq<Record> {
    if ws == [] then [] else RecordsOf(ws[..|ws| - 1]) + [ws[|ws| - 1].record]
  }

  lemma RoutesRead(w: Wired, p: seq<Byte>, i: nat)
    requires Fits(w) && At(p, i, Routes(w))
    ensures p[i..i + 4] == w.record.src && p[i + 4..i + 8] == w.record.dst
    ensures U16(p, i + 12) == w.record.inputIf && U16(p, i + 14) == w.record.outputIf
  {
    AtParts(p, i, w.record.src + w.record.dst + w.nextHop + BeEnc(w.record.inputIf, 2), BeEnc(w.record.outputIf, 2));
    AtParts(p, i, w.record.src + w.record.dst + w.nextHop, BeEnc(w.record.inputIf, 2));
    AtParts(p, i, w.record.src + w.record.dst, w.nextHop);
    AtParts(p, i, w.record.src, w.record.dst);
    AtSlice(p, i, w.record.src);
    AtSlice(p, i + 4, w.record.dst);
    U16At(p, i + 12, w.record.inputIf);
    U16At(p, i + 14, w.record.outputIf);
  }

  lemma CountsRead(w: Wired, p: seq<Byte>, i: nat)
    requires Fits(w) && At(p, i, Counts(w))
    ensures U32(p, i) == w.record.packets && U32(p, i + 4) == w.record.octets
    ensures U32(p, i + 8) == w.record.first && U32(p, i + 12) == w.record.last
  {
    AtParts(p, i, BeEnc(w.record.packets, 4) + BeEnc(w.record.octets, 4) + BeEnc(w.record.first, 4),
            BeEnc(w.record.last, 4));
    AtParts(p, i, BeEnc(w.record.packets, 4) + BeEnc(w.record.octets, 4), BeEnc(w.record.first, 4));
    AtParts(p, i, BeEnc(w.record.packets, 4), BeEnc(w.record.octets, 4));
    U32At(p, i, w.record.packets);
    U32At(p, i + 4, w.record.octets);
    U32At(p, i + 8, w.record.first);
    U32At(p, i + 12, w.record.last);
  }

  lemma PortsRead(w: Wired, p: seq<Byte>, i: nat)
    requires Fits(w) && At(p, i, Ports(w))
    ensures U16(p, i) == w.record.srcPort && U16(p, i + 2) == w.record.dstPort
    ensures p[i + 5] == w.record.tcpFlags && p[i + 6] == w.record.protocol
  {
    var ports := BeEnc(w.record.srcPort, 2) + BeEnc(w.record.dstPort, 2);
    AtParts(p, i, ports + w.pad + [w.record.tcpFlags] + [w.record.protocol], w.rest);
    AtParts(p, i, ports + w.pad + [w.record.tcpFlags], [w.record.protocol]);
    AtParts(p, i, ports + w.pad, [w.record.tcpFlags]);
    AtParts(p, i, ports, w.pad);
    AtParts(p, i, BeEnc(w.record.srcPort, 2), BeEnc(w.record.dstPort, 2));
    U16At(p, i, w.record.srcPort);
    U16At(p, i + 2, w.record.dstPort);
    assert [w.record.tcpFlags][0] == p[i + 5] && [w.record.protocol][0] == p[i + 6];
  }

  lemma RecordRead(w: Wired, p: seq<Byte>, i: nat)
    requires Fits(w) && At(p, i, RecordBytes(w))
    ensures ReadRecord(p, i) == w.record
  {
    AtParts(p, i, Routes(w) + Counts(w), Ports(w));
    AtParts(p, i, Routes(w), Counts(w));
    RoutesRead(w, p, i);
    CountsRead(w, p, i + 16);
    PortsRead(w, p, i + 32);
  }

  lemma LastRead(ws: seq<Wired>, p: seq<Byte>) returns (init: seq<Wired>)
    requires ws != [] && AllFit(ws) && At(p, HEADER_SIZE, RecordsBytes(ws))
    ensures init == ws[..|ws| - 1] && AllFit(init) && At(p, HEADER_SIZE, RecordsBytes(init))
    ensures Offset(|ws|) <= |p| && ReadRecord(p, Offset(|ws| - 1)) == ws[|ws| - 1].record
  {
    var k := |ws| - 1;
    init := ws[..k];
    AtParts(p, HEADER_SIZE, RecordsBytes(init), RecordBytes(ws[k]));
    RecordRead(ws[k], p, Offset(k));
  }

  lemma {:induction false} RecordsRead(ws: seq<Wired>, p: seq<Byte>, n: nat)
    requires AllFit(ws) && n <= |ws| && At(p, HEADER_SIZE, RecordsBytes(ws))
    ensures Offset(n) <= |p| && RecordsAt(p, n) == RecordsOf(ws[..n])
    decreases |ws|, n
  {
    hide ReadRecord, RecordsBytes;
    if ws != [] {
      var k := |ws| - 1;
      var init := LastRead(ws, p);
      if n <= k {
        RecordsRead(init, p, n);
        assert init[..n] == ws[..n];
      } else {
        RecordsRead(init, p, k);
        assert init[..k] == init && ws[..n] == ws;
      }
    }
  }

  /** The header as sent; the clock's nanoseconds, the sequence and the engine are not used. */
  datatype Sent = Sent(count: nat, times: Times, unused: seq<Byte>, sampling: nat)

  predicate SentFits(h: Sent) {
    h.count < 0x10000 && h.times.sysUptime < ROLLOVER && h.times.seconds < ROLLOVER && |h.unused| == 10
        && h.sampling < 0x10000
  }

  function Head(h: Sent): (s: seq<Byte>)
    requires SentFits(h)
    ensures |s| == HEADER_SIZE
  {
    BeEnc(5, 2) + BeEnc(h.count, 2) + BeEnc(h.times.sysUptime, 4) + BeEnc(h.times.seconds, 4) + h.unused
        + BeEnc(h.sampling, 2)
  }

  lemma HeadRead(h: Sent, p: seq<Byte>)
    requires SentFits(h) && At(p, 0, Head(h))
    ensures U16(p, 0) == 5 && U16(p, 2) == h.count && U32(p, 4) == h.times.sysUptime && U32(p, 8) == h.times.seconds
    ensures U16(p, 22) == h.sampling
  {
    var front := BeEnc(5, 2) + BeEnc(h.count, 2);
    var up, seconds := BeEnc(h.times.sysUptime, 4), BeEnc(h.times.seconds, 4);
    AtParts(p, 0, front + up + seconds + h.unused, BeEnc(h.sampling, 2));
    AtParts(p, 0, front + up + seconds, h.unused);
    AtParts(p, 0, front + up, seconds);
    AtParts(p, 0, front, up);
    AtParts(p, 0, BeEnc(5, 2), BeEnc(h.count, 2));
    U16At(p, 0, 5);
    U16At(p, 2, h.count);
    U32At(p, 4, h.times.sysUptime);
    U32At(p, 8, h.times.seconds);
    U16At(p, 22, h.sampling);
  }

  lemma Pieces(a: seq<Byte>, b: seq<Byte>, c: seq<Byte>)
    ensures At(a + b + c, 0, a) && At(a + b + c, |a|, b)
  {
  }

  lemma WholeRecords(data: seq<Byte>, records: nat, rest: nat)
    requires |data| == Offset(records) + rest && rest < RECORD_SIZE
    ensures Whole(data) == if U16(data, 2) < records then U16(data, 2) else records
  {
    assert |data| - HEADER_SIZE == RECORD_SIZE * records + rest;
  }

  /** An encoded packet yields the flows of its records, in order, as many as are announced; bytes
      too few for one more record are ignored. */
  lemma PacketRoundTrip(h: Sent, ws: seq<Wired>, tail: seq<Byte>, exporter: string)
    requires SentFits(h) && h.count > 0 && AllFit(ws) && |tail| < RECORD_SIZE
    ensures var n := if h.count < |ws| then h.count else |ws|;
            Parsed(Head(h) + RecordsBytes(ws) + tail, exporter) ==
                FlowsOfRecords(exporter, h.times, h.sampling, RecordsOf(ws[..n]))
  {
    hide Whole, RecordsAt, FlowsOfRecords, RecordsOf, At, BeEnc;
    var data := Head(h) + RecordsBytes(ws) + tail;
    Pieces(Head(h), RecordsBytes(ws), tail);
    HeadRead(h, data);
    var n := if h.count < |ws| then h.count else |ws|;
    WholeRecords(data, |ws|, |tail|);
    RecordsRead(ws, data, n);
  }

  lemma ReadOfPrefix(data: seq<Byte>, k: nat, i: nat)
    requires i + RECORD_SIZE <= k <= |data|
    ensures ReadRecord(data[..k], i) == ReadRecord(data, i)
  {
    assert data[..k][i..i + 4] == data[i..i + 4];
    assert data[..k][i + 4..i + 8] == data[i + 4..i + 8];
  }

  lemma {:induction false} RecordsOfPrefix(data: seq<Byte>, k: nat, n: nat)
    requires Offset(n) <= k <= |data|
    ensures RecordsAt(data[..k], n) == RecordsAt(data, n)
    decreases n
  {
    hide ReadRecord;
    if n > 0 {
      RecordsOfPrefix(data, k, n - 1);
      ReadOfPrefix(data, k, Offset(n - 1));
    }
  }

  lemma HeaderOfPrefix(data: seq<Byte>, k: nat)
    requires HEADER_SIZE <= k <= |data|
    ensures U16(data[..k], 0) == U16(data, 0) && U16(data[..k], 2) == U16(data, 2)
            && U16(data[..k], 22) == U16(data, 22)
    ensures U32(data[..k], 4) == U32(data, 4) && U32(data[..k], 8) == U32(data, 8)
    ensures Whole(data[..k]) <= Whole(data)
  {
  }

  lemma {:induction false} RecordsGrow(data: seq<Byte>, m: nat, n: nat)
    requires m <= n && Offset(n) <= |data|
    ensures RecordsAt(data, m) <= RecordsAt(data, n)
    decreases n
  {
    hide ReadRecord;
    if m < n {
      RecordsGrow(data, m, n - 1);
      PrefixOfMore(RecordsAt(data, m), RecordsAt(data, n - 1), ReadRecord(data, Offset(n - 1)));
    }
  }

  lemma {:induction false} FlowsGrow(exporter: string, times: Times, sampling: nat, a: seq<Record>, b: seq<Record>)
    requires a <= b
    ensures FlowsOfRecords(exporter, times, sampling, a) <= FlowsOfRecords(exporter, times, sampling, b)
    decreases |b|
  {
    if |a| < |b| {
      FlowsGrow(exporter, times, sampling, a, b[..|b| - 1]);
    } else {
      assert a == b;
    }
  }

  /** A packet cut short yields the first flows of the whole packet and nothing else. */
  lemma TruncationIsPrefix(data: seq<Byte>, k: nat, exporter: string)
    requires k <= |data|
    ensures Parsed(data[..k], exporter) <= Parsed(data, exporter)
  {
    var cut := data[..k];
    if Acceptable(cut) {
      HeaderOfPrefix(data, k);
      var n, m := Whole(cut), Whole(data);
      RecordsOfPrefix(data, k, n);
      RecordsGrow(data, n, m);
      FlowsGrow(exporter, Times(U32(data, 4), U32(data, 8)), U16(data, 22), RecordsAt(data, n), RecordsAt(data, m));
    }
  }

  // ------------------------------------------------------------------
  // The 30 days before export
  // ------------------------------------------------------------------

  lemma RecordInWindow(exporter: string, times: Times, sampling: nat, p: seq<Byte>, i: nat)
    requires times.sysUptime < ROLLOVER && i + RECORD_SIZE <= |p|
    ensures FlowInWindow(times, FlowOfRecord(exporter, times, sampling, ReadRecord(p, i)))
  {
    EventTimeInWindow(times.sysUptime, times.seconds, U32(p, i + 24));
    EventTimeInWindow(times.sysUptime, times.seconds, U32(p, i + 28));
  }

  lemma {:induction false} RecordsInWindow(exporter: string, times: Times, sampling: nat, p: seq<Byte>, n: nat)
    requires times.sysUptime < ROLLOVER && Offset(n) <= |p|
    ensures AllInWindow(times, FlowsOfRecords(exporter, times, sampling, RecordsAt(p, n)))
    decreases n
  {
    hide ReadRecord, EventTime, InWindow;
    if n > 0 {
      var i := Offset(n - 1);
      RecordsInWindow(exporter, times, sampling, p, n - 1);
      RecordInWindow(exporter, times, sampling, p, i);
      NextRecord(p, exporter, times, sampling, n - 1, ReadRecord(p, i));
    }
  }

  /** Every flow of every v5 packet is dated in the 30 days before its export. */
  lemma V5InWindow(data: seq<Byte>, exporter: string)
    requires |data| >= HEADER_SIZE
    ensures AllInWindow(Times(U32(data, 4), U32(data, 8)), Parsed(data, exporter))
  {
    if Acceptable(data) {
      RecordsInWindow(exporter, Times(U32(data, 4), U32(data, 8)), U16(data, 22), data, Whole(data));
    }
  }

  // ------------------------------------------------------------------
  // How flows are dated
  // ------------------------------------------------------------------

  lemma {:induction false} FlowOfRecordAt(exporter: string, times: Times, sampling: nat, p: seq<Byte>, n: nat, k: nat)
    requires Offset(n) <= |p| && k < n
    ensures var flows := FlowsOfRecords(exporter, times, sampling, RecordsAt(p, n));
            && |flows| == n && Offset(k + 1) <= |p|
            && flows[k] == FlowOfRecord(exporter, times, sampling, ReadRecord(p, Offset(k)))
    decreases n
  {
    hide ReadRecord, FlowOfRecord, RecordsAt, FlowsOfRecords;
    FlowsCount(exporter, times, sampling, p, n - 1);
    NextRecord(p, exporter, times, sampling, n - 1, ReadRecord(p, Offset(n - 1)));
    if k < n - 1 {
      FlowOfRecordAt(exporter, times, sampling, p, n - 1, k);
    }
  }

  lemma {:induction false} FlowsCount(exporter: string, times: Times, sampling: nat, p: seq<Byte>, n: nat)
    requires Offset(n) <= |p|
    ensures |FlowsOfRecords(exporter, times, sampling, RecordsAt(p, n))| == n
    decreases n
  {
    hide ReadRecord, FlowOfRecord;
    if n > 0 {
      FlowsCount(exporter, times, sampling, p, n - 1);
      NextRecord(p, exporter, times, sampling, n - 1, ReadRecord(p, Offset(n - 1)));
    }
  }

  /** The k-th flow of a packet is the one of its k-th record. */
  lemma FlowAt(data: seq<Byte>, exporter: string, k: nat)
    requires k < |Parsed(data, exporter)|
    ensures |data| >= HEADER_SIZE && Offset(k + 1) <= |data|
    ensures Parsed(data, exporter)[k] ==
            FlowOfRecord(exporter, Times(U32(data, 4), U32(data, 8)), U16(data, 22), ReadRecord(data, Offset(k)))
  {
    hide FlowOfRecord, ReadRecord, Whole;
    var times, sampling, n := Times(U32(data, 4), U32(data, 8)), U16(data, 22), Whole(data);
    FlowsCount(exporter, times, sampling, data, n);
    FlowOfRecordAt(exporter, times, sampling, data, n, k);
  }

  /** Which bytes the k-th flow of a packet is read from: the record at 24 + 48 k, its counts multiplied
      by the low 14 bits of the sampling field unless these are zero. */
  lemma V5FlowIsBytes(data: seq<Byte>, exporter: string, k: nat)
    requires k < |Parsed(data, exporter)|
    ensures |data| >= 24 && 24 + 48 * (k + 1) <= |data|
    ensures var f, o, sampling := Parsed(data, exporter)[k], 24 + 48 * k, U16(data, 22);
            var factor := if sampling % 16384 == 0 then 1 else sampling % 16384;
            && f.exporter == exporter && f.src == data[o..o + 4] && f.dst == data[o + 4..o + 8]
            && f.inputIf == U16(data, o + 12) && f.outputIf == U16(data, o + 14)
            && f.packets == U32(data, o + 16) * factor && f.octets == U32(data, o + 20) * factor
            && f.srcPort == U16(data, o + 32) && f.dstPort == U16(data, o + 34)
            && f.tcpFlags == data[o + 37] && f.protocol == data[o + 38]
  {
    FlowAt(data, exporter, k);
  }

  /** How many flows a packet yields: as many as it announces and holds, if it is a v5 packet at all. */
  lemma V5FlowCount(data: seq<Byte>, exporter: string)
    ensures |Parsed(data, exporter)| ==
            if |data| < 24 || U16(data, 0) != 5 then 0
            else
              var room := (|data| - 24) / 48;
              if U16(data, 2) < room then U16(data, 2) else room
  {
    hide FlowsOfRecords;
    if Acceptable(data) {
      FlowsCount(exporter, Times(U32(data, 4), U32(data, 8)), U16(data, 22), data, Whole(data));
    }
  }

  /** A flow of a v5 packet starts no later than it ends exactly when the ages of the two uptimes of its
      record are in order. */
  lemma V5StartBeforeEnd(data: seq<Byte>, exporter: string, k: nat)
    requires k < |Parsed(data, exporter)|
    ensures |data| >= HEADER_SIZE && Offset(k + 1) <= |data|
    ensures var f, sysUptime := Parsed(data, exporter)[k], U32(data, 4);
            f.start <= f.end <==>
            AgesInOrder(Age(sysUptime, U32(data, Offset(k) + 24)), Age(sysUptime, U32(data, Offset(k) + 28)))
  {
    FlowAt(data, exporter, k);
    AgesOrderTimes(U32(data, 4), U32(data, 8), U32(data, Offset(k) + 24), U32(data, Offset(k) + 28));
  }

  /** And it gets the true time of each of its packets exactly when that packet is at most 30 days old. */
  lemma V5DatedExactly(data: seq<Byte>, exporter: string, k: nat, clock: nat, first: nat, last: nat)
    requires k < |Parsed(data, exporter)| && Offset(k + 1) <= |data|
    requires first <= clock && last <= clock && U32(data, 4) == clock % 0x1_0000_0000
    requires U32(data, Offset(k) + 24) == (clock - first) % 0x1_0000_0000
    requires U32(data, Offset(k) + 28) == (clock - last) % 0x1_0000_0000
    ensures var f, seconds := Parsed(data, exporter)[k], U32(data, 8);
            && (f.start == 1000 * seconds - first <==> first <= 30 * 24 * 3600 * 1000)
            && (f.end == 1000 * seconds - last <==> last <= 30 * 24 * 3600 * 1000)
  {
    FlowAt(data, exporter, k);
    EventTimeExact(clock, U32(data, 8), first);
    EventTimeExact(clock, U32(data, 8), last);
  }

  const ZEROS: seq<Byte> := [0, 0, 0, 0, 0, 0, 0, 0, 0, 0]

  /** A flow from a router up for 31 days and 6 hours: its first packet is from the start of the router,
      its last one second old. */
  const LONG_FLOW := Wired(
    Record([10, 0, 0, 1], [10, 0, 0, 2], 0, 0, 1, 1, 0, 2699999000, 0, 0, 0, 6), ZEROS[..4], ZEROS[..1], ZEROS[..9])

  const LONG_FLOW_HEAD := Sent(1, Times(2700000000, 1000), ZEROS, 0)

  /** A packet whose one flow starts after it ends. */
  lemma LongFlowEndsBeforeStart(exporter: string)
    ensures AllFit([LONG_FLOW]) && SentFits(LONG_FLOW_HEAD)
    ensures var flows := Parsed(Head(LONG_FLOW_HEAD) + RecordsBytes([LONG_FLOW]), exporter);
            |flows| == 1 && flows[0].end < flows[0].start
  {
    hide Parsed, Head, RecordsBytes;
    var bytes := Head(LONG_FLOW_HEAD) + RecordsBytes([LONG_FLOW]);
    assert bytes + [] == bytes;
    PacketRoundTrip(LONG_FLOW_HEAD, [LONG_FLOW], [], exporter);
    assert [LONG_FLOW][..1] == [LONG_FLOW];
  }

  // ------------------------------------------------------------------
  // The v5 layout as a v9 template
  // ------------------------------------------------------------------

  function F(id: nat, length: nat): Field { Field(id, length, None) }

  /** The v5 record written as a v9 template: field numbers of RFC 3954, section 8, at the v5
      offsets; 15 is the next hop, and 210 stands for padding and what is not used. */
  predicate IsV5Template(fields: seq<Field>) {
    && |fields| == 15
    && fields[0] == F(8, 4) && fields[1] == F(12, 4) && fields[2] == F(15, 4) && fields[3] == F(10, 2)
    && fields[4] == F(14, 2)
    && fields[5] == F(2, 4) && fields[6] == F(1, 4) && fields[7] == F(22, 4) && fields[8] == F(21, 4)
    && fields[9] == F(7, 2)
    && fields[10] == F(11, 2) && fields[11] == F(210, 1) && fields[12] == F(6, 1) && fields[13] == F(4, 1)
    && fields[14] == F(210, 9)
  }

  /** One field more of a record. */
  lemma DecodeNext(fields: seq<Field>, k: nat, f: Field, p: seq<Byte>, i: nat, off: nat)
    requires k < |fields| && fields[k] == f && TotalLength(fields[..k]) == off && i + off + f.length <= |p|
    ensures TotalLength(fields[..k + 1]) == off + f.length
    ensures Decode(V9, fields[..k + 1], p[i..i + off + f.length]) ==
            Feed(V9, Decode(V9, fields[..k], p[i..i + off]), f, p[i + off..i + off + f.length])
  {
    TotalPrefix(fields, k);
    var bytes := p[i..i + off + f.length];
    assert fields[..k + 1][..k] == fields[..k];
    assert bytes[..off] == p[i..i + off];
    assert bytes[off..] == p[i + off..i + off + f.length];
  }

  /** The first k fields, which take up off bytes, decode to raw. */
  predicate DecodesTo(fields: seq<Field>, k: nat, p: seq<Byte>, i: nat, off: nat, raw: Raw) {
    k <= |fields| && TotalLength(fields[..k]) == off && i + off <= |p| && Decode(V9, fields[..k], p[i..i + off]) == raw
  }

  function PutNumber(raw: Raw, t: Target, n: nat): Raw {
    match t
    case Src => raw
    case Dst => raw
    case SrcPort => raw.(srcPort := n)
    case DstPort => raw.(dstPort := n)
    case Protocol => raw.(protocol := n)
    case Octets => raw.(octets := n)
    case Packets => raw.(packets := n)
    case TcpFlags => raw.(tcpFlags := n)
    case InputIf => raw.(inputIf := n)
    case OutputIf => raw.(outputIf := n)
    case First => raw.(first := Some(n))
    case Last => raw.(last := Some(n))
  }

  lemma Skips(fields: seq<Field>, k: nat, f: Field, p: seq<Byte>, i: nat, off: nat, raw: Raw)
    requires DecodesTo(fields, k, p, i, off, raw) && k < |fields| && fields[k] == f && i + off + f.length <= |p|
    requires MeaningOf(V9, f) == None
    ensures DecodesTo(fields, k + 1, p, i, off + f.length, raw)
  {
    hide Decode, TotalLength;
    DecodeNext(fields, k, f, p, i, off);
  }

  lemma FeedsNumber(fields: seq<Field>, k: nat, f: Field, t: Target, n: nat, p: seq<Byte>, i: nat, off: nat, raw: Raw)
    requires DecodesTo(fields, k, p, i, off, raw) && k < |fields| && fields[k] == f && i + off + f.length <= |p|
    requires MeaningOf(V9, f) == Some((t, Plain)) && !t.Src? && !t.Dst?
    requires n == Be(p[i + off..i + off + f.length])
    ensures DecodesTo(fields, k + 1, p, i, off + f.length, PutNumber(raw, t, n))
  {
    hide Decode, Be, TotalLength;
    DecodeNext(fields, k, f, p, i, off);
  }

  lemma FeedsU16(fields: seq<Field>, k: nat, f: Field, t: Target, p: seq<Byte>, i: nat, off: nat, raw: Raw)
    returns (raw': Raw)
    requires DecodesTo(fields, k, p, i, off, raw) && k < |fields| && fields[k] == f && f.length == 2
             && i + off + 2 <= |p|
    requires MeaningOf(V9, f) == Some((t, Plain)) && !t.Src? && !t.Dst?
    ensures raw' == PutNumber(raw, t, U16(p, i + off)) && DecodesTo(fields, k + 1, p, i, off + 2, raw')
  {
    hide DecodesTo, MeaningOf;
    U16IsBe(p, i + off);
    FeedsNumber(fields, k, f, t, U16(p, i + off), p, i, off, raw);
    raw' := PutNumber(raw, t, U16(p, i + off));
  }

  lemma FeedsU32(fields: seq<Field>, k: nat, f: Field, t: Target, p: seq<Byte>, i: nat, off: nat, raw: Raw)
    returns (raw': Raw)
    requires DecodesTo(fields, k, p, i, off, raw) && k < |fields| && fields[k] == f && f.length == 4
             && i + off + 4 <= |p|
    requires MeaningOf(V9, f) == Some((t, Plain)) && !t.Src? && !t.Dst?
    ensures raw' == PutNumber(raw, t, U32(p, i + off)) && DecodesTo(fields, k + 1, p, i, off + 4, raw')
  {
    hide DecodesTo, MeaningOf;
    U32IsBe(p, i + off);
    FeedsNumber(fields, k, f, t, U32(p, i + off), p, i, off, raw);
    raw' := PutNumber(raw, t, U32(p, i + off));
  }

  lemma FeedsByte(fields: seq<Field>, k: nat, f: Field, t: Target, p: seq<Byte>, i: nat, off: nat, raw: Raw)
    returns (raw': Raw)
    requires DecodesTo(fields, k, p, i, off, raw) && k < |fields| && fields[k] == f && f.length == 1
             && i + off + 1 <= |p|
    requires MeaningOf(V9, f) == Some((t, Plain)) && !t.Src? && !t.Dst?
    ensures raw' == PutNumber(raw, t, p[i + off]) && DecodesTo(fields, k + 1, p, i, off + 1, raw')
  {
    hide DecodesTo, MeaningOf;
    BeLast(p, i + off, i + off + 1);
    FeedsNumber(fields, k, f, t, p[i + off], p, i, off, raw);
    raw' := PutNumber(raw, t, p[i + off]);
  }

  lemma AddressesDecode(fields: seq<Field>, p: seq<Byte>, i: nat) returns (raw: Raw)
    requires IsV5Template(fields) && i + RECORD_SIZE <= |p|
    ensures raw == BLANK.(src := Some(p[i..i + 4]), dst := Some(p[i + 4..i + 8])) && DecodesTo(fields, 3, p, i, 12, raw)
  {
    assert fields[..0] == [];
    DecodeNext(fields, 0, F(8, 4), p, i, 0);
    DecodeNext(fields, 1, F(12, 4), p, i, 4);
    raw := BLANK.(src := Some(p[i..i + 4]), dst := Some(p[i + 4..i + 8]));
    Skips(fields, 2, F(15, 4), p, i, 8, raw);
  }

  /** What a v5 record is, in the terms of the v9 record loop. */
  function RawOf(r: Record): Raw {
    Raw(Some(r.src), Some(r.dst), r.srcPort, r.dstPort, r.protocol, r.octets, r.packets, r.tcpFlags, r.inputIf,
        r.outputIf, Some(r.first), Some(r.last))
  }

  lemma CountsDecode(fields: seq<Field>, p: seq<Byte>, i: nat, raw0: Raw) returns (raw: Raw)
    requires IsV5Template(fields) && i + RECORD_SIZE <= |p| && DecodesTo(fields, 3, p, i, 12, raw0)
    ensures raw == raw0.(inputIf := U16(p, i + 12), outputIf := U16(p, i + 14), packets := U32(p, i + 16),
                         octets := U32(p, i + 20))
    ensures DecodesTo(fields, 7, p, i, 24, raw)
  {
    hide DecodesTo;
    raw := FeedsU16(fields, 3, F(10, 2), InputIf, p, i, 12, raw0);
    raw := FeedsU16(fields, 4, F(14, 2), OutputIf, p, i, 14, raw);
    raw := FeedsU32(fields, 5, F(2, 4), Packets, p, i, 16, raw);
    raw := FeedsU32(fields, 6, F(1, 4), Octets, p, i, 20, raw);
  }

  lemma TimesDecode(fields: seq<Field>, p: seq<Byte>, i: nat, raw0: Raw) returns (raw: Raw)
    requires IsV5Template(fields) && i + RECORD_SIZE <= |p| && DecodesTo(fields, 7, p, i, 24, raw0)
    ensures raw == raw0.(first := Some(U32(p, i + 24)), last := Some(U32(p, i + 28)))
            && DecodesTo(fields, 9, p, i, 32, raw)
  {
    hide DecodesTo;
    raw := FeedsU32(fields, 7, F(22, 4), First, p, i, 24, raw0);
    raw := FeedsU32(fields, 8, F(21, 4), Last, p, i, 28, raw);
  }

  lemma PortsDecode(fields: seq<Field>, p: seq<Byte>, i: nat, raw0: Raw) returns (raw: Raw)
    requires IsV5Template(fields) && i + RECORD_SIZE <= |p| && DecodesTo(fields, 9, p, i, 32, raw0)
    ensures raw == raw0.(srcPort := U16(p, i + 32), dstPort := U16(p, i + 34), tcpFlags := p[i + 37],
                         protocol := p[i + 38])
    ensures DecodesTo(fields, 15, p, i, 48, raw)
  {
    hide DecodesTo;
    raw := FeedsU16(fields, 9, F(7, 2), SrcPort, p, i, 32, raw0);
    raw := FeedsU16(fields, 10, F(11, 2), DstPort, p, i, 34, raw);
    Skips(fields, 11, F(210, 1), p, i, 36, raw);
    raw := FeedsByte(fields, 12, F(6, 1), TcpFlags, p, i, 37, raw);
    raw := FeedsByte(fields, 13, F(4, 1), Protocol, p, i, 38, raw);
    Skips(fields, 14, F(210, 9), p, i, 39, raw);
  }

  /** The v9 record loop, run on the v5 layout, reads what the v5 parser reads. */
  lemma RecordAgrees(fields: seq<Field>, p: seq<Byte>, i: nat)
    requires IsV5Template(fields) && i + RECORD_SIZE <= |p|
    ensures TotalLength(fields) == RECORD_SIZE
    ensures Decode(V9, fields, p[i..i + RECORD_SIZE]) == RawOf(ReadRecord(p, i))
  {
    hide Feed;
    var raw := AddressesDecode(fields, p, i);
    raw := CountsDecode(fields, p, i, raw);
    raw := TimesDecode(fields, p, i, raw);
    raw := PortsDecode(fields, p, i, raw);
    assert fields[..15] == fields;
  }

  lemma OneRecordSet(exporter: string, times: Times, fields: seq<Field>, record: seq<Byte>)
    requires |record| == TotalLength(fields) > 0
    ensures SetFlows(V9, fields, exporter, times, record) == FlowOf(V9, exporter, times, Decode(V9, fields, record))
  {
    assert record[..|record|] == record && record[|record|..] == [];
    assert SetFlows(V9, fields, exporter, times, []) == [];
  }

  lemma FirstRecord(front: seq<Byte>, last: seq<Byte>, size: nat) returns (head: seq<Byte>, rest: seq<Byte>)
    requires size <= |front|
    ensures |head| == size && front == head + rest && front + last == head + (rest + last)
  {
    head, rest := front[..size], front[size..];
    ConcatAssoc(head, rest, last);
  }

  /** A set of one record more. */
  lemma {:induction false} SetFlowsSnoc(exporter: string, times: Times, fields: seq<Field>,
                                        front: seq<Byte>, n: nat, last: seq<Byte>)
    requires TotalLength(fields) == |last| == RECORD_SIZE && |front| == RECORD_SIZE * n
    ensures SetFlows(V9, fields, exporter, times, front + last) ==
            SetFlows(V9, fields, exporter, times, front) + SetFlows(V9, fields, exporter, times, last)
    decreases n
  {
    hide Decode, TotalLength;
    var flows := SetFlows(V9, fields, exporter, times, last);
    if n == 0 {
      assert front + last == last;
      assert SetFlows(V9, fields, exporter, times, front) == [];
      assert [] + flows == flows;
    } else {
      var head, rest := FirstRecord(front, last, RECORD_SIZE);
      SetFlowsSnoc(exporter, times, fields, rest, n - 1, last);
      SetFlowsHead(V9, fields, exporter, times, head, rest + last);
      SetFlowsHead(V9, fields, exporter, times, head, rest);
      ConcatAssoc(FlowOf(V9, exporter, times, Decode(V9, fields, head)), SetFlows(V9, fields, exporter, times, rest),
                  flows);
    }
  }

  lemma RecordFlows(fields: seq<Field>, data: seq<Byte>, i: nat, exporter: string, times: Times)
    requires IsV5Template(fields) && i + RECORD_SIZE <= |data|
    ensures TotalLength(fields) == RECORD_SIZE
    ensures SetFlows(V9, fields, exporter, times, data[i..i + RECORD_SIZE]) ==
            [FlowOfRecord(exporter, times, 0, ReadRecord(data, i))]
  {
    RecordAgrees(fields, data, i);
    OneRecordSet(exporter, times, fields, data[i..i + RECORD_SIZE]);
  }

  lemma OneRecordAgrees(fields: seq<Field>, data: seq<Byte>, n: nat, exporter: string, times: Times,
                        front: seq<FlowRecord>) returns (flows: seq<FlowRecord>)
    requires IsV5Template(fields) && TotalLength(fields) == RECORD_SIZE && Offset(n + 1) <= |data|
    requires front == FlowsOfRecords(exporter, times, 0, RecordsAt(data, n))
    requires front == SetFlows(V9, fields, exporter, times, data[HEADER_SIZE..Offset(n)])
    ensures flows == FlowsOfRecords(exporter, times, 0, RecordsAt(data, n + 1))
    ensures flows == SetFlows(V9, fields, exporter, times, data[HEADER_SIZE..Offset(n + 1)])
  {
    hide SetFlows, FlowsOfRecords, RecordsAt, TotalLength, IsV5Template;
    var i := Offset(n);
    RecordFlows(fields, data, i, exporter, times);
    SetFlowsSnoc(exporter, times, fields, data[HEADER_SIZE..i], n, data[i..i + RECORD_SIZE]);
    assert data[HEADER_SIZE..i] + data[i..i + RECORD_SIZE] == data[HEADER_SIZE..i + RECORD_SIZE];
    NextRecord(data, exporter, times, 0, n, ReadRecord(data, i));
    flows := front + [FlowOfRecord(exporter, times, 0, ReadRecord(data, i))];
  }

  lemma NoRecordAgrees(fields: seq<Field>, data: seq<Byte>, exporter: string, times: Times)
    returns (flows: seq<FlowRecord>)
    requires TotalLength(fields) > 0 && HEADER_SIZE <= |data|
    ensures flows == FlowsOfRecords(exporter, times, 0, RecordsAt(data, 0))
    ensures flows == SetFlows(V9, fields, exporter, times, data[HEADER_SIZE..Offset(0)])
  {
    flows := [];
    assert data[HEADER_SIZE..HEADER_SIZE] == [];
  }

  /** The first n records give the same flows as a v9 set of the same bytes. */
  lemma {:induction false} RecordsAgree(fields: seq<Field>, data: seq<Byte>, n: nat, exporter: string, times: Times)
    returns (flows: seq<FlowRecord>)
    requires IsV5Template(fields) && TotalLength(fields) == RECORD_SIZE && Offset(n) <= |data|
    ensures flows == FlowsOfRecords(exporter, times, 0, RecordsAt(data, n))
    ensures flows == SetFlows(V9, fields, exporter, times, data[HEADER_SIZE..Offset(n)])
    decreases n
  {
    hide SetFlows, FlowsOfRecords, RecordsAt, TotalLength;
    if n == 0 {
      flows := NoRecordAgrees(fields, data, exporter, times);
    } else {
      flows := RecordsAgree(fields, data, n - 1, exporter, times);
      flows := OneRecordAgrees(fields, data, n - 1, exporter, times, flows);
    }
  }

  /** The two parsers agree: an unsampled v5 packet yields the flows of a v9 data set that carries
      the same record bytes under the v5 layout as its template. */
  lemma V5AgreesWithV9(fields: seq<Field>, data: seq<Byte>, exporter: string)
    requires IsV5Template(fields) && Acceptable(data) && U16(data, 22) % 0x4000 == 0
    ensures TotalLength(fields) == RECORD_SIZE
    ensures Parsed(data, exporter) ==
            SetFlows(V9, fields, exporter, Times(U32(data, 4), U32(data, 8)), data[HEADER_SIZE..Offset(Whole(data))])
  {
    hide SetFlows, FlowsOfRecords, RecordsAt, TotalLength, IsV5Template;
    RecordAgrees(fields, seq(RECORD_SIZE, _ => 0), 0);
    var times := Times(U32(data, 4), U32(data, 8));
    var flows := RecordsAgree(fields, data, Whole(data), exporter, times);
    Unsampled(exporter, times, U16(data, 22), RecordsAt(data, Whole(data)));
  }

  lemma {:induction false} Unsampled(exporter: string, times: Times, sampling: nat, records: seq<Record>)
    requires sampling % 0x4000 == 0
    ensures FlowsOfRecords(exporter, times, sampling, records) == FlowsOfRecords(exporter, times, 0, records)
    decreases |records|
  {
    if records != [] {
      Unsampled(exporter, times, sampling, records[..|records| - 1]);
    }
  }
}
