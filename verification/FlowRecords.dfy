// Fields, records and the flows they decode to (monitoring/flow/v9_parser.py, ipfix_parser.py).

module FlowRecords {
  import opened Collections
  import opened Options
  import opened Wire

  /** NetFlow v9 and IPFIX share one record format; they differ in enterprise fields and in how a
      flow is dated. */
  datatype Dialect = V9 | Ipfix

  datatype Field = Field(id: nat, length: nat, enterprise: Option<nat>)

  /** An address as its bytes: four for IPv4, sixteen for IPv6. */
  type IpBytes = seq<Byte>

  datatype Target = Src | Dst | SrcPort | DstPort | Protocol | Octets | Packets | TcpFlags | InputIf | OutputIf | First
      | Last

  /** The variables of the record loop; times are uptimes for v9 and Unix milliseconds for IPFIX. */
  datatype Raw = Raw(
    src: Option<IpBytes>, dst: Option<IpBytes>, srcPort: nat, dstPort: nat, protocol: nat, octets: nat,
    packets: nat, tcpFlags: nat, inputIf: nat, outputIf: nat, first: Option<nat>, last: Option<nat>)

  const BLANK := Raw(None, None, 0, 0, 0, 0, 0, 0, 0, 0, None, None)

  /** A number stands as it is, or is a number of seconds that stands for milliseconds. */
  datatype Unit = Plain | Seconds

  function InUnit(u: Unit, n: nat): nat { if u.Seconds? then 1000 * n else n }

  /** What a field feeds, with the unit of its number; most fields feed nothing. */
  function MeaningOf(dialect: Dialect, f: Field): Option<(Target, Unit)> {
    if f.enterprise.Some? then None
    else if f.id == 8 && f.length == 4 then Some((Src, Plain))
    else if f.id == 12 && f.length == 4 then Some((Dst, Plain))
    else if f.id == 27 && f.length == 16 then Some((Src, Plain))
    else if f.id == 28 && f.length == 16 then Some((Dst, Plain))
    else if f.id == 7 then Some((SrcPort, Plain))
    else if f.id == 11 then Some((DstPort, Plain))
    else if f.id == 4 then Some((Protocol, Plain))
    else if f.id == 1 then Some((Octets, Plain))
    else if f.id == 2 then Some((Packets, Plain))
    else if f.id == 6 then Some((TcpFlags, Plain))
    else if f.id == 10 then Some((InputIf, Plain))
    else if f.id == 14 then Some((OutputIf, Plain))
    else if dialect.V9? && f.id == 22 then Some((First, Plain))
    else if dialect.V9? && f.id == 21 then Some((Last, Plain))
    else if dialect.Ipfix? && f.id == 150 then Some((First, Seconds))
    else if dialect.Ipfix? && f.id == 151 then Some((Last, Seconds))
    else if dialect.Ipfix? && f.id == 152 then Some((First, Plain))
    else if dialect.Ipfix? && f.id == 153 then Some((Last, Plain))
    else None
  }

  function Put(raw: Raw, t: Target, u: Unit, bytes: seq<Byte>): Raw {
    match t
    case Src => raw.(src := Some(bytes))
    case Dst => raw.(dst := Some(bytes))
    case SrcPort => raw.(srcPort := Be(bytes))
    case DstPort => raw.(dstPort := Be(bytes))
    case Protocol => raw.(protocol := Be(bytes))
    case Octets => raw.(octets := Be(bytes))
    case Packets => raw.(packets := Be(bytes))
    case TcpFlags => raw.(tcpFlags := Be(bytes))
    case InputIf => raw.(inputIf := Be(bytes))
    case OutputIf => raw.(outputIf := Be(bytes))
    case First => raw.(first := Some(InUnit(u, Be(bytes))))
    case Last => raw.(last := Some(InUnit(u, Be(bytes))))
  }

  function Feed(dialect: Dialect, raw: Raw, f: Field, bytes: seq<Byte>): Raw {
    match MeaningOf(dialect, f)
    case None => raw
    case Some((t, u)) => Put(raw, t, u, bytes)
  }

  function TotalLength(fields: seq<Field>): nat {
    if fields == [] then 0 else TotalLength(fields[..|fields| - 1]) + fields[|fields| - 1].length
  }

  /** The record loop: fields in order, each with its own stretch of bytes; later fields win. */
  function Decode(dialect: Dialect, fields: seq<Field>, bytes: seq<Byte>): Raw
    requires |bytes| == TotalLength(fields)
    decreases |fields|
  {
    if fields == [] then BLANK
    else
      var f := fields[|fields| - 1];
      var cut := |bytes| - f.length;
      Feed(dialect, Decode(dialect, fields[..|fields| - 1], bytes[..cut]), f, bytes[cut..])
  }

  // ------------------------------------------------------------------
  // Flows
  // ------------------------------------------------------------------

  /** The header times a record is dated with: uptime and seconds for v9, seconds for IPFIX. */
  datatype Times = Times(sysUptime: nat, seconds: nat)

  /** A decoded flow; times are Unix milliseconds. */
  datatype FlowRecord = FlowRecord(
    exporter: string, src: IpBytes, dst: IpBytes, srcPort: nat, dstPort: nat, protocol: nat, octets: nat,
    packets: nat, tcpFlags: nat, inputIf: nat, outputIf: nat, start: int, end: int)

  function Dated(dialect: Dialect, times: Times, t: Option<nat>): int {
    match t
    case None => 1000 * times.seconds
    case Some(ms) => if dialect.V9? then EventTime(times.sysUptime, times.seconds, ms) else ms
  }

  /** A record becomes a flow when it carries both addresses. */
  function FlowOf(dialect: Dialect, exporter: string, times: Times, raw: Raw): seq<FlowRecord> {
    if raw.src.None? || raw.dst.None? then []
    else [FlowRecord(exporter, raw.src.value, raw.dst.value, raw.srcPort, raw.dstPort, raw.protocol, raw.octets,
                     raw.packets, raw.tcpFlags, raw.inputIf, raw.outputIf,
                     Dated(dialect, times, raw.first), Dated(dialect, times, raw.last))]
  }

  /** All whole records of a data set; a shorter rest is padding. */
  function SetFlows(dialect: Dialect, fields: seq<Field>, exporter: string, times: Times,
                    payload: seq<Byte>): seq<FlowRecord>
    requires TotalLength(fields) > 0
    decreases |payload|
  {
    var n := TotalLength(fields);
    if |payload| < n then []
    else FlowOf(dialect, exporter, times, Decode(dialect, fields, payload[..n]))
         + SetFlows(dialect, fields, exporter, times, payload[n..])
  }

  // ------------------------------------------------------------------
  // The loops
  // ------------------------------------------------------------------

  lemma TotalPrefix(fields: seq<Field>, i: nat)
    requires i < |fields|
    ensures TotalLength(fields[..i + 1]) == TotalLength(fields[..i]) + fields[i].length
  {
    assert fields[..i + 1][..i] == fields[..i];
  }

  lemma {:induction false} TotalMonotone(fields: seq<Field>, i: nat)
    requires i <= |fields|
    ensures TotalLength(fields[..i]) <= TotalLength(fields)
    decreases |fields| - i
  {
    if i < |fields| {
      TotalPrefix(fields, i);
      TotalMonotone(fields, i + 1);
    } else {
      assert fields[..i] == fields;
    }
  }

  method DecodeRecord(dialect: Dialect, fields: seq<Field>, payload: seq<Byte>, offset: nat) returns (raw: Raw)
    requires offset + TotalLength(fields) <= |payload|
    ensures raw == Decode(dialect, fields, payload[offset..offset + TotalLength(fields)])
  {
    hide Feed;
    raw := BLANK;
    var recOffset := offset;
    for i := 0 to |fields|
      invariant recOffset == offset + TotalLength(fields[..i])
      invariant TotalLength(fields[..i]) <= TotalLength(fields)
      invariant raw == Decode(dialect, fields[..i], payload[offset..recOffset])
    {
      var f := fields[i];
      TotalPrefix(fields, i);
      TotalMonotone(fields, i + 1);
      var bytes := payload[recOffset..recOffset + f.length];
      assert fields[..i + 1][..i] == fields[..i];
      ghost var upTo := payload[offset..recOffset + f.length];
      assert upTo[..|upTo| - f.length] == payload[offset..recOffset];
      assert upTo[|upTo| - f.length..] == bytes;
      raw := Feed(dialect, raw, f, bytes);
      recOffset := recOffset + f.length;
    }
    assert fields[..|fields|] == fields;
  }

  /** The flows of a set from one record boundary on: the next record's, then the rest. */
  lemma SetFlowsFrom(dialect: Dialect, fields: seq<Field>, exporter: string, times: Times, payload: seq<Byte>,
                     offset: nat)
    requires TotalLength(fields) > 0 && offset + TotalLength(fields) <= |payload|
    ensures var n := TotalLength(fields);
            SetFlows(dialect, fields, exporter, times, payload[offset..]) ==
            FlowOf(dialect, exporter, times, Decode(dialect, fields, payload[offset..offset + n]))
            + SetFlows(dialect, fields, exporter, times, payload[offset + n..])
  {
    var n := TotalLength(fields);
    assert payload[offset..][..n] == payload[offset..offset + n];
    assert payload[offset..][n..] == payload[offset + n..];
  }

  method DecodeSet(dialect: Dialect, fields: seq<Field>, exporter: string, times: Times, payload: seq<Byte>)
    returns (flows: seq<FlowRecord>)
    requires TotalLength(fields) > 0
    ensures flows == SetFlows(dialect, fields, exporter, times, payload)
  {
    flows := [];
    var n := TotalLength(fields);
    var offset := 0;
    while offset + n <= |payload|
      invariant offset <= |payload|
      invariant flows + SetFlows(dialect, fields, exporter, times, payload[offset..]) ==
                SetFlows(dialect, fields, exporter, times, payload)
      decreases |payload| - offset
    {
      var raw := DecodeRecord(dialect, fields, payload, offset);
      SetFlowsFrom(dialect, fields, exporter, times, payload, offset);
      flows := flows + FlowOf(dialect, exporter, times, raw);
      offset := offset + n;
    }
  }

  // ------------------------------------------------------------------
  // Round trip
  // ------------------------------------------------------------------

  datatype Value = Bytes(ip: Option<IpBytes>) | Number(n: nat) | Time(ms: Option<nat>)

  function ValueOf(raw: Raw, t: Target): Value {
    match t
    case Src => Bytes(raw.src)
    case Dst => Bytes(raw.dst)
    case SrcPort => Number(raw.srcPort)
    case DstPort => Number(raw.dstPort)
    case Protocol => Number(raw.protocol)
    case Octets => Number(raw.octets)
    case Packets => Number(raw.packets)
    case TcpFlags => Number(raw.tcpFlags)
    case InputIf => Number(raw.inputIf)
    case OutputIf => Number(raw.outputIf)
    case First => Time(raw.first)
    case Last => Time(raw.last)
  }

  function FromUnit(u: Unit, n: nat): nat { if u.Seconds? then n / 1000 else n }

  /** The bytes of one field that carry the record's value for it. */
  function EncodeField(dialect: Dialect, f: Field, raw: Raw): (bytes: seq<Byte>) {
    match MeaningOf(dialect, f)
    case None => BeEnc(0, f.length)
    case Some((t, u)) =>
      match ValueOf(raw, t)
      case Bytes(ip) => ip.GetOr([])
      case Number(n) => BeEnc(n, f.length)
      case Time(ms) => BeEnc(FromUnit(u, ms.GetOr(0)), f.length)
  }

  /** The record's value for the field can be carried by it: an address of the field's length, a
      number that fits, a time that is a multiple of the field's unit. */
  predicate Carries(dialect: Dialect, f: Field, raw: Raw) {
    match MeaningOf(dialect, f)
    case None => true
    case Some((t, u)) =>
      match ValueOf(raw, t)
      case Bytes(ip) => ip.Some? && |ip.value| == f.length
      case Number(n) => n < Pow256(f.length)
      case Time(ms) =>
        ms.Some? && InUnit(u, FromUnit(u, ms.value)) == ms.value && FromUnit(u, ms.value) < Pow256(f.length)
  }

  /** Some field of the template feeds the target. */
  predicate Mentions(dialect: Dialect, fields: seq<Field>, t: Target) {
    exists i :: 0 <= i < |fields| && MeaningOf(dialect, fields[i]).Some? && MeaningOf(dialect, fields[i]).value.0 == t
  }

  /** The template can express the record: every field carries its value and what no field feeds is
      blank. */
  ghost predicate Expresses(dialect: Dialect, fields: seq<Field>, raw: Raw) {
    && (forall i :: 0 <= i < |fields| ==> Carries(dialect, fields[i], raw))
    && (forall t :: !Mentions(dialect, fields, t) ==> ValueOf(raw, t) == ValueOf(BLANK, t))
  }

  function Encode(dialect: Dialect, fields: seq<Field>, raw: Raw): seq<Byte> {
    if fields == [] then []
    else Encode(dialect, fields[..|fields| - 1], raw) + EncodeField(dialect, fields[|fields| - 1], raw)
  }

  lemma PutOther(raw: Raw, own: Target, u: Unit, bytes: seq<Byte>, t: Target)
    requires t != own
    ensures ValueOf(Put(raw, own, u, bytes), t) == ValueOf(raw, t)
  {
  }

  /** Putting the bytes of an encoded field restores the record's value. */
  lemma PutOwn(dialect: Dialect, f: Field, raw: Raw, acc: Raw, own: Target, u: Unit)
    requires MeaningOf(dialect, f) == Some((own, u)) && Carries(dialect, f, raw)
    ensures |EncodeField(dialect, f, raw)| == f.length
    ensures ValueOf(Put(acc, own, u, EncodeField(dialect, f, raw)), own) == ValueOf(raw, own)
  {
    match ValueOf(raw, own) {
      case Bytes(ip) =>
      case Number(n) => BeOfEnc(n, f.length);
      case Time(ms) =>
        BeOfEnc(FromUnit(u, ms.value), f.length);
    }
  }

  lemma EncodedFieldFeeds(dialect: Dialect, f: Field, raw: Raw, acc: Raw, t: Target)
    requires Carries(dialect, f, raw)
    ensures |EncodeField(dialect, f, raw)| == f.length
    ensures ValueOf(Feed(dialect, acc, f, EncodeField(dialect, f, raw)), t) ==
            if MeaningOf(dialect, f).Some? && MeaningOf(dialect, f).value.0 == t then ValueOf(raw, t)
            else ValueOf(acc, t)
  {
    match MeaningOf(dialect, f) {
      case None =>
      case Some((own, u)) =>
        PutOwn(dialect, f, raw, acc, own, u);
        if t != own {
          PutOther(acc, own, u, EncodeField(dialect, f, raw), t);
        }
    }
  }

  lemma {:induction false} EncodedValues(dialect: Dialect, fields: seq<Field>, raw: Raw, t: Target)
    requires forall i :: 0 <= i < |fields| ==> Carries(dialect, fields[i], raw)
    ensures |Encode(dialect, fields, raw)| == TotalLength(fields)
    ensures ValueOf(Decode(dialect, fields, Encode(dialect, fields, raw)), t) ==
            if Mentions(dialect, fields, t) then ValueOf(raw, t) else ValueOf(BLANK, t)
    decreases |fields|
  {
    if fields != [] {
      var init, f := fields[..|fields| - 1], fields[|fields| - 1];
      EncodedValues(dialect, init, raw, t);
      var a, b := Encode(dialect, init, raw), EncodeField(dialect, f, raw);
      EncodedFieldFeeds(dialect, f, raw, Decode(dialect, init, a), t);
      assert (a + b)[..|a|] == a && (a + b)[|a|..] == b;
      MentionsLast(dialect, fields, t);
    }
  }

  lemma MentionsLast(dialect: Dialect, fields: seq<Field>, t: Target)
    requires fields != []
    ensures var init, m := fields[..|fields| - 1], MeaningOf(dialect, fields[|fields| - 1]);
            Mentions(dialect, fields, t) <==> Mentions(dialect, init, t) || (m.Some? && m.value.0 == t)
  {
    var init := fields[..|fields| - 1];
    if i :| 0 <= i < |fields| && MeaningOf(dialect, fields[i]).Some? && MeaningOf(dialect, fields[i]).value.0 == t {
      if i < |init| { assert init[i] == fields[i]; }
    }
    if i :| 0 <= i < |init| && MeaningOf(dialect, init[i]).Some? && MeaningOf(dialect, init[i]).value.0 == t {
      assert fields[i] == init[i];
    }
  }

  lemma RawByValues(a: Raw, b: Raw)
    requires forall t :: ValueOf(a, t) == ValueOf(b, t)
    ensures a == b
  {
    assert ValueOf(a, Src) == ValueOf(b, Src) && ValueOf(a, Dst) == ValueOf(b, Dst);
    assert ValueOf(a, SrcPort) == ValueOf(b, SrcPort) && ValueOf(a, DstPort) == ValueOf(b, DstPort);
    assert ValueOf(a, Protocol) == ValueOf(b, Protocol) && ValueOf(a, Octets) == ValueOf(b, Octets);
    assert ValueOf(a, Packets) == ValueOf(b, Packets) && ValueOf(a, TcpFlags) == ValueOf(b, TcpFlags);
    assert ValueOf(a, InputIf) == ValueOf(b, InputIf) && ValueOf(a, OutputIf) == ValueOf(b, OutputIf);
    assert ValueOf(a, First) == ValueOf(b, First) && ValueOf(a, Last) == ValueOf(b, Last);
  }

  /** Decoding an encoded record gives the record back. */
  lemma RecordRoundTrip(dialect: Dialect, fields: seq<Field>, raw: Raw)
    requires Expresses(dialect, fields, raw)
    ensures |Encode(dialect, fields, raw)| == TotalLength(fields)
    ensures Decode(dialect, fields, Encode(dialect, fields, raw)) == raw
  {
    EncodedValues(dialect, fields, raw, Src);
    var back := Decode(dialect, fields, Encode(dialect, fields, raw));
    forall t ensures ValueOf(back, t) == ValueOf(raw, t) {
      EncodedValues(dialect, fields, raw, t);
    }
    RawByValues(back, raw);
  }

  function EncodeAll(dialect: Dialect, fields: seq<Field>, raws: seq<Raw>): seq<Byte> {
    if raws == [] then [] else Encode(dialect, fields, raws[0]) + EncodeAll(dialect, fields, raws[1..])
  }

  function FlowsOfAll(dialect: Dialect, exporter: string, times: Times, raws: seq<Raw>): seq<FlowRecord> {
    if raws == [] then []
    else FlowOf(dialect, exporter, times, raws[0]) + FlowsOfAll(dialect, exporter, times, raws[1..])
  }

  lemma SetFlowsHead(dialect: Dialect, fields: seq<Field>, exporter: string, times: Times, head: seq<Byte>,
                     rest: seq<Byte>)
    requires |head| == TotalLength(fields) > 0
    ensures SetFlows(dialect, fields, exporter, times, head + rest) ==
            FlowOf(dialect, exporter, times, Decode(dialect, fields, head))
                + SetFlows(dialect, fields, exporter, times, rest)
  {
    assert (head + rest)[..|head|] == head && (head + rest)[|head|..] == rest;
  }

  ghost predicate AllExpressed(dialect: Dialect, fields: seq<Field>, raws: seq<Raw>) {
    forall i :: 0 <= i < |raws| ==> Expresses(dialect, fields, raws[i])
  }

  lemma AllExpressedTail(dialect: Dialect, fields: seq<Field>, raws: seq<Raw>)
    requires AllExpressed(dialect, fields, raws) && raws != []
    ensures Expresses(dialect, fields, raws[0]) && AllExpressed(dialect, fields, raws[1..])
  {
  }

  lemma EncodeAllHead(dialect: Dialect, fields: seq<Field>, raws: seq<Raw>, padding: seq<Byte>)
    requires raws != []
    ensures EncodeAll(dialect, fields, raws) + padding ==
            Encode(dialect, fields, raws[0]) + (EncodeAll(dialect, fields, raws[1..]) + padding)
  {
    var head, rest := Encode(dialect, fields, raws[0]), EncodeAll(dialect, fields, raws[1..]);
    ConcatAssoc(head, rest, padding);
  }

  /** Decoding an encoded data set, with padding shorter than a record, gives exactly the flows of
      the records, in order. */
  lemma {:induction false} SetRoundTrip(dialect: Dialect, fields: seq<Field>, exporter: string, times: Times,
                                        raws: seq<Raw>, padding: seq<Byte>)
    requires TotalLength(fields) > 0 && |padding| < TotalLength(fields)
    requires AllExpressed(dialect, fields, raws)
    ensures SetFlows(dialect, fields, exporter, times, EncodeAll(dialect, fields, raws) + padding) ==
            FlowsOfAll(dialect, exporter, times, raws)
    decreases |raws|
  {
    if raws == [] {
      assert EncodeAll(dialect, fields, raws) + padding == padding;
    } else {
      AllExpressedTail(dialect, fields, raws);
      RecordRoundTrip(dialect, fields, raws[0]);
      SetRoundTrip(dialect, fields, exporter, times, raws[1..], padding);
      EncodeAllHead(dialect, fields, raws, padding);
      SetFlowsHead(dialect, fields, exporter, times, Encode(dialect, fields, raws[0]),
                   EncodeAll(dialect, fields, raws[1..]) + padding);
    }
  }

  // ------------------------------------------------------------------
  // The 30 days before export
  // ------------------------------------------------------------------

  predicate InWindow(seconds: int, ms: int) { 1000 * seconds - 30 * 24 * 3600 * 1000 <= ms <= 1000 * seconds }

  predicate FlowInWindow(times: Times, f: FlowRecord) {
    InWindow(times.seconds, f.start) && InWindow(times.seconds, f.end)
  }

  /** The uptime of an event, if it was sent, is at most a counter range ahead of the export's. */
  predicate WithinRange(times: Times, t: Option<nat>) { t.Some? ==> t.value <= times.sysUptime + 0x1_0000_0000 }

  /** A v9 flow is dated in the 30 days before export exactly when both its uptimes are in range. */
  lemma RawInWindow(exporter: string, times: Times, raw: Raw)
    requires times.sysUptime < ROLLOVER && raw.src.Some? && raw.dst.Some?
    ensures var flows := FlowOf(V9, exporter, times, raw);
            |flows| == 1
            && (FlowInWindow(times, flows[0]) <==> WithinRange(times, raw.first) && WithinRange(times, raw.last))
  {
    if raw.first.Some? {
      EventTimeInWindow(times.sysUptime, times.seconds, raw.first.value);
    }
    if raw.last.Some? {
      EventTimeInWindow(times.sysUptime, times.seconds, raw.last.value);
    }
  }

  /** The fields 21 and 22 of a template take at most the four bytes of an uptime counter. */
  predicate NarrowTimes(fields: seq<Field>) {
    forall i :: 0 <= i < |fields| && fields[i].id in {21, 22} ==> fields[i].length <= 4
  }

  lemma NarrowNumber(bytes: seq<Byte>)
    requires |bytes| <= 4
    ensures Be(bytes) < ROLLOVER
  {
    EncOfBe(bytes);
    PowMonotone(|bytes|, 4);
    PowSmall();
  }

  lemma FeedNarrow(raw: Raw, f: Field, bytes: seq<Byte>)
    requires |bytes| == f.length && (f.id in {21, 22} ==> f.length <= 4)
    requires (raw.first.Some? ==> raw.first.value < ROLLOVER) && (raw.last.Some? ==> raw.last.value < ROLLOVER)
    ensures var fed := Feed(V9, raw, f, bytes);
            (fed.first.Some? ==> fed.first.value < ROLLOVER) && (fed.last.Some? ==> fed.last.value < ROLLOVER)
  {
    if f.length <= 4 {
      NarrowNumber(bytes);
    }
  }

  lemma {:induction false} NarrowDecode(fields: seq<Field>, bytes: seq<Byte>)
    requires |bytes| == TotalLength(fields) && NarrowTimes(fields)
    ensures var raw := Decode(V9, fields, bytes);
            (raw.first.Some? ==> raw.first.value < ROLLOVER) && (raw.last.Some? ==> raw.last.value < ROLLOVER)
    decreases |fields|
  {
    if fields != [] {
      var init, f := fields[..|fields| - 1], fields[|fields| - 1];
      var cut := |bytes| - f.length;
      NarrowDecode(init, bytes[..cut]);
      FeedNarrow(Decode(V9, init, bytes[..cut]), f, bytes[cut..]);
    }
  }

  predicate AllInWindow(times: Times, flows: seq<FlowRecord>) {
    forall i :: 0 <= i < |flows| ==> FlowInWindow(times, flows[i])
  }

  /** Under such a template every flow of a v9 data set is dated in the 30 days before export,
      whatever bytes the set carries. */
  lemma {:induction false} SetInWindow(fields: seq<Field>, exporter: string, times: Times, payload: seq<Byte>)
    requires TotalLength(fields) > 0 && NarrowTimes(fields) && times.sysUptime < ROLLOVER
    ensures AllInWindow(times, SetFlows(V9, fields, exporter, times, payload))
    decreases |payload|
  {
    var n := TotalLength(fields);
    if |payload| >= n {
      var raw := Decode(V9, fields, payload[..n]);
      NarrowDecode(fields, payload[..n]);
      SetInWindow(fields, exporter, times, payload[n..]);
      if raw.src.Some? && raw.dst.Some? {
        RawInWindow(exporter, times, raw);
      }
    }
  }

  /** One field more of a record. */
  lemma DecodeSnoc(dialect: Dialect, fields: seq<Field>, f: Field, a: seq<Byte>, b: seq<Byte>)
    requires |a| == TotalLength(fields) && |b| == f.length
    ensures TotalLength(fields + [f]) == |a + b|
    ensures Decode(dialect, fields + [f], a + b) == Feed(dialect, Decode(dialect, fields, a), f, b)
  {
    assert (fields + [f])[..|fields|] == fields;
    assert (a + b)[..|a|] == a && (a + b)[|a|..] == b;
  }

  /** Eight bytes that are read as 2^33. */
  const WIDE_TIME: seq<Byte> := [0, 0, 0, 2, 0, 0, 0, 0]

  lemma BeNothing()
    ensures Be([]) == 0
  {
  }

  lemma WideTime()
    ensures Be(WIDE_TIME) == 2 * ROLLOVER
  {
    var w := WIDE_TIME;
    BeNothing();
    hide Be;
    BeLast(w, 0, 1);
    BeLast(w, 0, 2);
    BeLast(w, 0, 3);
    BeLast(w, 0, 4);
    BeLast(w, 0, 5);
    BeLast(w, 0, 6);
    BeLast(w, 0, 7);
    BeLast(w, 0, 8);
    assert w[0..8] == w && w[0..0] == [];
  }

  const ADDRESS_PAIR := [Field(8, 4, None)] + [Field(12, 4, None)]

  const WIDE_TEMPLATE := ADDRESS_PAIR + [Field(22, 8, None)]

  lemma FirstDecodes(src: IpBytes)
    requires |src| == 4
    ensures TotalLength([Field(8, 4, None)]) == 4
    ensures Decode(V9, [Field(8, 4, None)], src) == BLANK.(src := Some(src))
  {
    var f := Field(8, 4, None);
    DecodeSnoc(V9, [], f, [], src);
    assert [] + [f] == [f] && [] + src == src;
  }

  lemma PairDecodes(src: IpBytes, dst: IpBytes)
    requires |src| == |dst| == 4
    ensures TotalLength(ADDRESS_PAIR) == 8
    ensures Decode(V9, ADDRESS_PAIR, src + dst) == BLANK.(src := Some(src), dst := Some(dst))
  {
    FirstDecodes(src);
    DecodeSnoc(V9, [Field(8, 4, None)], Field(12, 4, None), src, dst);
  }

  lemma FeedsTime(raw: Raw, bytes: seq<Byte>)
    ensures Feed(V9, raw, Field(22, 8, None), bytes) == raw.(first := Some(Be(bytes)))
  {
  }

  lemma WideDecodes(src: IpBytes, dst: IpBytes)
    requires |src| == |dst| == 4
    ensures TotalLength(WIDE_TEMPLATE) == 16
    ensures Decode(V9, WIDE_TEMPLATE, src + dst + WIDE_TIME) ==
            BLANK.(src := Some(src), dst := Some(dst), first := Some(2 * ROLLOVER))
  {
    PairDecodes(src, dst);
    DecodeSnoc(V9, ADDRESS_PAIR, Field(22, 8, None), src + dst, WIDE_TIME);
    FeedsTime(BLANK.(src := Some(src), dst := Some(dst)), WIDE_TIME);
    WideTime();
  }

  /** A template with an eight-byte start field lets a flow be dated after its export. */
  lemma WideStartLeavesWindow(exporter: string)
    ensures TotalLength(WIDE_TEMPLATE) > 0
    ensures var payload := [10, 0, 0, 1] + [10, 0, 0, 2] + WIDE_TIME;
            var flows := SetFlows(V9, WIDE_TEMPLATE, exporter, Times(0, 1000), payload);
            |flows| == 1 && flows[0].start > 1000 * 1000 && !AllInWindow(Times(0, 1000), flows)
  {
    var payload := [10, 0, 0, 1] + [10, 0, 0, 2] + WIDE_TIME;
    WideDecodes([10, 0, 0, 1], [10, 0, 0, 2]);
    SetFlowsHead(V9, WIDE_TEMPLATE, exporter, Times(0, 1000), payload, []);
    assert payload + [] == payload;
    assert SetFlows(V9, WIDE_TEMPLATE, exporter, Times(0, 1000), []) == [];
    RawInWindow(exporter, Times(0, 1000), Decode(V9, WIDE_TEMPLATE, payload));
  }

  // ------------------------------------------------------------------
  // How flows are dated
  // ------------------------------------------------------------------

  /** A time that was not sent is dated like an event at export. */
  function AgeOf(times: Times, t: Option<nat>): int {
    match t
    case None => 0
    case Some(ms) => Age(times.sysUptime, ms)
  }

  /** A v9 flow starts no later than it ends exactly when the ages of its two times are in order. */
  lemma RawStartBeforeEnd(exporter: string, times: Times, raw: Raw)
    requires raw.src.Some? && raw.dst.Some?
    ensures var flows := FlowOf(V9, exporter, times, raw);
            |flows| == 1
            && (flows[0].start <= flows[0].end <==> AgesInOrder(AgeOf(times, raw.first), AgeOf(times, raw.last)))
  {
    var first, last := raw.first.GetOr(times.sysUptime), raw.last.GetOr(times.sysUptime);
    AgesOrderTimes(times.sysUptime, times.seconds, first, last);
  }

  /** The counters a router sends at `clock` for packets that are `first` and `last` old. */
  predicate SentAges(raw: Raw, clock: nat, first: nat, last: nat) {
    && first <= clock && last <= clock
    && raw.first == Some((clock - first) % 0x1_0000_0000) && raw.last == Some((clock - last) % 0x1_0000_0000)
  }

  /** A v9 flow gets the true time of each of its packets exactly when that packet is at most 30 days
      old, whatever the counters did in between. */
  lemma RawDatedExactly(exporter: string, seconds: nat, raw: Raw, clock: nat, first: nat, last: nat)
    requires raw.src.Some? && raw.dst.Some? && SentAges(raw, clock, first, last)
    ensures var flows := FlowOf(V9, exporter, Times(clock % 0x1_0000_0000, seconds), raw);
            |flows| == 1
            && (flows[0].start == 1000 * seconds - first <==> first <= 30 * 24 * 3600 * 1000)
            && (flows[0].end == 1000 * seconds - last <==> last <= 30 * 24 * 3600 * 1000)
  {
    EventTimeExact(clock, seconds, first);
    EventTimeExact(clock, seconds, last);
  }

  // ------------------------------------------------------------------
  // Enterprise fields
  // ------------------------------------------------------------------

  /** The fields without the enterprise-numbered ones, and the record without their bytes. */
  function Standard(fields: seq<Field>): seq<Field> {
    if fields == [] then []
    else
      var f := fields[|fields| - 1];
      Standard(fields[..|fields| - 1]) + if f.enterprise.Some? then [] else [f]
  }

  function StandardBytes(fields: seq<Field>, bytes: seq<Byte>): (out: seq<Byte>)
    requires |bytes| == TotalLength(fields)
    ensures |out| == TotalLength(Standard(fields))
    decreases |fields|
  {
    if fields == [] then []
    else
      var init, f := fields[..|fields| - 1], fields[|fields| - 1];
      var cut := |bytes| - f.length;
      assert f.enterprise.None? ==> Standard(fields)[..|Standard(fields)| - 1] == Standard(init);
      assert f.enterprise.Some? ==> Standard(fields) == Standard(init);
      StandardBytes(init, bytes[..cut]) + if f.enterprise.Some? then [] else bytes[cut..]
  }

  /** Enterprise-numbered fields, wherever they stand in the template, change no decoded record. */
  lemma {:induction false} EnterpriseFieldsIgnored(dialect: Dialect, fields: seq<Field>, bytes: seq<Byte>)
    requires |bytes| == TotalLength(fields)
    ensures Decode(dialect, fields, bytes) == Decode(dialect, Standard(fields), StandardBytes(fields, bytes))
    decreases |fields|
  {
    if fields != [] {
      var init, f := fields[..|fields| - 1], fields[|fields| - 1];
      var cut := |bytes| - f.length;
      EnterpriseFieldsIgnored(dialect, init, bytes[..cut]);
      var s := Standard(fields);
      if f.enterprise.Some? {
        assert s == Standard(init);
        assert StandardBytes(fields, bytes) == StandardBytes(init, bytes[..cut]);
      } else {
        assert s[..|s| - 1] == Standard(init);
        var b := StandardBytes(fields, bytes);
        assert b[..|b| - f.length] == StandardBytes(init, bytes[..cut]);
        assert b[|b| - f.length..] == bytes[cut..];
      }
    }
  }

  function StandardPayload(fields: seq<Field>, payload: seq<Byte>): seq<Byte>
    requires TotalLength(fields) > 0
    decreases |payload|
  {
    var n := TotalLength(fields);
    if |payload| < n then [] else StandardBytes(fields, payload[..n]) + StandardPayload(fields, payload[n..])
  }

  /** Hence they change no decoded flow. */
  lemma {:induction false} EnterpriseSetsIgnored(dialect: Dialect, fields: seq<Field>, exporter: string, times: Times,
          payload: seq<Byte>)
    requires TotalLength(fields) > 0 && TotalLength(Standard(fields)) > 0
    ensures SetFlows(dialect, fields, exporter, times, payload) ==
            SetFlows(dialect, Standard(fields), exporter, times, StandardPayload(fields, payload))
    decreases |payload|
  {
    var n, m := TotalLength(fields), TotalLength(Standard(fields));
    if |payload| >= n {
      EnterpriseFieldsIgnored(dialect, fields, payload[..n]);
      EnterpriseSetsIgnored(dialect, fields, exporter, times, payload[n..]);
      var a, b := StandardBytes(fields, payload[..n]), StandardPayload(fields, payload[n..]);
      assert (a + b)[..m] == a && (a + b)[m..] == b;
    }
  }
}
