// What the parsers make of given bytes, in the numbers of the formats: field numbers, set numbers,
// headers and ages (monitoring/flow/v9_parser.py, ipfix_parser.py).

module FlowFormats {
  import opened Options
  import opened Wire
  import opened FlowRecords
  import opened FlowSets
  import opened FlowStreams
  import opened FlowWire

  // ------------------------------------------------------------------
  // Fields
  // ------------------------------------------------------------------

  /** The standard fields that set one value of a record, by number and, for addresses, length. */
  predicate Sets(dialect: Dialect, f: Field, t: Target) {
    && f.enterprise == None
    && match t
       case Src => (f.id == 8 && f.length == 4) || (f.id == 27 && f.length == 16)
       case Dst => (f.id == 12 && f.length == 4) || (f.id == 28 && f.length == 16)
       case SrcPort => f.id == 7
       case DstPort => f.id == 11
       case Protocol => f.id == 4
       case Octets => f.id == 1
       case Packets => f.id == 2
       case TcpFlags => f.id == 6
       case InputIf => f.id == 10
       case OutputIf => f.id == 14
       case First => if dialect.V9? then f.id == 22 else f.id == 150 || f.id == 152
       case Last => if dialect.V9? then f.id == 21 else f.id == 151 || f.id == 153
  }

  /** The value a field's bytes stand for: an address, a big-endian number, or a time, of which the
      IPFIX fields 150 and 151 count seconds. */
  predicate Reads(f: Field, bytes: seq<Byte>, t: Target, raw: Raw) {
    match t
    case Src => raw.src == Some(bytes)
    case Dst => raw.dst == Some(bytes)
    case SrcPort => raw.srcPort == Be(bytes)
    case DstPort => raw.dstPort == Be(bytes)
    case Protocol => raw.protocol == Be(bytes)
    case Octets => raw.octets == Be(bytes)
    case Packets => raw.packets == Be(bytes)
    case TcpFlags => raw.tcpFlags == Be(bytes)
    case InputIf => raw.inputIf == Be(bytes)
    case OutputIf => raw.outputIf == Be(bytes)
    case First => raw.first == Some(if f.id == 150 then 1000 * Be(bytes) else Be(bytes))
    case Last => raw.last == Some(if f.id == 151 then 1000 * Be(bytes) else Be(bytes))
  }

  /** The value of a record that no field sets. */
  predicate Unset(t: Target, raw: Raw) {
    match t
    case Src => raw.src == None
    case Dst => raw.dst == None
    case SrcPort => raw.srcPort == 0
    case DstPort => raw.dstPort == 0
    case Protocol => raw.protocol == 0
    case Octets => raw.octets == 0
    case Packets => raw.packets == 0
    case TcpFlags => raw.tcpFlags == 0
    case InputIf => raw.inputIf == 0
    case OutputIf => raw.outputIf == 0
    case First => raw.first == None
    case Last => raw.last == None
  }

  lemma FeedSets(dialect: Dialect, raw: Raw, f: Field, bytes: seq<Byte>, t: Target)
    requires Sets(dialect, f, t)
    ensures Reads(f, bytes, t, Feed(dialect, raw, f, bytes))
  {
  }

  lemma SetsIsMeaning(dialect: Dialect, f: Field, t: Target)
    ensures Sets(dialect, f, t) <==> MeaningOf(dialect, f).Some? && MeaningOf(dialect, f).value.0 == t
  {
  }

  lemma PutLeaves(raw: Raw, own: Target, u: Unit, bytes: seq<Byte>, t: Target, g: Field, b: seq<Byte>)
    requires own != t
    ensures Reads(g, b, t, raw) ==> Reads(g, b, t, Put(raw, own, u, bytes))
    ensures Unset(t, raw) ==> Unset(t, Put(raw, own, u, bytes))
  {
  }

  lemma FeedLeaves(dialect: Dialect, raw: Raw, f: Field, bytes: seq<Byte>, t: Target, g: Field, b: seq<Byte>)
    requires !Sets(dialect, f, t)
    ensures Reads(g, b, t, raw) ==> Reads(g, b, t, Feed(dialect, raw, f, bytes))
    ensures Unset(t, raw) ==> Unset(t, Feed(dialect, raw, f, bytes))
  {
    hide MeaningOf, Sets, Reads, Unset, Put;
    SetsIsMeaning(dialect, f, t);
    match MeaningOf(dialect, f) {
      case None =>
      case Some((own, u)) => PutLeaves(raw, own, u, bytes, t, g, b);
    }
  }

  /** Every value of a record is read from the bytes of the last field that sets it, counted from the
      lengths of the fields before. */
  lemma {:induction false} LastFieldSets(dialect: Dialect, fields: seq<Field>, bytes: seq<Byte>, t: Target, i: nat)
    requires |bytes| == TotalLength(fields) && i < |fields| && Sets(dialect, fields[i], t)
    requires forall j :: i < j < |fields| ==> !Sets(dialect, fields[j], t)
    ensures var start := TotalLength(fields[..i]);
            && start + fields[i].length <= |bytes|
            && Reads(fields[i], bytes[start..start + fields[i].length], t, Decode(dialect, fields, bytes))
    decreases |fields|
  {
    hide Sets, Reads, Feed;
    var n := |fields| - 1;
    var cut := |bytes| - fields[n].length;
    var before := Decode(dialect, fields[..n], bytes[..cut]);
    if i == n {
      FeedSets(dialect, before, fields[n], bytes[cut..], t);
      assert TotalLength(fields[..n]) == cut && bytes[cut..cut + fields[n].length] == bytes[cut..];
    } else {
      LastFieldSets(dialect, fields[..n], bytes[..cut], t, i);
      var start := TotalLength(fields[..i]);
      assert fields[..n][..i] == fields[..i];
      assert bytes[..cut][start..start + fields[i].length] == bytes[start..start + fields[i].length];
      FeedLeaves(dialect, before, fields[n], bytes[cut..], t, fields[i], bytes[start..start + fields[i].length]);
    }
  }

  /** A value that no field sets is missing or zero. */
  lemma {:induction false} NoFieldSets(dialect: Dialect, fields: seq<Field>, bytes: seq<Byte>, t: Target)
    requires |bytes| == TotalLength(fields) && forall j :: 0 <= j < |fields| ==> !Sets(dialect, fields[j], t)
    ensures Unset(t, Decode(dialect, fields, bytes))
    decreases |fields|
  {
    if fields != [] {
      hide Sets, Feed, Unset;
      var n := |fields| - 1;
      var cut := |bytes| - fields[n].length;
      NoFieldSets(dialect, fields[..n], bytes[..cut], t);
      FeedLeaves(dialect, Decode(dialect, fields[..n], bytes[..cut]), fields[n], bytes[cut..], t, fields[n], []);
    }
  }

  /** A record with both addresses is one flow with the record's values; times that were not sent are
      the time of export, and IPFIX times stand as they are. */
  lemma FlowCarriesRecord(dialect: Dialect, exporter: string, times: Times, raw: Raw)
    ensures var flows := FlowOf(dialect, exporter, times, raw);
            && |flows| == (if raw.src.Some? && raw.dst.Some? then 1 else 0)
            && forall f :: f in flows ==>
                 && f.exporter == exporter && Some(f.src) == raw.src && Some(f.dst) == raw.dst
                 && f.srcPort == raw.srcPort && f.dstPort == raw.dstPort && f.protocol == raw.protocol
                 && f.octets == raw.octets && f.packets == raw.packets && f.tcpFlags == raw.tcpFlags
                 && f.inputIf == raw.inputIf && f.outputIf == raw.outputIf
                 && (raw.first.None? ==> f.start == 1000 * times.seconds)
                 && (raw.last.None? ==> f.end == 1000 * times.seconds)
                 && (dialect.Ipfix? && raw.first.Some? ==> f.start == raw.first.value)
                 && (dialect.Ipfix? && raw.last.Some? ==> f.end == raw.last.value)
  {
  }

  // ------------------------------------------------------------------
  // Headers
  // ------------------------------------------------------------------

  /** A NetFlow v9 packet has version 9, a count and 20 bytes of header; an IPFIX message has version
      10, 16 bytes of header and a length within the datagram. */
  predicate Accepted(dialect: Dialect, data: seq<Byte>) {
    if dialect.V9? then |data| >= 20 && U16(data, 0) == 9 && U16(data, 2) > 0
    else |data| >= 16 && U16(data, 0) == 10 && U16(data, 2) <= |data|
  }

  /** Other datagrams change nothing and yield nothing. */
  lemma OthersIgnored(cfg: Config, cache: Cache, exporter: string, now: int, data: seq<Byte>)
    requires !Accepted(cfg.dialect, data)
    ensures Parsed(cfg, cache, exporter, now, data) == Outcome(cache, [])
  {
  }

  /** An accepted one is walked set by set behind its header, under the domain and the times it names. */
  lemma AcceptedWalked(cfg: Config, cache: Cache, exporter: string, now: int, data: seq<Byte>)
    requires Accepted(cfg.dialect, data)
    ensures Parsed(cfg, cache, exporter, now, data) ==
            if cfg.dialect.V9? then
              Deliver(cfg, cache, Scope(exporter, U32(data, 16)),
                      Packet(Times(U32(data, 4), U32(data, 8)), now, CutSets(data, 20, |data|)))
            else
              Deliver(cfg, cache, Scope(exporter, U32(data, 12)),
                      Packet(Times(0, U32(data, 4)), now, CutSets(data, 16, U16(data, 2))))
  {
  }

  // ------------------------------------------------------------------
  // Sets
  // ------------------------------------------------------------------

  /** Set 0 of v9 and set 2 of IPFIX carry templates; of the other sets below 256, among them the options
      templates in 1 and 3, none changes the cache or yields a flow. */
  lemma ReservedSetsIgnored(cfg: Config, cache: Cache, scope: Scope, times: Times, now: int, s: RawSet)
    requires s.id < 256 && s.id != if cfg.dialect.V9? then 0 else 2
    ensures SetStep(cfg, cache, scope, times, now, s) == Outcome(cache, [])
  {
  }

  lemma TemplateSetsInstall(cfg: Config, cache: Cache, scope: Scope, times: Times, now: int, payload: seq<Byte>)
    ensures SetStep(cfg, cache, scope, times, now, RawSet(if cfg.dialect.V9? then 0 else 2, payload)) ==
            InstallAll(cfg, cache, scope, now, ReadTemplates(cfg.dialect, payload, 0))
  {
  }

  /** The template a data set can use: cached for its scope, at most its time to live old when the packet
      comes, and with at least one byte of record. */
  predicate Usable(cfg: Config, cache: Cache, scope: Scope, id: nat, now: int) {
    && (scope, id) in cache.templates && now - cache.templates[(scope, id)].created <= cfg.templateTtl
    && TotalLength(cache.templates[(scope, id)].fields) > 0
  }

  /** A data set is decoded exactly under a usable template, and leaves the buffers alone; otherwise it
      yields nothing and waits as the latest of at most a hundred sets. */
  lemma DataSetFate(cfg: Config, cache: Cache, scope: Scope, a: Arrival)
    requires a.id >= 256
    ensures var end, buffer := Deliver(cfg, cache, scope, DataPacket(a)), Buffer(cache, scope);
            if Usable(cfg, cache, scope, a.id, a.now) then
              && end.flows == SetFlows(cfg.dialect, cache.templates[(scope, a.id)].fields, scope.exporter, a.times,
                                       a.payload)
              && end.cache.orphans == cache.orphans
            else
              && end.flows == []
              && var all := buffer + [Orphan(a.now, a.id, a.payload, a.times)];
                 Buffer(end.cache, scope) == if |all| > 100 then all[|all| - 100..] else all
  {
    DeliverData(cfg, cache, scope, a);
  }

  /** A packet of one scope, an exporter with an observation domain, leaves the buffers of the others and
      their live templates alone. */
  lemma ScopesApart(cfg: Config, cache: Cache, scope: Scope, p: Packet, other: Scope, id: nat)
    requires other != scope
    ensures var end := Deliver(cfg, cache, scope, p).cache;
            && Buffer(end, other) == Buffer(cache, other)
            && ((other, id) in end.templates <==>
                (other, id) in cache.templates && p.now - cache.templates[(other, id)].created <= cfg.templateTtl)
            && ((other, id) in end.templates ==> end.templates[(other, id)] == cache.templates[(other, id)])
  {
    WalkApart(cfg, Cleaned(cfg, cache, p.now), scope, p.times, p.now, p.sets, other, id);
  }

  predicate SameFor(a: Cache, b: Cache, other: Scope, id: nat) {
    && Buffer(a, other) == Buffer(b, other)
    && ((other, id) in a.templates <==> (other, id) in b.templates)
    && ((other, id) in a.templates ==> a.templates[(other, id)] == b.templates[(other, id)])
  }

  lemma {:induction false} InstallAllApart(cfg: Config, cache: Cache, scope: Scope, now: int,
                                           records: seq<(nat, seq<Field>)>, other: Scope, id: nat)
    requires other != scope
    ensures SameFor(InstallAll(cfg, cache, scope, now, records).cache, cache, other, id)
    decreases |records|
  {
    if records != [] {
      InstallAllApart(cfg, cache, scope, now, records[..|records| - 1], other, id);
    }
  }

  lemma {:induction false} WalkApart(cfg: Config, cache: Cache, scope: Scope, times: Times, now: int,
                                     sets: seq<RawSet>, other: Scope, id: nat)
    requires other != scope
    ensures SameFor(Walk(cfg, cache, scope, times, now, sets).cache, cache, other, id)
    decreases |sets|
  {
    if sets != [] {
      var init, s := sets[..|sets| - 1], sets[|sets| - 1];
      WalkApart(cfg, cache, scope, times, now, init, other, id);
      var before := Walk(cfg, cache, scope, times, now, init).cache;
      InstallAllApart(cfg, before, scope, now, ReadTemplates(cfg.dialect, s.payload, 0), other, id);
    }
  }

  // ------------------------------------------------------------------
  // Template records
  // ------------------------------------------------------------------

  lemma EncOfU16(p: seq<Byte>, i: nat)
    requires i + 2 <= |p|
    ensures At(p, i, BeEnc(U16(p, i), 2)) && U16(p, i) < 0x10000
  {
    U16IsBe(p, i);
    EncOfBe(p[i..i + 2]);
  }

  lemma EncOfU32(p: seq<Byte>, i: nat)
    requires i + 4 <= |p|
    ensures At(p, i, BeEnc(U32(p, i), 4))
  {
    U32IsBe(p, i);
    EncOfBe(p[i..i + 4]);
  }

  lemma ReadFieldExact(dialect: Dialect, p: seq<Byte>, i: nat)
    requires i + 4 <= |p|
    ensures var r := ReadField(dialect, p, i);
            r.0.Some? ==> At(p, i, FieldBytes(r.0.value)) && r.1 == i + |FieldBytes(r.0.value)|
  {
    var r := ReadField(dialect, p, i);
    EncOfU16(p, i);
    EncOfU16(p, i + 2);
    AtParts(p, i, BeEnc(U16(p, i), 2), BeEnc(U16(p, i + 2), 2));
    if r.0.Some? && r.0.value.enterprise.Some? {
      EncOfU32(p, i + 4);
      AtParts(p, i, BeEnc(U16(p, i), 2) + BeEnc(U16(p, i + 2), 2), BeEnc(U32(p, i + 4), 4));
    }
  }

  lemma {:induction false} ReadFieldsExact(dialect: Dialect, p: seq<Byte>, i: nat, count: nat)
    requires i <= |p|
    ensures At(p, i, FieldsBytes(ReadFields(dialect, p, i, count).0))
    ensures var r := ReadFields(dialect, p, i, count); |r.0| == count ==> r.1 == i + |FieldsBytes(r.0)|
    decreases count
  {
    hide ReadField, FieldBytes;
    if count > 0 && i + 4 <= |p| {
      ReadFieldExact(dialect, p, i);
      var first := ReadField(dialect, p, i);
      if first.0.Some? {
        ReadFieldsExact(dialect, p, first.1, count - 1);
        FieldsCons(first.0.value, ReadFields(dialect, p, first.1, count - 1).0, p, i);
      }
    }
  }

  lemma FieldsCons(f: Field, rest: seq<Field>, p: seq<Byte>, i: nat)
    requires At(p, i, FieldBytes(f)) && At(p, i + |FieldBytes(f)|, FieldsBytes(rest))
    ensures At(p, i, FieldsBytes([f] + rest)) && |FieldsBytes([f] + rest)| == |FieldBytes(f)| + |FieldsBytes(rest)|
  {
    assert ([f] + rest)[1..] == rest;
    AtParts(p, i, FieldBytes(f), FieldsBytes(rest));
  }

  /** Conversely to the round trip, whatever bytes a template set holds: every record taken from it
      stands in it whole, number, count and all its fields. */
  lemma {:induction false} OnlyWholeTemplates(dialect: Dialect, p: seq<Byte>, i: nat, k: nat) returns (at: nat)
    requires i <= |p| && k < |ReadTemplates(dialect, p, i)|
    ensures var r := ReadTemplates(dialect, p, i)[k]; r.0 >= 256 && i <= at && At(p, at, RecordBytes(r))
    decreases |p| - i
  {
    hide ReadFields, FieldsBytes, BeEnc;
    var id, count := U16(p, i), U16(p, i + 2);
    var r := ReadFields(dialect, p, i + 4, count);
    if |r.0| == count && k == 0 {
      at := i;
      EncOfU16(p, i);
      EncOfU16(p, i + 2);
      ReadFieldsExact(dialect, p, i + 4, count);
      AtParts(p, i, BeEnc(id, 2), BeEnc(count, 2));
      AtParts(p, i, BeEnc(id, 2) + BeEnc(count, 2), FieldsBytes(r.0));
    } else {
      at := OnlyWholeTemplates(dialect, p, r.1, if |r.0| == count then k - 1 else k);
    }
  }
}
