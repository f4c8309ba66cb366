// Templates, sets and packets as bytes: what is written is read back
// (monitoring/flow/v9_parser.py, ipfix_parser.py).

module FlowWire {
  import opened Collections
  import opened Options
  import opened Wire
  import opened FlowRecords
  import opened FlowSets
  import opened FlowStreams

  // ------------------------------------------------------------------
  // Template records
  // ------------------------------------------------------------------

  /** A field specification fits the wire; only IPFIX writes enterprise numbers, and marks them in
      the top bit of the field number. */
  predicate FieldFits(dialect: Dialect, f: Field) {
    && f.length < 0x10000
    && match f.enterprise
       case None => f.id < if dialect.V9? then 0x10000 else 0x8000
       case Some(e) => dialect.Ipfix? && f.id < 0x8000 && e < 0x1_0000_0000
  }

  function FieldBytes(f: Field): (s: seq<Byte>)
    ensures |s| == if f.enterprise.Some? then 8 else 4
  {
    match f.enterprise
    case None => BeEnc(f.id, 2) + BeEnc(f.length, 2)
    case Some(e) => BeEnc(f.id + 0x8000, 2) + BeEnc(f.length, 2) + BeEnc(e, 4)
  }

  function FieldsBytes(fields: seq<Field>): seq<Byte> {
    if fields == [] then [] else FieldBytes(fields[0]) + FieldsBytes(fields[1..])
  }

  predicate FieldsFit(dialect: Dialect, fields: seq<Field>) {
    forall i :: 0 <= i < |fields| ==> FieldFits(dialect, fields[i])
  }

  predicate RecordFits(dialect: Dialect, r: (nat, seq<Field>)) {
    256 <= r.0 < 0x10000 && |r.1| < 0x10000 && FieldsFit(dialect, r.1)
  }

  predicate RecordsFit(dialect: Dialect, records: seq<(nat, seq<Field>)>) {
    forall i :: 0 <= i < |records| ==> RecordFits(dialect, records[i])
  }

  function RecordBytes(r: (nat, seq<Field>)): seq<Byte> {
    BeEnc(r.0, 2) + BeEnc(|r.1|, 2) + FieldsBytes(r.1)
  }

  function RecordsBytes(records: seq<(nat, seq<Field>)>): seq<Byte> {
    if records == [] then [] else RecordBytes(records[0]) + RecordsBytes(records[1..])
  }

  /** Reading of template records stops: too few bytes for a record, or a number no data set may
      have, such as zero padding. */
  predicate NoRecordAt(p: seq<Byte>, i: nat) { i + 4 > |p| || U16(p, i) < 256 }

  lemma ReadsField(dialect: Dialect, f: Field, p: seq<Byte>, i: nat)
    requires FieldFits(dialect, f) && At(p, i, FieldBytes(f))
    ensures ReadField(dialect, p, i) == (Some(f), i + |FieldBytes(f)|)
  {
    var id := if f.enterprise.Some? then f.id + 0x8000 else f.id;
    if f.enterprise.Some? {
      AtParts(p, i, BeEnc(id, 2) + BeEnc(f.length, 2), BeEnc(f.enterprise.value, 4));
      U32At(p, i + 4, f.enterprise.value);
    }
    AtParts(p, i, BeEnc(id, 2), BeEnc(f.length, 2));
    U16At(p, i, id);
    U16At(p, i + 2, f.length);
  }

  lemma FieldsAt(fields: seq<Field>, p: seq<Byte>, i: nat)
    requires fields != [] && At(p, i, FieldsBytes(fields))
    ensures var next := i + |FieldBytes(fields[0])|;
            At(p, i, FieldBytes(fields[0])) && At(p, next, FieldsBytes(fields[1..]))
                && i + |FieldsBytes(fields)| == next + |FieldsBytes(fields[1..])|
  {
    AtParts(p, i, FieldBytes(fields[0]), FieldsBytes(fields[1..]));
  }

  lemma ReadsOneField(dialect: Dialect, f: Field, p: seq<Byte>, i: nat, count: nat)
    requires FieldFits(dialect, f) && At(p, i, FieldBytes(f)) && count > 0
    ensures var rest := ReadFields(dialect, p, i + |FieldBytes(f)|, count - 1);
            ReadFields(dialect, p, i, count) == ([f] + rest.0, rest.1)
  {
    ReadsField(dialect, f, p, i);
  }

  lemma FieldsStep(dialect: Dialect, fields: seq<Field>, p: seq<Byte>, i: nat) returns (next: nat)
    requires fields != [] && FieldsFit(dialect, fields) && At(p, i, FieldsBytes(fields))
    ensures FieldsFit(dialect, fields[1..]) && At(p, next, FieldsBytes(fields[1..]))
    ensures ReadFields(dialect, p, next, |fields[1..]|) == (fields[1..], next + |FieldsBytes(fields[1..])|)
            ==> ReadFields(dialect, p, i, |fields|) == (fields, i + |FieldsBytes(fields)|)
  {
    hide ReadFields, FieldBytes, FieldFits, BeEnc;
    next := i + |FieldBytes(fields[0])|;
    FieldsAt(fields, p, i);
    ReadsOneField(dialect, fields[0], p, i, |fields|);
    HeadAndTail(fields);
  }

  lemma {:induction false} ReadsFields(dialect: Dialect, fields: seq<Field>, p: seq<Byte>, i: nat)
    requires FieldsFit(dialect, fields) && At(p, i, FieldsBytes(fields))
    ensures ReadFields(dialect, p, i, |fields|) == (fields, i + |FieldsBytes(fields)|)
    decreases |fields|
  {
    hide ReadField, FieldBytes, FieldFits, At;
    if fields != [] {
      var next := FieldsStep(dialect, fields, p, i);
      ReadsFields(dialect, fields[1..], p, next);
    }
  }

  /** Two 16-bit numbers in front of a body. */
  lemma ReadsHead(n: nat, m: nat, body: seq<Byte>, p: seq<Byte>, i: nat)
    requires n < 0x10000 && m < 0x10000 && At(p, i, BeEnc(n, 2) + BeEnc(m, 2) + body)
    ensures i + 4 + |body| <= |p| && U16(p, i) == n && U16(p, i + 2) == m && At(p, i + 4, body)
  {
    AtParts(p, i, BeEnc(n, 2) + BeEnc(m, 2), body);
    AtParts(p, i, BeEnc(n, 2), BeEnc(m, 2));
    U16At(p, i, n);
    U16At(p, i + 2, m);
  }

  lemma ReadTemplatesStep(dialect: Dialect, p: seq<Byte>, i: nat, id: nat, fields: seq<Field>, end: nat)
    requires i + 4 <= |p| && U16(p, i) == id >= 256 && U16(p, i + 2) == |fields|
    requires ReadFields(dialect, p, i + 4, |fields|) == (fields, end)
    ensures ReadTemplates(dialect, p, i) == [(id, fields)] + ReadTemplates(dialect, p, end)
  {
  }

  lemma ReadsRecord(dialect: Dialect, r: (nat, seq<Field>), p: seq<Byte>, i: nat)
    requires RecordFits(dialect, r) && At(p, i, RecordBytes(r))
    ensures ReadTemplates(dialect, p, i) == [r] + ReadTemplates(dialect, p, i + |RecordBytes(r)|)
  {
    ReadsHead(r.0, |r.1|, FieldsBytes(r.1), p, i);
    ReadsFields(dialect, r.1, p, i + 4);
    ReadTemplatesStep(dialect, p, i, r.0, r.1, i + |RecordBytes(r)|);
    assert r == (r.0, r.1);
  }

  lemma RecordsAt(dialect: Dialect, records: seq<(nat, seq<Field>)>, p: seq<Byte>, i: nat)
    returns (rest: seq<(nat, seq<Field>)>, next: nat)
    requires records != [] && RecordsFit(dialect, records) && At(p, i, RecordsBytes(records))
    ensures records == [records[0]] + rest && RecordFits(dialect, records[0]) && RecordsFit(dialect, rest)
    ensures At(p, i, RecordBytes(records[0])) && next == i + |RecordBytes(records[0])|
    ensures At(p, next, RecordsBytes(rest)) && i + |RecordsBytes(records)| == next + |RecordsBytes(rest)|
  {
    rest, next := records[1..], i + |RecordBytes(records[0])|;
    AtParts(p, i, RecordBytes(records[0]), RecordsBytes(rest));
  }

  lemma TemplatesStep(dialect: Dialect, r: (nat, seq<Field>), rest: seq<(nat, seq<Field>)>,
                      records: seq<(nat, seq<Field>)>, p: seq<Byte>, i: nat, next: nat)
    requires RecordFits(dialect, r) && At(p, i, RecordBytes(r)) && next == i + |RecordBytes(r)|
    requires records == [r] + rest && ReadTemplates(dialect, p, next) == rest
    ensures ReadTemplates(dialect, p, i) == records
  {
    ReadsRecord(dialect, r, p, i);
  }

  /** Template records are read back in order, wherever they stand and whatever padding follows. */
  lemma {:induction false} TemplatesRoundTrip(dialect: Dialect, records: seq<(nat, seq<Field>)>, p: seq<Byte>, i: nat)
    requires RecordsFit(dialect, records) && At(p, i, RecordsBytes(records))
    requires NoRecordAt(p, i + |RecordsBytes(records)|)
    ensures ReadTemplates(dialect, p, i) == records
    decreases |records|
  {
    hide RecordFits, RecordBytes, At;
    if records != [] {
      var rest, next := RecordsAt(dialect, records, p, i);
      TemplatesRoundTrip(dialect, rest, p, next);
      TemplatesStep(dialect, records[0], rest, records, p, i, next);
    }
  }

  // ------------------------------------------------------------------
  // Sets
  // ------------------------------------------------------------------

  predicate SetFits(s: RawSet) { s.id < 0x10000 && 4 + |s.payload| < 0x10000 }

  predicate SetsFit(sets: seq<RawSet>) { forall i :: 0 <= i < |sets| ==> SetFits(sets[i]) }

  function SetBytes(s: RawSet): seq<Byte> {
    BeEnc(s.id, 2) + BeEnc(4 + |s.payload|, 2) + s.payload
  }

  function SetsBytes(sets: seq<RawSet>): seq<Byte> {
    if sets == [] then [] else SetBytes(sets[0]) + SetsBytes(sets[1..])
  }

  /** The walk stops: no room for a header, or a length below the header's or beyond the limit. */
  predicate NoSetAt(data: seq<Byte>, i: nat, limit: nat)
    requires limit <= |data|
  {
    i + 4 > limit || U16(data, i + 2) < 4 || i + U16(data, i + 2) > limit
  }

  lemma CutsHead(s: RawSet, data: seq<Byte>, i: nat, limit: nat)
    requires SetFits(s) && At(data, i, SetBytes(s)) && i + |SetBytes(s)| <= limit <= |data|
    ensures CutSets(data, i, limit) == [s] + CutSets(data, i + |SetBytes(s)|, limit)
  {
    ReadsHead(s.id, 4 + |s.payload|, s.payload, data, i);
    assert data[i + 4..i + |SetBytes(s)|] == s.payload;
  }

  lemma SetsAt(sets: seq<RawSet>, data: seq<Byte>, i: nat)
    requires sets != [] && At(data, i, SetsBytes(sets))
    ensures var next := i + |SetBytes(sets[0])|;
            At(data, i, SetBytes(sets[0])) && At(data, next, SetsBytes(sets[1..]))
                && i + |SetsBytes(sets)| == next + |SetsBytes(sets[1..])|
  {
    AtParts(data, i, SetBytes(sets[0]), SetsBytes(sets[1..]));
  }

  lemma SetsStep(sets: seq<RawSet>, data: seq<Byte>, i: nat, limit: nat) returns (next: nat)
    requires sets != [] && SetsFit(sets) && At(data, i, SetsBytes(sets)) && i + |SetsBytes(sets)| <= limit <= |data|
    ensures SetsFit(sets[1..]) && At(data, next, SetsBytes(sets[1..]))
    ensures next + |SetsBytes(sets[1..])| == i + |SetsBytes(sets)|
    ensures CutSets(data, next, limit) == sets[1..] ==> CutSets(data, i, limit) == sets
  {
    next := i + |SetBytes(sets[0])|;
    SetsAt(sets, data, i);
    CutsHead(sets[0], data, i, limit);
    HeadAndTail(sets);
  }

  /** Sets are cut out as they were put in; a malformed set ends the walk and changes nothing about
      the sets before it. */
  lemma {:induction false} SetsRoundTrip(sets: seq<RawSet>, data: seq<Byte>, i: nat, limit: nat)
    requires SetsFit(sets)
    requires At(data, i, SetsBytes(sets)) && i + |SetsBytes(sets)| <= limit <= |data|
    requires NoSetAt(data, i + |SetsBytes(sets)|, limit)
    ensures CutSets(data, i, limit) == sets
    decreases |sets|
  {
    hide SetFits, SetBytes, At;
    if sets != [] {
      var next := SetsStep(sets, data, i, limit);
      SetsRoundTrip(sets[1..], data, next, limit);
    }
  }

  lemma SetBytesOf(data: seq<Byte>, i: nat, length: nat)
    requires i + length <= |data| && length >= 4 && U16(data, i + 2) == length
    ensures SetBytes(RawSet(U16(data, i), data[i + 4..i + length])) == data[i..i + length]
  {
    EncOfBe(data[i..i + 2]);
    EncOfBe(data[i + 2..i + 4]);
    U16IsBe(data, i);
    U16IsBe(data, i + 2);
  }

  lemma SetsBytesCons(s: RawSet, rest: seq<RawSet>, data: seq<Byte>, i: nat)
    requires At(data, i, SetBytes(s)) && At(data, i + |SetBytes(s)|, SetsBytes(rest))
    ensures At(data, i, SetsBytes([s] + rest)) && |SetsBytes([s] + rest)| == |SetBytes(s)| + |SetsBytes(rest)|
  {
    assert ([s] + rest)[1..] == rest;
    AtParts(data, i, SetBytes(s), SetsBytes(rest));
  }

  /** Conversely, the sets cut out of any bytes are, byte for byte, what was walked over, and the
      walk stops only at the limit or at a malformed set. */
  lemma {:induction false} CutIsExact(data: seq<Byte>, i: nat, limit: nat)
    requires i <= limit <= |data|
    ensures var sets := CutSets(data, i, limit);
            var end := i + |SetsBytes(sets)|;
            end <= limit && At(data, i, SetsBytes(sets)) && NoSetAt(data, end, limit)
    decreases limit - i
  {
    hide SetBytes;
    var sets := CutSets(data, i, limit);
    if NoSetAt(data, i, limit) {
      assert sets == [];
    } else {
      var next := i + U16(data, i + 2);
      CutIsExact(data, next, limit);
      SetBytesOf(data, i, next - i);
      var s, rest := RawSet(U16(data, i), data[i + 4..next]), CutSets(data, next, limit);
      assert sets == [s] + rest;
      SetsBytesCons(s, rest, data, i);
    }
  }

  // ------------------------------------------------------------------
  // Packets
  // ------------------------------------------------------------------

  /** The header fields a sender chooses; the record count and the sequence number are not used. */
  datatype Sent = Sent(domain: nat, times: Times, count: nat, sequence: nat)

  predicate SentFits(dialect: Dialect, h: Sent, body: seq<Byte>) {
    && h.domain < ROLLOVER && h.times.seconds < ROLLOVER && h.times.sysUptime < ROLLOVER && h.sequence < ROLLOVER
    && (dialect.V9? ==> 0 < h.count < 0x10000)
    && (dialect.Ipfix? ==> h.times.sysUptime == 0 && 16 + |body| < 0x10000)
  }

  function PacketHead(dialect: Dialect, h: Sent, length: nat): (s: seq<Byte>)
    ensures |s| == HeaderSize(dialect)
  {
    if dialect.V9? then
      BeEnc(9, 2) + BeEnc(h.count, 2) + BeEnc(h.times.sysUptime, 4) + BeEnc(h.times.seconds, 4) + BeEnc(h.sequence, 4)
          + BeEnc(h.domain, 4)
    else
      BeEnc(10, 2) + BeEnc(16 + length, 2) + BeEnc(h.times.seconds, 4) + BeEnc(h.sequence, 4) + BeEnc(h.domain, 4)
  }

  function PacketBytes(dialect: Dialect, h: Sent, body: seq<Byte>): seq<Byte> {
    PacketHead(dialect, h, |body|) + body
  }

  /** The header is read back; IPFIX ignores what the datagram holds beyond its declared length. */
  lemma HeaderRoundTrip(dialect: Dialect, h: Sent, body: seq<Byte>, beyond: seq<Byte>)
    requires SentFits(dialect, h, body) && (dialect.V9? ==> beyond == [])
    ensures ReadHeader(dialect, PacketBytes(dialect, h, body) + beyond) ==
            Some(Header(h.domain, h.times, HeaderSize(dialect) + |body|))
  {
    var d := PacketBytes(dialect, h, body) + beyond;
    if dialect.V9? {
      HeaderBytesV9(h, body);
      U16At(d, 0, 9);
      U16At(d, 2, h.count);
      U32At(d, 4, h.times.sysUptime);
      U32At(d, 8, h.times.seconds);
      U32At(d, 16, h.domain);
    } else {
      HeaderBytesIpfix(h, body, beyond);
      U16At(d, 0, 10);
      U16At(d, 2, 16 + |body|);
      U32At(d, 4, h.times.seconds);
      U32At(d, 12, h.domain);
    }
  }

  lemma FrontAt(head: seq<Byte>, body: seq<Byte>, beyond: seq<Byte>)
    ensures At((head + body) + beyond, 0, head)
  {
  }

  lemma FivePieces(d: seq<Byte>, a: seq<Byte>, b: seq<Byte>, c: seq<Byte>, e: seq<Byte>, f: seq<Byte>)
    requires At(d, 0, a + b + c + e + f)
    ensures At(d, 0, a) && At(d, |a|, b) && At(d, |a| + |b|, c) && At(d, |a| + |b| + |c| + |e|, f)
  {
    AtParts(d, 0, a, b);
    AtParts(d, 0, a + b, c);
    AtParts(d, 0, a + b + c, e);
    AtParts(d, 0, a + b + c + e, f);
  }

  lemma HeaderBytesV9(h: Sent, body: seq<Byte>)
    ensures var d := PacketBytes(V9, h, body) + [];
            && At(d, 0, BeEnc(9, 2)) && At(d, 2, BeEnc(h.count, 2)) && At(d, 4, BeEnc(h.times.sysUptime, 4))
            && At(d, 8, BeEnc(h.times.seconds, 4)) && At(d, 16, BeEnc(h.domain, 4))
  {
    hide BeEnc, At;
    var d := PacketBytes(V9, h, body) + [];
    FrontAt(PacketHead(V9, h, |body|), body, []);
    var up, seconds, sequence := BeEnc(h.times.sysUptime, 4), BeEnc(h.times.seconds, 4), BeEnc(h.sequence, 4);
    AtParts(d, 0, BeEnc(9, 2) + BeEnc(h.count, 2) + up + seconds + sequence, BeEnc(h.domain, 4));
    FivePieces(d, BeEnc(9, 2), BeEnc(h.count, 2), up, seconds, sequence);
    AtParts(d, 0, BeEnc(9, 2) + BeEnc(h.count, 2) + up, seconds);
    AtParts(d, 0, BeEnc(9, 2) + BeEnc(h.count, 2) + up + seconds, sequence);
  }

  lemma HeaderBytesIpfix(h: Sent, body: seq<Byte>, beyond: seq<Byte>)
    ensures var d := PacketBytes(Ipfix, h, body) + beyond;
            && At(d, 0, BeEnc(10, 2)) && At(d, 2, BeEnc(16 + |body|, 2))
            && At(d, 4, BeEnc(h.times.seconds, 4)) && At(d, 12, BeEnc(h.domain, 4))
  {
    hide BeEnc, At;
    FrontAt(PacketHead(Ipfix, h, |body|), body, beyond);
    FivePieces(PacketBytes(Ipfix, h, body) + beyond,
               BeEnc(10, 2), BeEnc(16 + |body|, 2), BeEnc(h.times.seconds, 4), BeEnc(h.sequence, 4),
               BeEnc(h.domain, 4));
  }

  lemma ParsedAs(cfg: Config, cache: Cache, exporter: string, now: int, data: seq<Byte>, h: Header, sets: seq<RawSet>)
    requires ReadHeader(cfg.dialect, data) == Some(h) && CutSets(data, HeaderSize(cfg.dialect), h.limit) == sets
    ensures Parsed(cfg, cache, exporter, now, data) ==
            Deliver(cfg, cache, Scope(exporter, h.domain), Packet(h.times, now, sets))
  {
  }

  lemma PacketReads(dialect: Dialect, h: Sent, sets: seq<RawSet>, tail: seq<Byte>, beyond: seq<Byte>)
    returns (header: Header)
    requires SetsFit(sets)
    requires NoSetAt(tail, 0, |tail|) && (dialect.V9? ==> beyond == [])
    requires SentFits(dialect, h, SetsBytes(sets) + tail)
    ensures header.domain == h.domain && header.times == h.times
    ensures var data := PacketBytes(dialect, h, SetsBytes(sets) + tail) + beyond;
            ReadHeader(dialect, data) == Some(header) && CutSets(data, HeaderSize(dialect), header.limit) == sets
  {
    hide CutSets, SetsBytes, SetsFit, ReadHeader, At, BeEnc;
    var body := SetsBytes(sets) + tail;
    HeaderRoundTrip(dialect, h, body, beyond);
    BodyCuts(sets, PacketHead(dialect, h, |body|), tail, beyond);
    header := Header(h.domain, h.times, HeaderSize(dialect) + |body|);
  }

  /** Parsing the bytes of a packet is walking over the sets that were put into it, up to the first
      malformed one. */
  lemma PacketRoundTrip(cfg: Config, cache: Cache, exporter: string, now: int, h: Sent, sets: seq<RawSet>,
                        tail: seq<Byte>, beyond: seq<Byte>)
    requires SetsFit(sets)
    requires NoSetAt(tail, 0, |tail|) && (cfg.dialect.V9? ==> beyond == [])
    requires SentFits(cfg.dialect, h, SetsBytes(sets) + tail)
    ensures Parsed(cfg, cache, exporter, now, PacketBytes(cfg.dialect, h, SetsBytes(sets) + tail) + beyond) ==
            Deliver(cfg, cache, Scope(exporter, h.domain), Packet(h.times, now, sets))
  {
    hide CutSets, SetsBytes, SetsFit, ReadHeader, Deliver, PacketBytes;
    var header := PacketReads(cfg.dialect, h, sets, tail, beyond);
    ParsedAs(cfg, cache, exporter, now, PacketBytes(cfg.dialect, h, SetsBytes(sets) + tail) + beyond, header, sets);
  }

  lemma BodyCuts(sets: seq<RawSet>, head: seq<Byte>, tail: seq<Byte>, beyond: seq<Byte>)
    requires SetsFit(sets)
    requires NoSetAt(tail, 0, |tail|)
    ensures var body := SetsBytes(sets) + tail;
            CutSets(head + body + beyond, |head|, |head| + |body|) == sets
  {
    hide CutSets, SetsBytes, SetsFit, At;
    var body := SetsBytes(sets) + tail;
    var data, limit := head + body + beyond, |head| + |body|;
    AtConcat(head, body, beyond);
    AtParts(data, |head|, SetsBytes(sets), tail);
    var end := |head| + |SetsBytes(sets)|;
    if |tail| >= 4 {
      AtWithin(data, end, tail, 2, 4);
    }
    SetsRoundTrip(sets, data, |head|, limit);
  }

  lemma AtWithin(data: seq<Byte>, i: nat, bytes: seq<Byte>, from: nat, to: nat)
    requires At(data, i, bytes) && from <= to <= |bytes|
    ensures data[i + from..i + to] == bytes[from..to]
  {
    forall k | 0 <= k < to - from ensures data[i + from..i + to][k] == bytes[from..to][k] {
      assert data[i..i + |bytes|][from + k] == bytes[from + k];
    }
  }

  /** The sets of one packet or of two with the same header times and clock: same flows, same state. */
  lemma BytesInTwo(cfg: Config, cache: Cache, exporter: string, now: int, a: seq<RawSet>, b: seq<RawSet>, ha: Sent,
                   hb: Sent, hab: Sent)
    requires cfg.templateTtl >= 0
    requires SetsFit(a)
    requires SetsFit(b)
    requires ha.domain == hb.domain == hab.domain && ha.times == hb.times == hab.times
    requires SentFits(cfg.dialect, ha, SetsBytes(a)) && SentFits(cfg.dialect, hb, SetsBytes(b))
             && SentFits(cfg.dialect, hab, SetsBytes(a + b))
    ensures var first := Parsed(cfg, cache, exporter, now, PacketBytes(cfg.dialect, ha, SetsBytes(a)));
            var second := Parsed(cfg, first.cache, exporter, now, PacketBytes(cfg.dialect, hb, SetsBytes(b)));
            Parsed(cfg, cache, exporter, now, PacketBytes(cfg.dialect, hab, SetsBytes(a + b))) ==
                Outcome(second.cache, first.flows + second.flows)
  {
    var scope := Scope(exporter, hab.domain);
    WholePacket(cfg, cache, exporter, now, ha, a);
    var first := Deliver(cfg, cache, scope, Packet(ha.times, now, a));
    WholePacket(cfg, first.cache, exporter, now, hb, b);
    WholePacket(cfg, cache, exporter, now, hab, a + b);
    PacketInTwo(cfg, cache, scope, hab.times, now, a, b);
  }

  lemma WholePacket(cfg: Config, cache: Cache, exporter: string, now: int, h: Sent, sets: seq<RawSet>)
    requires SetsFit(sets)
    requires SentFits(cfg.dialect, h, SetsBytes(sets))
    ensures Parsed(cfg, cache, exporter, now, PacketBytes(cfg.dialect, h, SetsBytes(sets))) ==
            Deliver(cfg, cache, Scope(exporter, h.domain), Packet(h.times, now, sets))
  {
    hide CutSets, SetsFit, ReadHeader, Deliver, PacketBytes, Parsed;
    assert SetsBytes(sets) + [] == SetsBytes(sets);
    PacketRoundTrip(cfg, cache, exporter, now, h, sets, [], []);
    var bytes := PacketBytes(cfg.dialect, h, SetsBytes(sets));
    assert bytes + [] == bytes;
  }

  // ------------------------------------------------------------------
  // From records to bytes to flows
  // ------------------------------------------------------------------

  function TemplateSet(dialect: Dialect, id: nat, fields: seq<Field>, padding: seq<Byte>): RawSet {
    RawSet(if dialect.V9? then 0 else 2, RecordsBytes([(id, fields)]) + padding)
  }

  function DataSet(dialect: Dialect, id: nat, fields: seq<Field>, raws: seq<Raw>, padding: seq<Byte>): RawSet {
    RawSet(id, EncodeAll(dialect, fields, raws) + padding)
  }

  lemma TemplateSetAnnounces(cfg: Config, id: nat, fields: seq<Field>, padding: seq<Byte>, times: Times, now: int)
    requires RecordFits(cfg.dialect, (id, fields)) && NoRecordAt(padding, 0)
    ensures Announces(cfg, Packet(times, now, [TemplateSet(cfg.dialect, id, fields, padding)]), id, fields)
  {
    var bytes := RecordsBytes([(id, fields)]);
    var p := bytes + padding;
    assert At(p, 0, bytes);
    if |padding| >= 4 {
      assert p[|bytes|..|bytes| + 2] == padding[0..2];
    }
    TemplatesRoundTrip(cfg.dialect, [(id, fields)], p, 0);
  }

  lemma DataSetDecodes(cfg: Config, cache: Cache, scope: Scope, id: nat, template: Template, raws: seq<Raw>,
                       padding: seq<Byte>, times: Times, now: int)
    requires id >= 256 && (scope, id) in cache.templates && cache.templates[(scope, id)] == template
    requires now - template.created <= cfg.templateTtl
    requires |padding| < TotalLength(template.fields) && AllExpressed(cfg.dialect, template.fields, raws)
    ensures Deliver(cfg, cache, scope,
                    Packet(times, now, [DataSet(cfg.dialect, id, template.fields, raws, padding)])).flows
            == FlowsOfAll(cfg.dialect, scope.exporter, times, raws)
  {
    DeliverData(cfg, cache, scope, Arrival(id, times, now, EncodeAll(cfg.dialect, template.fields, raws) + padding));
    SetRoundTrip(cfg.dialect, template.fields, scope.exporter, times, raws, padding);
  }

  /** A template packet, then a data packet under that template: whatever the parser had seen before,
      the second packet yields exactly the flows of the encoded records, in order. */
  lemma WireRoundTrip(cfg: Config, cache: Cache, exporter: string, id: nat, fields: seq<Field>,
                      templatePadding: seq<Byte>, raws: seq<Raw>, dataPadding: seq<Byte>, h1: Sent, now1: int,
                      h2: Sent, now2: int)
    requires RecordFits(cfg.dialect, (id, fields)) && NoRecordAt(templatePadding, 0)
    requires 0 < TotalLength(fields) && |dataPadding| < TotalLength(fields)
    requires AllExpressed(cfg.dialect, fields, raws)
    requires SetFits(TemplateSet(cfg.dialect, id, fields, templatePadding))
             && SetFits(DataSet(cfg.dialect, id, fields, raws, dataPadding))
    requires SentFits(cfg.dialect, h1, SetsBytes([TemplateSet(cfg.dialect, id, fields, templatePadding)]))
    requires SentFits(cfg.dialect, h2, SetsBytes([DataSet(cfg.dialect, id, fields, raws, dataPadding)]))
    requires h1.domain == h2.domain && now2 - now1 <= cfg.templateTtl
    ensures var first := PacketBytes(cfg.dialect, h1,
                                     SetsBytes([TemplateSet(cfg.dialect, id, fields, templatePadding)]));
            var second := PacketBytes(cfg.dialect, h2,
                                      SetsBytes([DataSet(cfg.dialect, id, fields, raws, dataPadding)]));
            Parsed(cfg, Parsed(cfg, cache, exporter, now1, first).cache, exporter, now2, second).flows
            == FlowsOfAll(cfg.dialect, exporter, h2.times, raws)
  {
    hide Deliver, SetFlows, FlowsOfAll, SetsBytes, PacketBytes, AllExpressed, EncodeAll, TotalLength;
    var scope := Scope(exporter, h1.domain);
    var templates, data := [TemplateSet(cfg.dialect, id, fields, templatePadding)],
        [DataSet(cfg.dialect, id, fields, raws, dataPadding)];
    WholePacket(cfg, cache, exporter, now1, h1, templates);
    TemplateSetAnnounces(cfg, id, fields, templatePadding, h1.times, now1);
    DeliverTemplate(cfg, cache, scope, Packet(h1.times, now1, templates), id, fields);
    var ready := Deliver(cfg, cache, scope, Packet(h1.times, now1, templates)).cache;
    WholePacket(cfg, ready, exporter, now2, h2, data);
    DataSetDecodes(cfg, ready, scope, id, Template(fields, now1), raws, dataPadding, h2.times, now2);
  }

  /** Records with both addresses give one flow each, in order. */
  lemma {:induction false} OneFlowPerRecord(dialect: Dialect, exporter: string, times: Times, raws: seq<Raw>)
    requires forall i :: 0 <= i < |raws| ==> raws[i].src.Some? && raws[i].dst.Some?
    ensures |FlowsOfAll(dialect, exporter, times, raws)| == |raws|
    ensures forall i :: 0 <= i < |raws| ==>
            [FlowsOfAll(dialect, exporter, times, raws)[i]] == FlowOf(dialect, exporter, times, raws[i])
    decreases |raws|
  {
    if raws != [] {
      OneFlowPerRecord(dialect, exporter, times, raws[1..]);
    }
  }
}
