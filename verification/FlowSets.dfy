// Template cache, orphan buffer and the walk over the sets of a packet
// (monitoring/flow/v9_parser.py, ipfix_parser.py).

module FlowSets {
  import opened Collections
  import opened Options
  import opened Wire
  import opened FlowRecords

  /** Templates and orphans are kept per exporter and observation domain. */
  datatype Scope = Scope(exporter: string, domain: nat)

  datatype Template = Template(fields: seq<Field>, created: int)

  /** A data set that arrived before its template, with the header times it must be dated with. */
  datatype Orphan = Orphan(stamp: int, id: nat, payload: seq<Byte>, times: Times)

  /** One set of a packet, cut out of the bytes. */
  datatype RawSet = RawSet(id: nat, payload: seq<Byte>)

  datatype Config = Config(dialect: Dialect, templateTtl: int, orphanTtl: int)

  datatype Cache = Cache(templates: map<(Scope, nat), Template>, orphans: map<Scope, seq<Orphan>>)

  datatype Outcome = Outcome(cache: Cache, flows: seq<FlowRecord>)

  const BUFFER_SIZE := 100

  // ------------------------------------------------------------------
  // Orphans
  // ------------------------------------------------------------------

  function Buffer(cache: Cache, scope: Scope): seq<Orphan> {
    if scope in cache.orphans then cache.orphans[scope] else []
  }

  /** Appending to the ring buffer drops the oldest entry when it is full. */
  function Push(buf: seq<Orphan>, o: Orphan): seq<Orphan> {
    var all := buf + [o];
    if |all| > BUFFER_SIZE then all[|all| - BUFFER_SIZE..] else all
  }

  predicate Expired(cfg: Config, o: Orphan, now: int) { now - o.stamp > cfg.orphanTtl }

  /** The orphans that stay when template `id` arrives: fresh ones of other templates, in order. */
  function Kept(cfg: Config, buf: seq<Orphan>, id: nat, now: int): seq<Orphan> {
    if buf == [] then []
    else
      var o := buf[|buf| - 1];
      Kept(cfg, buf[..|buf| - 1], id, now) + if Expired(cfg, o, now) || o.id == id then [] else [o]
  }

  /** The flows of the fresh orphans of template `id`, in order. */
  function DrainedFlows(cfg: Config, scope: Scope, fields: seq<Field>, buf: seq<Orphan>, id: nat,
                        now: int): seq<FlowRecord>
  {
    if buf == [] then []
    else
      var o := buf[|buf| - 1];
      DrainedFlows(cfg, scope, fields, buf[..|buf| - 1], id, now)
      + if Expired(cfg, o, now) || o.id != id || TotalLength(fields) == 0 then []
        else SetFlows(cfg.dialect, fields, scope.exporter, o.times, o.payload)
  }

  // ------------------------------------------------------------------
  // Sets
  // ------------------------------------------------------------------

  /** Caching a template and draining the orphans that waited for it. */
  function Install(cfg: Config, cache: Cache, scope: Scope, now: int, id: nat, fields: seq<Field>): Outcome {
    var buf := Buffer(cache, scope);
    var templates := cache.templates[(scope, id) := Template(fields, now)];
    if buf == [] then Outcome(cache.(templates := templates), [])
    else Outcome(Cache(templates, cache.orphans[scope := Kept(cfg, buf, id, now)]),
                 DrainedFlows(cfg, scope, fields, buf, id, now))
  }

  /** A cached template with at least one byte of record can decode. */
  predicate Decodable(cache: Cache, scope: Scope, id: nat) {
    (scope, id) in cache.templates && TotalLength(cache.templates[(scope, id)].fields) > 0
  }

  function DataStep(cfg: Config, cache: Cache, scope: Scope, times: Times, now: int, s: RawSet): Outcome {
    if Decodable(cache, scope, s.id) then
      Outcome(cache, SetFlows(cfg.dialect, cache.templates[(scope, s.id)].fields, scope.exporter, times, s.payload))
    else
      Outcome(cache.(orphans :=
                     cache.orphans[scope := Push(Buffer(cache, scope), Orphan(now, s.id, s.payload, times))]), [])
  }

  /** One field specification and where it ends. An enterprise field takes four bytes more; when
      they are missing there is no field. */
  function ReadField(dialect: Dialect, p: seq<Byte>, idx: nat): (r: (Option<Field>, nat))
    requires idx + 4 <= |p|
    ensures idx < r.1 <= |p|
  {
    var raw, length := U16(p, idx), U16(p, idx + 2);
    if dialect.V9? || raw < 0x8000 then (Some(Field(raw, length, None)), idx + 4)
    else if idx + 8 > |p| then (None, idx + 4)
    else (Some(Field(raw - 0x8000, length, Some(U32(p, idx + 4)))), idx + 8)
  }

  /** The fields of one template record from position idx on, and where reading stopped; reading
      stops early when the bytes run out. */
  function ReadFields(dialect: Dialect, p: seq<Byte>, idx: nat, count: nat): (r: (seq<Field>, nat))
    ensures |r.0| <= count && idx <= r.1
    ensures idx <= |p| ==> r.1 <= |p|
    decreases count
  {
    if count == 0 || idx + 4 > |p| then ([], idx)
    else
      var first := ReadField(dialect, p, idx);
      if first.0.None? then ([], first.1)
      else
        var rest := ReadFields(dialect, p, first.1, count - 1);
        ([first.0.value] + rest.0, rest.1)
  }

  /** The complete template records of a template set. */
  function ReadTemplates(dialect: Dialect, p: seq<Byte>, idx: nat): seq<(nat, seq<Field>)>
    decreases |p| - idx
  {
    if idx + 4 > |p| || U16(p, idx) < 256 then []
    else
      var id, count := U16(p, idx), U16(p, idx + 2);
      var r := ReadFields(dialect, p, idx + 4, count);
      (if |r.0| == count then [(id, r.0)] else []) + ReadTemplates(dialect, p, r.1)
  }

  function InstallAll(cfg: Config, cache: Cache, scope: Scope, now: int, records: seq<(nat, seq<Field>)>): Outcome {
    if records == [] then Outcome(cache, [])
    else
      var before := InstallAll(cfg, cache, scope, now, records[..|records| - 1]);
      var last := records[|records| - 1];
      var step := Install(cfg, before.cache, scope, now, last.0, last.1);
      Outcome(step.cache, before.flows + step.flows)
  }

  function TemplateSetId(dialect: Dialect): nat { if dialect.V9? then 0 else 2 }

  function SetStep(cfg: Config, cache: Cache, scope: Scope, times: Times, now: int, s: RawSet): Outcome {
    if s.id == TemplateSetId(cfg.dialect)
      then InstallAll(cfg, cache, scope, now, ReadTemplates(cfg.dialect, s.payload, 0))
    else if s.id >= 256 then DataStep(cfg, cache, scope, times, now, s)
    else Outcome(cache, [])
  }

  function Walk(cfg: Config, cache: Cache, scope: Scope, times: Times, now: int, sets: seq<RawSet>): Outcome {
    if sets == [] then Outcome(cache, [])
    else
      var before := Walk(cfg, cache, scope, times, now, sets[..|sets| - 1]);
      var step := SetStep(cfg, before.cache, scope, times, now, sets[|sets| - 1]);
      Outcome(step.cache, before.flows + step.flows)
  }

  // ------------------------------------------------------------------
  // Packets
  // ------------------------------------------------------------------

  /** The well-formed sets from an offset up to the limit; the first malformed header ends the walk. */
  function CutSets(data: seq<Byte>, offset: nat, limit: nat): seq<RawSet>
    requires limit <= |data|
    decreases limit - offset
  {
    if offset + 4 > limit then []
    else
      var id, length := U16(data, offset), U16(data, offset + 2);
      if length < 4 || offset + length > limit then []
      else [RawSet(id, data[offset + 4..offset + length])] + CutSets(data, offset + length, limit)
  }

  /** Templates older than their time to live leave the cache. */
  function Cleaned(cfg: Config, cache: Cache, now: int): Cache {
    cache.(templates := map k | k in cache.templates && now - cache.templates[k].created <= cfg.templateTtl ::
           cache.templates[k])
  }

  function HeaderSize(dialect: Dialect): nat { if dialect.V9? then 20 else 16 }

  /** The header of a packet, if the packet is acceptable: observation domain, times, and the end of
      the sets. */
  datatype Header = Header(domain: nat, times: Times, limit: nat)

  function ReadHeader(dialect: Dialect, data: seq<Byte>): (h: Option<Header>)
    ensures h.Some? ==> h.value.limit <= |data|
  {
    if |data| < HeaderSize(dialect) then None
    else if dialect.V9? then
      if U16(data, 0) != 9 || U16(data, 2) == 0 then None
      else Some(Header(U32(data, 16), Times(U32(data, 4), U32(data, 8)), |data|))
    else
      if U16(data, 0) != 10 || U16(data, 2) > |data| then None
      else Some(Header(U32(data, 12), Times(0, U32(data, 4)), U16(data, 2)))
  }

  function Parsed(cfg: Config, cache: Cache, exporter: string, now: int, data: seq<Byte>): Outcome {
    match ReadHeader(cfg.dialect, data)
    case None => Outcome(cache, [])
    case Some(h) =>
      Walk(cfg, Cleaned(cfg, cache, now), Scope(exporter, h.domain), h.times, now,
           CutSets(data, HeaderSize(cfg.dialect), h.limit))
  }

  // ------------------------------------------------------------------
  // The loops of one set
  // ------------------------------------------------------------------

  /** Empties a buffer from the front; fresh sets of the template are decoded, fresh sets of other
      templates stay in order, expired ones are dropped. */
  method DrainBuffer(cfg: Config, scope: Scope, fields: seq<Field>, buf: seq<Orphan>, id: nat, now: int)
    returns (flows: seq<FlowRecord>, remaining: seq<Orphan>)
    ensures flows == DrainedFlows(cfg, scope, fields, buf, id, now)
    ensures remaining == Kept(cfg, buf, id, now)
  {
    flows, remaining := [], [];
    for i := 0 to |buf|
      invariant remaining == Kept(cfg, buf[..i], id, now)
      invariant flows == DrainedFlows(cfg, scope, fields, buf[..i], id, now)
    {
      var o := buf[i];
      assert buf[..i + 1][..i] == buf[..i];
      if !Expired(cfg, o, now) {
        if o.id == id {
          if TotalLength(fields) > 0 {
            var parsed := DecodeSet(cfg.dialect, fields, scope.exporter, o.times, o.payload);
            flows := flows + parsed;
          }
        } else {
          remaining := remaining + [o];
        }
      }
    }
    assert buf[..|buf|] == buf;
  }

  method ParseField(dialect: Dialect, payload: seq<Byte>, start: nat) returns (field: Option<Field>, idx: nat)
    requires start + 4 <= |payload|
    ensures (field, idx) == ReadField(dialect, payload, start)
  {
    var raw, length := U16(payload, start), U16(payload, start + 2);
    idx := start + 4;
    var enterprise: Option<nat> := None;
    if dialect.Ipfix? && raw >= 0x8000 {
      if idx + 4 > |payload| {
        return None, idx;
      }
      enterprise := Some(U32(payload, idx));
      raw := raw - 0x8000;
      idx := idx + 4;
    }
    field := Some(Field(raw, length, enterprise));
  }

  /** The field loop of one template record. */
  method ParseFields(dialect: Dialect, payload: seq<Byte>, start: nat, count: nat)
    returns (fields: seq<Field>, idx: nat)
    requires start <= |payload|
    ensures (fields, idx) == ReadFields(dialect, payload, start, count)
  {
    fields, idx := [], start;
    var left: nat := count;
    ghost var all := ReadFields(dialect, payload, start, count);
    assert [] + all.0 == all.0;
    while left > 0
      invariant start <= idx <= |payload|
      invariant fields + ReadFields(dialect, payload, idx, left).0 == all.0
      invariant ReadFields(dialect, payload, idx, left).1 == all.1
    {
      if idx + 4 > |payload| {
        break;
      }
      var field, next := ParseField(dialect, payload, idx);
      if field.None? {
        assert ReadFields(dialect, payload, idx, left) == ([], next);
        assert fields + [] == fields;
        idx := next;
        return;
      }
      ConcatAssoc(fields, [field.value], ReadFields(dialect, payload, next, left - 1).0);
      fields := fields + [field.value];
      idx := next;
      left := left - 1;
    }
    assert fields + [] == fields;
  }

  lemma InstallOneMore(cfg: Config, cache: Cache, scope: Scope, now: int, done: seq<(nat, seq<Field>)>, id: nat,
                       fields: seq<Field>)
    ensures var before := InstallAll(cfg, cache, scope, now, done);
            var step := Install(cfg, before.cache, scope, now, id, fields);
            InstallAll(cfg, cache, scope, now, done + [(id, fields)]) == Outcome(step.cache, before.flows + step.flows)
  {
    assert (done + [(id, fields)])[..|done|] == done;
  }

  /** Reads template records one after the other; each complete one is cached and its orphans are
      drained before the next is read. */
  method InstallRecords(cfg: Config, cache: Cache, scope: Scope, payload: seq<Byte>, now: int)
    returns (cache': Cache, flows: seq<FlowRecord>)
    ensures Outcome(cache', flows) == InstallAll(cfg, cache, scope, now, ReadTemplates(cfg.dialect, payload, 0))
  {
    hide ReadTemplates, ReadFields, InstallAll, Install;
    cache', flows := cache, [];
    NothingInstalled(cfg, cache, scope, now);
    var idx := 0;
    ghost var done: seq<(nat, seq<Field>)> := [];
    ghost var all := ReadTemplates(cfg.dialect, payload, 0);
    while idx + 4 <= |payload|
      invariant idx <= |payload|
      invariant done + ReadTemplates(cfg.dialect, payload, idx) == all
      invariant Outcome(cache', flows) == InstallAll(cfg, cache, scope, now, done)
      decreases |payload| - idx
    {
      var id, count := U16(payload, idx), U16(payload, idx + 2);
      if id < 256 {
        break;
      }
      var fields, next := ParseFields(cfg.dialect, payload, idx + 4, count);
      ReadOneTemplate(cfg.dialect, payload, idx, done);
      idx := next;
      if |fields| == count {
        InstallOneMore(cfg, cache, scope, now, done, id, fields);
        var drained;
        cache', drained := InstallTemplate(cfg, cache', scope, now, id, fields);
        flows := flows + drained;
        done := done + [(id, fields)];
      }
    }
    NoTemplateAt(cfg.dialect, payload, idx);
    assert done + [] == done;
  }

  lemma NoTemplateAt(dialect: Dialect, p: seq<Byte>, idx: nat)
    requires idx <= |p| && (idx + 4 <= |p| ==> U16(p, idx) < 256)
    ensures ReadTemplates(dialect, p, idx) == []
  {
  }

  lemma NothingInstalled(cfg: Config, cache: Cache, scope: Scope, now: int)
    ensures InstallAll(cfg, cache, scope, now, []) == Outcome(cache, [])
  {
  }

  lemma ReadOneTemplate(dialect: Dialect, p: seq<Byte>, idx: nat, done: seq<(nat, seq<Field>)>)
    requires idx + 4 <= |p| && U16(p, idx) >= 256
    ensures var r := ReadFields(dialect, p, idx + 4, U16(p, idx + 2));
            done + ReadTemplates(dialect, p, idx) ==
            (if |r.0| == U16(p, idx + 2) then done + [(U16(p, idx), r.0)] else done) + ReadTemplates(dialect, p, r.1)
  {
    var r := ReadFields(dialect, p, idx + 4, U16(p, idx + 2));
    var rest := ReadTemplates(dialect, p, r.1);
    assert [] + rest == rest;
    assert done + ([(U16(p, idx), r.0)] + rest) == (done + [(U16(p, idx), r.0)]) + rest;
  }

  method InstallTemplate(cfg: Config, cache: Cache, scope: Scope, now: int, id: nat, fields: seq<Field>)
    returns (cache': Cache, flows: seq<FlowRecord>)
    ensures Outcome(cache', flows) == Install(cfg, cache, scope, now, id, fields)
  {
    flows := [];
    cache' := cache.(templates := cache.templates[(scope, id) := Template(fields, now)]);
    var buf := if scope in cache.orphans then cache.orphans[scope] else [];
    if buf != [] {
      var remaining;
      flows, remaining := DrainBuffer(cfg, scope, fields, buf, id, now);
      cache' := cache'.(orphans := cache'.orphans[scope := remaining]);
    }
  }

  // ------------------------------------------------------------------
  // The parser object
  // ------------------------------------------------------------------

  class FlowParser {
    const cfg: Config
    var templates: map<(Scope, nat), Template>
    var orphans: map<Scope, seq<Orphan>>

    ghost function View(): Cache
      reads this
    {
      Cache(templates, orphans)
    }

    constructor (cfg: Config)
      ensures this.cfg == cfg && View() == Cache(map[], map[])
    {
      this.cfg := cfg;
      templates, orphans := map[], map[];
    }

    method ParseTemplateSet(payload: seq<Byte>, scope: Scope, now: int) returns (flows: seq<FlowRecord>)
      modifies this
      ensures Outcome(View(), flows) == InstallAll(cfg, old(View()), scope, now, ReadTemplates(cfg.dialect, payload, 0))
    {
      var cache;
      cache, flows := InstallRecords(cfg, Cache(templates, orphans), scope, payload, now);
      templates, orphans := cache.templates, cache.orphans;
    }

    method ParseDataSet(s: RawSet, scope: Scope, times: Times, now: int) returns (flows: seq<FlowRecord>)
      modifies `orphans
      ensures Outcome(View(), flows) == DataStep(cfg, old(View()), scope, times, now, s)
    {
      flows := [];
      if (scope, s.id) in templates && TotalLength(templates[(scope, s.id)].fields) > 0 {
        flows := DecodeSet(cfg.dialect, templates[(scope, s.id)].fields, scope.exporter, times, s.payload);
      } else {
        var buf := if scope in orphans then orphans[scope] else [];
        orphans := orphans[scope := Push(buf, Orphan(now, s.id, s.payload, times))];
      }
    }

    method ParseSet(s: RawSet, scope: Scope, times: Times, now: int) returns (flows: seq<FlowRecord>)
      modifies this
      ensures Outcome(View(), flows) == SetStep(cfg, old(View()), scope, times, now, s)
    {
      flows := [];
      if s.id == TemplateSetId(cfg.dialect) {
        flows := ParseTemplateSet(s.payload, scope, now);
      } else if s.id >= 256 {
        flows := ParseDataSet(s, scope, times, now);
      }
    }

    /** The walk over the sets of one packet. */
    method ParseSets(data: seq<Byte>, start: nat, limit: nat, scope: Scope, times: Times, now: int)
      returns (flows: seq<FlowRecord>)
      requires limit <= |data|
      modifies this
      ensures Outcome(View(), flows) == Walk(cfg, old(View()), scope, times, now, CutSets(data, start, limit))
    {
      flows := [];
      var offset := start;
      ghost var first, all := View(), CutSets(data, start, limit);
      ghost var done, rest := [], all;
      while offset + 4 <= limit
        invariant done + rest == all && rest == CutSets(data, offset, limit)
        invariant Outcome(View(), flows) == Walk(cfg, first, scope, times, now, done)
        decreases limit - offset
      {
        var id, length := U16(data, offset), U16(data, offset + 2);
        if length < 4 || offset + length > limit {
          break;
        }
        var s := RawSet(id, data[offset + 4..offset + length]);
        ghost var reached := View();
        var parsed := ParseSet(s, scope, times, now);
        var next := offset + length;
        rest := CutOneSet(data, offset, limit, done, s, next, rest);
        WalkOneMore(cfg, first, scope, times, now, done, s, Outcome(reached, flows), Outcome(View(), parsed));
        flows := flows + parsed;
        done := done + [s];
        offset := next;
      }
      assert done + [] == done;
    }

    method ParsePacket(data: seq<Byte>, exporter: string, now: int) returns (flows: seq<FlowRecord>)
      modifies this
      ensures Outcome(View(), flows) == Parsed(cfg, old(View()), exporter, now, data)
    {
      flows := [];
      var header := ReadHeader(cfg.dialect, data);
      if header.None? {
        return;
      }
      var h := header.value;
      templates := map k | k in templates && now - templates[k].created <= cfg.templateTtl :: templates[k];
      assert View() == Cleaned(cfg, old(View()), now);
      flows := ParseSets(data, HeaderSize(cfg.dialect), h.limit, Scope(exporter, h.domain), h.times, now);
    }
  }

  /** The set at the front of the walk, then the sets behind it. */
  lemma CutOneSet(data: seq<Byte>, offset: nat, limit: nat, done: seq<RawSet>, s: RawSet, next: nat, rest: seq<RawSet>)
    returns (rest': seq<RawSet>)
    requires offset + 4 <= next <= limit <= |data|
    requires next == offset + U16(data, offset + 2) && s == RawSet(U16(data, offset), data[offset + 4..next])
    requires rest == CutSets(data, offset, limit)
    ensures rest' == CutSets(data, next, limit) && done + rest == (done + [s]) + rest'
  {
    rest' := CutSets(data, next, limit);
    ConcatAssoc(done, [s], rest');
  }

  /** One set more: what it gives is appended to what the walk gave before. */
  lemma WalkOneMore(cfg: Config, cache: Cache, scope: Scope, times: Times, now: int, done: seq<RawSet>, s: RawSet,
                    before: Outcome, step: Outcome)
    requires before == Walk(cfg, cache, scope, times, now, done)
    requires step == SetStep(cfg, before.cache, scope, times, now, s)
    ensures Walk(cfg, cache, scope, times, now, done + [s]) == Outcome(step.cache, before.flows + step.flows)
  {
    assert (done + [s])[..|done|] == done;
  }
}
