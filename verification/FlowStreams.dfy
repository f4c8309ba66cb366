// Streams of packets: how sets may be divided among packets, where a template may arrive, and what
// every run keeps (monitoring/flow/v9_parser.py, ipfix_parser.py).

module FlowStreams {
  import opened Collections
  import opened Wire
  import opened FlowRecords
  import opened FlowSets

  /** An accepted packet of one scope, cut into its sets. */
  datatype Packet = Packet(times: Times, now: int, sets: seq<RawSet>)

  function Deliver(cfg: Config, cache: Cache, scope: Scope, p: Packet): Outcome {
    Walk(cfg, Cleaned(cfg, cache, p.now), scope, p.times, p.now, p.sets)
  }

  function Stream(cfg: Config, cache: Cache, scope: Scope, packets: seq<Packet>): Outcome {
    if packets == [] then Outcome(cache, [])
    else
      var before := Stream(cfg, cache, scope, packets[..|packets| - 1]);
      var step := Deliver(cfg, before.cache, scope, packets[|packets| - 1]);
      Outcome(step.cache, before.flows + step.flows)
  }

  lemma StreamOneMore(cfg: Config, cache: Cache, scope: Scope, packets: seq<Packet>, p: Packet)
    ensures var before := Stream(cfg, cache, scope, packets);
            var step := Deliver(cfg, before.cache, scope, p);
            Stream(cfg, cache, scope, packets + [p]) == Outcome(step.cache, before.flows + step.flows)
  {
    assert (packets + [p])[..|packets|] == packets;
  }

  lemma {:induction false} StreamSplit(cfg: Config, cache: Cache, scope: Scope, a: seq<Packet>, b: seq<Packet>)
    ensures var first := Stream(cfg, cache, scope, a);
            var second := Stream(cfg, first.cache, scope, b);
            Stream(cfg, cache, scope, a + b) == Outcome(second.cache, first.flows + second.flows)
    decreases |b|
  {
    var first := Stream(cfg, cache, scope, a);
    if b == [] {
      assert a + b == a;
      assert first.flows + [] == first.flows;
    } else {
      var init, p := b[..|b| - 1], b[|b| - 1];
      StreamSplit(cfg, cache, scope, a, init);
      StreamOneMore(cfg, cache, scope, a + init, p);
      StreamOneMore(cfg, first.cache, scope, init, p);
      AppendOne(a, b);
      ConcatAssoc(first.flows, Stream(cfg, first.cache, scope, init).flows,
                 Deliver(cfg, Stream(cfg, first.cache, scope, init).cache, scope, p).flows);
    }
  }

  // ------------------------------------------------------------------
  // How sets are divided among packets does not matter
  // ------------------------------------------------------------------

  lemma {:induction false} WalkSplit(cfg: Config, cache: Cache, scope: Scope, times: Times, now: int, a: seq<RawSet>,
                                     b: seq<RawSet>)
    ensures var first := Walk(cfg, cache, scope, times, now, a);
            var second := Walk(cfg, first.cache, scope, times, now, b);
            Walk(cfg, cache, scope, times, now, a + b) == Outcome(second.cache, first.flows + second.flows)
    decreases |b|
  {
    var first := Walk(cfg, cache, scope, times, now, a);
    if b == [] {
      assert a + b == a;
      assert first.flows + [] == first.flows;
    } else {
      var init, s := b[..|b| - 1], b[|b| - 1];
      WalkSplit(cfg, cache, scope, times, now, a, init);
      var whole, part := Walk(cfg, cache, scope, times, now, a + init), Walk(cfg, first.cache, scope, times, now, init);
      var step := SetStep(cfg, part.cache, scope, times, now, s);
      WalkOneMore(cfg, cache, scope, times, now, a + init, s, whole, step);
      WalkOneMore(cfg, first.cache, scope, times, now, init, s, part, step);
      AppendOne(a, b);
      ConcatAssoc(first.flows, part.flows, step.flows);
    }
  }

  predicate FreshAt(cfg: Config, cache: Cache, now: int) {
    forall k :: k in cache.templates ==> now - cache.templates[k].created <= cfg.templateTtl
  }

  lemma FreshNeedsNoCleaning(cfg: Config, cache: Cache, now: int)
    requires FreshAt(cfg, cache, now)
    ensures Cleaned(cfg, cache, now) == cache
  {
    assert Cleaned(cfg, cache, now).templates == cache.templates;
  }

  lemma {:induction false} InstallAllFresh(cfg: Config, cache: Cache, scope: Scope, now: int,
                                           records: seq<(nat, seq<Field>)>)
    requires FreshAt(cfg, cache, now) && cfg.templateTtl >= 0
    ensures FreshAt(cfg, InstallAll(cfg, cache, scope, now, records).cache, now)
    decreases |records|
  {
    if records != [] {
      InstallAllFresh(cfg, cache, scope, now, records[..|records| - 1]);
    }
  }

  lemma {:induction false} WalkFresh(cfg: Config, cache: Cache, scope: Scope, times: Times, now: int, sets: seq<RawSet>)
    requires FreshAt(cfg, cache, now) && cfg.templateTtl >= 0
    ensures FreshAt(cfg, Walk(cfg, cache, scope, times, now, sets).cache, now)
    decreases |sets|
  {
    if sets != [] {
      WalkFresh(cfg, cache, scope, times, now, sets[..|sets| - 1]);
      var before, s := Walk(cfg, cache, scope, times, now, sets[..|sets| - 1]).cache, sets[|sets| - 1];
      if s.id == TemplateSetId(cfg.dialect) {
        InstallAllFresh(cfg, before, scope, now, ReadTemplates(cfg.dialect, s.payload, 0));
      }
    }
  }

  function Joined(parts: seq<seq<RawSet>>): seq<RawSet> {
    if parts == [] then [] else Joined(parts[..|parts| - 1]) + parts[|parts| - 1]
  }

  function Separate(times: Times, now: int, parts: seq<seq<RawSet>>): seq<Packet> {
    seq(|parts|, i requires 0 <= i < |parts| => Packet(times, now, parts[i]))
  }

  /** A packet of two runs of sets is worth a packet of each. */
  lemma PacketInTwo(cfg: Config, cache: Cache, scope: Scope, times: Times, now: int, a: seq<RawSet>, b: seq<RawSet>)
    requires cfg.templateTtl >= 0
    ensures var first := Deliver(cfg, cache, scope, Packet(times, now, a));
            var second := Deliver(cfg, first.cache, scope, Packet(times, now, b));
            Deliver(cfg, cache, scope, Packet(times, now, a + b)) == Outcome(second.cache, first.flows + second.flows)
  {
    var start := Cleaned(cfg, cache, now);
    WalkFresh(cfg, start, scope, times, now, a);
    FreshNeedsNoCleaning(cfg, Walk(cfg, start, scope, times, now, a).cache, now);
    WalkSplit(cfg, start, scope, times, now, a, b);
  }

  lemma SeparateLast(times: Times, now: int, parts: seq<seq<RawSet>>)
    requires parts != []
    ensures var n := |parts| - 1;
            Separate(times, now, parts) == Separate(times, now, parts[..n]) + [Packet(times, now, parts[n])]
  {
  }

  lemma StreamOfOne(cfg: Config, cache: Cache, scope: Scope, p: Packet)
    ensures Stream(cfg, cache, scope, [p]) == Deliver(cfg, cache, scope, p)
  {
    StreamOneMore(cfg, cache, scope, [], p);
    assert [] + [p] == [p];
    var step := Deliver(cfg, cache, scope, p);
    assert [] + step.flows == step.flows;
  }

  /** Parsing several sets in one packet gives the same flows and the same parser state as parsing
      them in successive packets with the same header times and clock, however they are divided. */
  lemma {:induction false} PacketisationIrrelevant(cfg: Config, cache: Cache, scope: Scope, times: Times, now: int,
          parts: seq<seq<RawSet>>)
    requires cfg.templateTtl >= 0 && parts != []
    ensures Stream(cfg, cache, scope, Separate(times, now, parts)) ==
            Deliver(cfg, cache, scope, Packet(times, now, Joined(parts)))
    decreases |parts|
  {
    var init, last := parts[..|parts| - 1], parts[|parts| - 1];
    SeparateLast(times, now, parts);
    if init == [] {
      assert Joined(parts) == last;
      assert Separate(times, now, parts) == [Packet(times, now, last)];
      StreamOfOne(cfg, cache, scope, Packet(times, now, last));
    } else {
      PacketisationIrrelevant(cfg, cache, scope, times, now, init);
      StreamOneMore(cfg, cache, scope, Separate(times, now, init), Packet(times, now, last));
      PacketInTwo(cfg, cache, scope, times, now, Joined(init), last);
    }
  }

  // ------------------------------------------------------------------
  // Where the template arrives does not matter
  // ------------------------------------------------------------------

  /** A data set with its packet's times and clock. */
  datatype Arrival = Arrival(id: nat, times: Times, now: int, payload: seq<Byte>)

  function DataPacket(a: Arrival): Packet {
    Packet(a.times, a.now, [RawSet(a.id, a.payload)])
  }

  function DataPackets(arrivals: seq<Arrival>): seq<Packet> {
    seq(|arrivals|, i requires 0 <= i < |arrivals| => DataPacket(arrivals[i]))
  }

  function OrphanOf(a: Arrival): Orphan { Orphan(a.now, a.id, a.payload, a.times) }

  function OrphansOf(arrivals: seq<Arrival>): seq<Orphan> {
    seq(|arrivals|, i requires 0 <= i < |arrivals| => OrphanOf(arrivals[i]))
  }

  /** What a ring buffer holds of a sequence. */
  function Latest<T>(s: seq<T>): seq<T> {
    if |s| > 100 then s[|s| - 100..] else s
  }

  /** The arrivals of one template, and those of the others, in order. */
  function Matching(arrivals: seq<Arrival>, id: nat): seq<Arrival> {
    if arrivals == [] then []
    else
      var a := arrivals[|arrivals| - 1];
      Matching(arrivals[..|arrivals| - 1], id) + if a.id == id then [a] else []
  }

  function Others(arrivals: seq<Arrival>, id: nat): seq<Arrival> {
    if arrivals == [] then []
    else
      var a := arrivals[|arrivals| - 1];
      Others(arrivals[..|arrivals| - 1], id) + if a.id == id then [] else [a]
  }

  /** The arrivals not too old to be decoded or kept when a template comes. */
  function Young(cfg: Config, arrivals: seq<Arrival>, now: int): seq<Arrival> {
    if arrivals == [] then []
    else
      var a := arrivals[|arrivals| - 1];
      Young(cfg, arrivals[..|arrivals| - 1], now) + if now - a.now > cfg.orphanTtl then [] else [a]
  }

  /** The flows of the arrivals under a template, in order. */
  function FlowsOfArrivals(cfg: Config, scope: Scope, fields: seq<Field>, arrivals: seq<Arrival>): seq<FlowRecord> {
    if arrivals == [] || TotalLength(fields) == 0 then []
    else
      var a := arrivals[|arrivals| - 1];
      FlowsOfArrivals(cfg, scope, fields, arrivals[..|arrivals| - 1])
      + SetFlows(cfg.dialect, fields, scope.exporter, a.times, a.payload)
  }

  /** The templates that are left after the packets of the arrivals have cleaned the cache. */
  function Aged(cfg: Config, cache: Cache, arrivals: seq<Arrival>): Cache {
    if arrivals == [] then cache
    else Cleaned(cfg, Aged(cfg, cache, arrivals[..|arrivals| - 1]), arrivals[|arrivals| - 1].now)
  }

  /** The flows of the arrivals whose templates are cached when they come. */
  function InPlace(cfg: Config, cache: Cache, scope: Scope, arrivals: seq<Arrival>): seq<FlowRecord> {
    if arrivals == [] then []
    else
      var a, aged := arrivals[|arrivals| - 1], Aged(cfg, cache, arrivals);
      InPlace(cfg, cache, scope, arrivals[..|arrivals| - 1])
      + if Decodable(aged, scope, a.id)
        then SetFlows(cfg.dialect, aged.templates[(scope, a.id)].fields, scope.exporter, a.times, a.payload)
        else []
  }

  /** The arrivals whose templates are not. */
  function Undecoded(cfg: Config, cache: Cache, scope: Scope, arrivals: seq<Arrival>): seq<Arrival> {
    if arrivals == [] then []
    else
      var a := arrivals[|arrivals| - 1];
      Undecoded(cfg, cache, scope, arrivals[..|arrivals| - 1])
      + if Decodable(Aged(cfg, cache, arrivals), scope, a.id) then [] else [a]
  }

  predicate DataIds(arrivals: seq<Arrival>) {
    forall i :: 0 <= i < |arrivals| ==> arrivals[i].id >= 256
  }

  lemma DeliverData(cfg: Config, cache: Cache, scope: Scope, a: Arrival)
    requires a.id >= 256
    ensures Deliver(cfg, cache, scope, DataPacket(a)) ==
            DataStep(cfg, Cleaned(cfg, cache, a.now), scope, a.times, a.now, RawSet(a.id, a.payload))
  {
    var start, s := Cleaned(cfg, cache, a.now), RawSet(a.id, a.payload);
    var step := SetStep(cfg, start, scope, a.times, a.now, s);
    assert Walk(cfg, start, scope, a.times, a.now, []) == Outcome(start, []);
    WalkOneMore(cfg, start, scope, a.times, a.now, [], s, Outcome(start, []), step);
    assert [] + [s] == [s] && [] + step.flows == step.flows;
  }

  lemma DataPacketsLast(arrivals: seq<Arrival>)
    requires arrivals != []
    ensures var n := |arrivals| - 1;
            DataPackets(arrivals) == DataPackets(arrivals[..n]) + [DataPacket(arrivals[n])]
  {
  }

  lemma StreamDataLast(cfg: Config, cache: Cache, scope: Scope, arrivals: seq<Arrival>)
    returns (before: Outcome, step: Outcome)
    requires arrivals != []
    ensures before == Stream(cfg, cache, scope, DataPackets(arrivals[..|arrivals| - 1]))
    ensures step == Deliver(cfg, before.cache, scope, DataPacket(arrivals[|arrivals| - 1]))
    ensures Stream(cfg, cache, scope, DataPackets(arrivals)) == Outcome(step.cache, before.flows + step.flows)
  {
    var init, a := arrivals[..|arrivals| - 1], arrivals[|arrivals| - 1];
    before := Stream(cfg, cache, scope, DataPackets(init));
    step := Deliver(cfg, before.cache, scope, DataPacket(a));
    DataPacketsLast(arrivals);
    StreamOneMore(cfg, cache, scope, DataPackets(init), DataPacket(a));
  }

  lemma PushLatest(arrivals: seq<Arrival>, a: Arrival)
    ensures Push(OrphansOf(Latest(arrivals)), OrphanOf(a)) == OrphansOf(Latest(arrivals + [a]))
  {
  }

  /** The state of a run: what the buffer holds, and which templates are cached. */
  predicate Holding(cache: Cache, scope: Scope, templates: map<(Scope, nat), Template>, waiting: seq<Arrival>) {
    Buffer(cache, scope) == OrphansOf(Latest(waiting)) && cache.templates == templates
  }

  /** What a run of data sets has given, and the state it has left. */
  predicate RunGives(cfg: Config, end: Outcome, cache: Cache, scope: Scope, waiting: seq<Arrival>,
                     arrivals: seq<Arrival>)
  {
    && end.flows == InPlace(cfg, cache, scope, arrivals)
    && Holding(end.cache, scope, Aged(cfg, cache, arrivals).templates, waiting + Undecoded(cfg, cache, scope, arrivals))
  }

  lemma DataRunStep(cfg: Config, before: Outcome, step: Outcome, cache: Cache, scope: Scope,
                    waiting: seq<Arrival>, arrivals: seq<Arrival>)
    requires arrivals != [] && RunGives(cfg, before, cache, scope, waiting, arrivals[..|arrivals| - 1])
    requires var a := arrivals[|arrivals| - 1];
             a.id >= 256 && step == Deliver(cfg, before.cache, scope, DataPacket(a))
    ensures RunGives(cfg, Outcome(step.cache, before.flows + step.flows), cache, scope, waiting, arrivals)
  {
    hide Deliver, SetFlows, TotalLength;
    var init, a := arrivals[..|arrivals| - 1], arrivals[|arrivals| - 1];
    var undecoded := Undecoded(cfg, cache, scope, init);
    DeliverData(cfg, before.cache, scope, a);
    assert Cleaned(cfg, before.cache, a.now).templates == Aged(cfg, cache, arrivals).templates;
    if Decodable(Aged(cfg, cache, arrivals), scope, a.id) {
      assert Undecoded(cfg, cache, scope, arrivals) == undecoded;
    } else {
      PushLatest(waiting + undecoded, a);
      ConcatAssoc(waiting, undecoded, [a]);
      assert before.flows + [] == before.flows;
    }
  }

  /** A run of data sets, from any state of the parser: those with a cached template are decoded as
      they come, the others wait behind those already waiting, as far as the buffer reaches. */
  lemma {:induction false} DataRun(cfg: Config, cache: Cache, scope: Scope, waiting: seq<Arrival>,
                                   arrivals: seq<Arrival>)
    requires DataIds(arrivals) && Buffer(cache, scope) == OrphansOf(Latest(waiting))
    ensures RunGives(cfg, Stream(cfg, cache, scope, DataPackets(arrivals)), cache, scope, waiting, arrivals)
    decreases |arrivals|
  {
    if arrivals == [] {
      assert waiting + [] == waiting;
    } else {
      hide Stream, RunGives, OrphansOf;
      DataRun(cfg, cache, scope, waiting, arrivals[..|arrivals| - 1]);
      var before, step := StreamDataLast(cfg, cache, scope, arrivals);
      DataRunStep(cfg, before, step, cache, scope, waiting, arrivals);
    }
  }

  lemma MatchingOneMore(cfg: Config, scope: Scope, fields: seq<Field>, arrivals: seq<Arrival>, id: nat)
    requires arrivals != [] && arrivals[|arrivals| - 1].id == id && TotalLength(fields) > 0
    ensures var init, a := arrivals[..|arrivals| - 1], arrivals[|arrivals| - 1];
            && Others(arrivals, id) == Others(init, id)
            && FlowsOfArrivals(cfg, scope, fields, Matching(arrivals, id)) ==
               FlowsOfArrivals(cfg, scope, fields, Matching(init, id))
                   + SetFlows(cfg.dialect, fields, scope.exporter, a.times, a.payload)
  {
    var init, a := arrivals[..|arrivals| - 1], arrivals[|arrivals| - 1];
    var m := Matching(init, id);
    assert (m + [a])[..|m|] == m;
    assert Others(init, id) + [] == Others(init, id);
  }

  lemma OthersOneMore(arrivals: seq<Arrival>, id: nat)
    requires arrivals != [] && arrivals[|arrivals| - 1].id != id
    ensures var init, a := arrivals[..|arrivals| - 1], arrivals[|arrivals| - 1];
            Matching(arrivals, id) == Matching(init, id) && Others(arrivals, id) == Others(init, id) + [a]
  {
    var init := arrivals[..|arrivals| - 1];
    assert Matching(init, id) + [] == Matching(init, id);
  }

  /** A template empties the buffer of its own sets: the young ones are decoded in order, and the
      young ones of other templates stay in order. */
  lemma {:induction false} DrainArrivals(cfg: Config, scope: Scope, fields: seq<Field>, id: nat, arrivals: seq<Arrival>,
                                         now: int)
    ensures DrainedFlows(cfg, scope, fields, OrphansOf(arrivals), id, now) ==
            FlowsOfArrivals(cfg, scope, fields, Matching(Young(cfg, arrivals, now), id))
    ensures Kept(cfg, OrphansOf(arrivals), id, now) == OrphansOf(Others(Young(cfg, arrivals, now), id))
    decreases |arrivals|
  {
    hide SetFlows, TotalLength;
    if arrivals != [] {
      var n := |arrivals| - 1;
      var init, a := arrivals[..n], arrivals[n];
      DrainArrivals(cfg, scope, fields, id, init, now);
      assert OrphansOf(arrivals)[..n] == OrphansOf(init);
      var young := Young(cfg, init, now);
      if now - a.now > cfg.orphanTtl {
        assert Young(cfg, arrivals, now) == young;
      } else {
        YoungOneMore(cfg, scope, fields, young, a, id);
        assert Young(cfg, arrivals, now) == young + [a];
      }
    }
  }

  lemma YoungOneMore(cfg: Config, scope: Scope, fields: seq<Field>, young: seq<Arrival>, a: Arrival, id: nat)
    ensures FlowsOfArrivals(cfg, scope, fields, Matching(young + [a], id)) ==
            FlowsOfArrivals(cfg, scope, fields, Matching(young, id))
            + if a.id == id && TotalLength(fields) > 0
                then SetFlows(cfg.dialect, fields, scope.exporter, a.times, a.payload) else []
    ensures OrphansOf(Others(young + [a], id)) ==
            OrphansOf(Others(young, id)) + if a.id == id then [] else [OrphanOf(a)]
  {
    hide SetFlows, TotalLength;
    assert (young + [a])[..|young|] == young;
    if a.id != id {
      OthersOneMore(young + [a], id);
      OrphansSnoc(Others(young, id), a);
    } else if TotalLength(fields) > 0 {
      MatchingOneMore(cfg, scope, fields, young + [a], id);
    } else {
      assert Others(young + [a], id) == Others(young, id);
    }
  }

  lemma OrphansSnoc(arrivals: seq<Arrival>, a: Arrival)
    ensures OrphansOf(arrivals + [a]) == OrphansOf(arrivals) + [OrphanOf(a)]
  {
  }

  /** A packet that carries one template record and nothing else. */
  predicate Announces(cfg: Config, p: Packet, id: nat, fields: seq<Field>) {
    && |p.sets| == 1 && p.sets[0].id == (if cfg.dialect.V9? then 0 else 2)
    && ReadTemplates(cfg.dialect, p.sets[0].payload, 0) == [(id, fields)]
  }

  lemma DeliverTemplate(cfg: Config, cache: Cache, scope: Scope, p: Packet, id: nat, fields: seq<Field>)
    requires Announces(cfg, p, id, fields)
    ensures Deliver(cfg, cache, scope, p) == Install(cfg, Cleaned(cfg, cache, p.now), scope, p.now, id, fields)
  {
    var start, s := Cleaned(cfg, cache, p.now), p.sets[0];
    var step := Install(cfg, start, scope, p.now, id, fields);
    InstallOneMore(cfg, start, scope, p.now, [], id, fields);
    assert [] + [(id, fields)] == [(id, fields)] && [] + step.flows == step.flows;
    assert Walk(cfg, start, scope, p.times, p.now, []) == Outcome(start, []);
    WalkOneMore(cfg, start, scope, p.times, p.now, [], s, Outcome(start, []), step);
    assert [] + [s] == p.sets;
  }

  /** The state after a template came behind a run of data sets. */
  function Announced(cfg: Config, cache: Cache, scope: Scope, before: seq<Arrival>, now: int, id: nat,
                     fields: seq<Field>): Cache
  {
    var aged := Cleaned(cfg, Aged(cfg, cache, before), now);
    aged.(templates := aged.templates[(scope, id) := Template(fields, now)])
  }

  /** A template releases its young sets among the latest hundred that wait. */
  lemma TemplateReleases(cfg: Config, cache: Cache, scope: Scope, id: nat, fields: seq<Field>,
                         waiting: seq<Arrival>, before: seq<Arrival>, p: Packet)
    returns (end: Outcome, young: seq<Arrival>)
    requires DataIds(before) && Buffer(cache, scope) == OrphansOf(Latest(waiting)) && Announces(cfg, p, id, fields)
    ensures end == Stream(cfg, cache, scope, DataPackets(before) + [p])
    ensures young == Young(cfg, Latest(waiting + Undecoded(cfg, cache, scope, before)), p.now)
    ensures end.flows == InPlace(cfg, cache, scope, before) + FlowsOfArrivals(cfg, scope, fields, Matching(young, id))
    ensures Buffer(end.cache, scope) == OrphansOf(Others(young, id))
    ensures end.cache.templates == Announced(cfg, cache, scope, before, p.now, id, fields).templates
  {
    hide Stream, Deliver, Latest, FlowsOfArrivals, DrainedFlows;
    var waited := Stream(cfg, cache, scope, DataPackets(before));
    DataRun(cfg, cache, scope, waiting, before);
    var all := Latest(waiting + Undecoded(cfg, cache, scope, before));
    StreamOneMore(cfg, cache, scope, DataPackets(before), p);
    end := Stream(cfg, cache, scope, DataPackets(before) + [p]);
    young := Young(cfg, all, p.now);
    DeliverTemplate(cfg, waited.cache, scope, p, id, fields);
    DrainArrivals(cfg, scope, fields, id, all, p.now);
    NothingDrained(cfg, scope, fields, id, p.now);
  }

  lemma NothingDrained(cfg: Config, scope: Scope, fields: seq<Field>, id: nat, now: int)
    ensures DrainedFlows(cfg, scope, fields, [], id, now) == [] && Kept(cfg, [], id, now) == []
  {
  }

  lemma {:induction false} YoungFits(cfg: Config, arrivals: seq<Arrival>, now: int, id: nat)
    ensures |Young(cfg, arrivals, now)| <= |arrivals| && |Others(arrivals, id)| <= |arrivals|
    decreases |arrivals|
  {
    if arrivals != [] {
      YoungFits(cfg, arrivals[..|arrivals| - 1], now, id);
    }
  }

  /** Wherever a template arrives among data sets of any templates, and whatever the parser holds:
      sets with a cached template are decoded as they come; the template releases its sets that could
      be kept until then (among the latest hundred and young enough), in order of arrival; the sets of
      other templates stay in order, and after it the run goes on with the template cached. */
  lemma TemplateAnywhere(cfg: Config, cache: Cache, scope: Scope, id: nat, fields: seq<Field>,
                         waiting: seq<Arrival>, before: seq<Arrival>, p: Packet, after: seq<Arrival>)
    requires DataIds(before) && DataIds(after) && Buffer(cache, scope) == OrphansOf(Latest(waiting))
    requires Announces(cfg, p, id, fields)
    ensures var end := Stream(cfg, cache, scope, DataPackets(before) + [p] + DataPackets(after));
            var young := Young(cfg, Latest(waiting + Undecoded(cfg, cache, scope, before)), p.now);
            var announced := Announced(cfg, cache, scope, before, p.now, id, fields);
            && end.flows == InPlace(cfg, cache, scope, before)
                + FlowsOfArrivals(cfg, scope, fields, Matching(young, id))
                + InPlace(cfg, announced, scope, after)
            && Buffer(end.cache, scope) ==
                OrphansOf(Latest(Others(young, id) + Undecoded(cfg, announced, scope, after)))
  {
    hide Stream, FlowsOfArrivals, InPlace, Undecoded, Young, Others, Matching, Announces;
    var middle, young := TemplateReleases(cfg, cache, scope, id, fields, waiting, before, p);
    YoungFits(cfg, Latest(waiting + Undecoded(cfg, cache, scope, before)), p.now, id);
    YoungFits(cfg, young, p.now, id);
    DataRun(cfg, middle.cache, scope, Others(young, id), after);
    SameTemplates(cfg, middle.cache, Announced(cfg, cache, scope, before, p.now, id, fields), scope, after);
    StreamSplit(cfg, cache, scope, DataPackets(before) + [p], DataPackets(after));
  }

  /** Only the cached templates decide what is decoded in place. */
  lemma {:induction false} SameTemplates(cfg: Config, a: Cache, b: Cache, scope: Scope, arrivals: seq<Arrival>)
    requires a.templates == b.templates
    ensures InPlace(cfg, a, scope, arrivals) == InPlace(cfg, b, scope, arrivals)
    ensures Undecoded(cfg, a, scope, arrivals) == Undecoded(cfg, b, scope, arrivals)
    ensures Aged(cfg, a, arrivals).templates == Aged(cfg, b, arrivals).templates
    decreases |arrivals|
  {
    hide SetFlows, TotalLength;
    if arrivals != [] {
      SameTemplates(cfg, a, b, scope, arrivals[..|arrivals| - 1]);
    }
  }

  // ------------------------------------------------------------------
  // Template first or last
  // ------------------------------------------------------------------

  /** A template outlives a run of arrivals when it is young enough at each of them. */
  lemma {:induction false} AgedKeeps(cfg: Config, cache: Cache, arrivals: seq<Arrival>, k: (Scope, nat))
    ensures k in Aged(cfg, cache, arrivals).templates <==>
            k in cache.templates
            && forall i :: 0 <= i < |arrivals| ==> arrivals[i].now - cache.templates[k].created <= cfg.templateTtl
    ensures k in Aged(cfg, cache, arrivals).templates ==> Aged(cfg, cache, arrivals).templates[k] == cache.templates[k]
    decreases |arrivals|
  {
    if arrivals != [] {
      var n := |arrivals| - 1;
      AgedKeeps(cfg, cache, arrivals[..n], k);
      assert arrivals == arrivals[..n] + [arrivals[n]];
    }
  }

  /** The packet comes no later than the arrivals, which come within the template's time. */
  predicate Follow(cfg: Config, now: int, arrivals: seq<Arrival>) {
    forall i :: 0 <= i < |arrivals| ==> now <= arrivals[i].now && arrivals[i].now - now <= cfg.templateTtl
  }

  /** Caching one template first changes nothing about the others at any arrival. */
  lemma AgedWithEarly(cfg: Config, cache: Cache, scope: Scope, now: int, id: nat, fields: seq<Field>,
                      arrivals: seq<Arrival>, other: nat)
    requires arrivals != [] && Follow(cfg, now, arrivals) && (scope, id) !in cache.templates
    ensures var early, late := Aged(cfg, Announced(cfg, cache, scope, [], now, id, fields), arrivals),
            Aged(cfg, cache, arrivals);
            && (scope, id) in early.templates && early.templates[(scope, id)].fields == fields
            && (scope, id) !in late.templates
            && (other != id ==> ((scope, other) in early.templates <==> (scope, other) in late.templates))
            && (other != id && (scope, other) in late.templates ==>
                early.templates[(scope, other)] == late.templates[(scope, other)])
  {
    hide Aged;
    var announced := Announced(cfg, cache, scope, [], now, id, fields);
    NothingAged(cfg, cache);
    AgedKeeps(cfg, announced, arrivals, (scope, id));
    AgedKeeps(cfg, cache, arrivals, (scope, id));
    AgedKeeps(cfg, announced, arrivals, (scope, other));
    AgedKeeps(cfg, cache, arrivals, (scope, other));
    assert now <= arrivals[0].now;
  }

  lemma NothingAged(cfg: Config, cache: Cache)
    ensures Aged(cfg, cache, []) == cache
  {
  }

  /** With its template cached first, a run decodes in place what it decoded before and, in order,
      the sets of the template; only the others wait. */
  predicate EarlyGives(cfg: Config, cache: Cache, early: Cache, scope: Scope, id: nat, fields: seq<Field>,
                       arrivals: seq<Arrival>)
  {
    var own := FlowsOfArrivals(cfg, scope, fields, Matching(arrivals, id));
    && multiset(InPlace(cfg, early, scope, arrivals)) == multiset(InPlace(cfg, cache, scope, arrivals)) + multiset(own)
    && (InPlace(cfg, cache, scope, arrivals) == [] ==> InPlace(cfg, early, scope, arrivals) == own)
    && Undecoded(cfg, early, scope, arrivals) == Others(Undecoded(cfg, cache, scope, arrivals), id)
    && FlowsOfArrivals(cfg, scope, fields, Matching(Undecoded(cfg, cache, scope, arrivals), id)) == own
  }

  lemma EarlyStep(cfg: Config, cache: Cache, early: Cache, scope: Scope, id: nat, fields: seq<Field>,
                  arrivals: seq<Arrival>)
    requires arrivals != [] && EarlyGives(cfg, cache, early, scope, id, fields, arrivals[..|arrivals| - 1])
    requires TotalLength(fields) > 0
    requires var a, with, without := arrivals[|arrivals| - 1], Aged(cfg, early, arrivals), Aged(cfg, cache, arrivals);
             if a.id == id then
               && (scope, id) in with.templates && with.templates[(scope, id)].fields == fields
               && (scope, id) !in without.templates
             else
               && ((scope, a.id) in with.templates <==> (scope, a.id) in without.templates)
               && ((scope, a.id) in with.templates ==>
                   with.templates[(scope, a.id)] == without.templates[(scope, a.id)])
    ensures EarlyGives(cfg, cache, early, scope, id, fields, arrivals)
  {
    hide SetFlows, TotalLength, Aged, InPlace, Undecoded, Matching, Others, FlowsOfArrivals;
    var init, a := arrivals[..|arrivals| - 1], arrivals[|arrivals| - 1];
    var undecoded := Undecoded(cfg, cache, scope, init);
    var late, waits := InPlaceOneMore(cfg, cache, scope, arrivals);
    var first, waits' := InPlaceOneMore(cfg, early, scope, arrivals);
    SnocFilters(undecoded, a, id);
    if a.id == id {
      MatchingOneMore(cfg, scope, fields, arrivals, id);
      YoungOneMore(cfg, scope, fields, undecoded, a, id);
      MultisetSum(InPlace(cfg, early, scope, init), InPlace(cfg, cache, scope, init),
                  FlowsOfArrivals(cfg, scope, fields, Matching(init, id)), [], first);
    } else {
      OthersOneMore(arrivals, id);
      MultisetSum(InPlace(cfg, early, scope, init), InPlace(cfg, cache, scope, init),
                  FlowsOfArrivals(cfg, scope, fields, Matching(init, id)), late, []);
      NothingAdded(undecoded);
      NothingAdded(Matching(undecoded, id));
      NothingAdded(late);
      NothingAdded(FlowsOfArrivals(cfg, scope, fields, Matching(init, id)));
      NothingAdded(Undecoded(cfg, early, scope, init));
      NothingAdded(InPlace(cfg, early, scope, init));
    }
  }

  lemma NothingAdded<T>(s: seq<T>)
    ensures s + [] == s
  {
  }

  /** One arrival more: what it gives in place, and whether it waits. */
  lemma InPlaceOneMore(cfg: Config, cache: Cache, scope: Scope, arrivals: seq<Arrival>)
    returns (step: seq<FlowRecord>, waits: seq<Arrival>)
    requires arrivals != []
    ensures var init, a, aged := arrivals[..|arrivals| - 1], arrivals[|arrivals| - 1], Aged(cfg, cache, arrivals);
            && InPlace(cfg, cache, scope, arrivals) == InPlace(cfg, cache, scope, init) + step
            && Undecoded(cfg, cache, scope, arrivals) == Undecoded(cfg, cache, scope, init) + waits
            && if Decodable(aged, scope, a.id) then
                 && step == SetFlows(cfg.dialect, aged.templates[(scope, a.id)].fields, scope.exporter, a.times,
                                     a.payload)
                 && waits == []
               else step == [] && waits == [a]
  {
    hide SetFlows, TotalLength, Aged;
    var a, aged := arrivals[|arrivals| - 1], Aged(cfg, cache, arrivals);
    step, waits := [], [a];
    if Decodable(aged, scope, a.id) {
      step := SetFlows(cfg.dialect, aged.templates[(scope, a.id)].fields, scope.exporter, a.times, a.payload);
      waits := [];
    }
  }

  lemma MultisetSum(whole: seq<FlowRecord>, a: seq<FlowRecord>, b: seq<FlowRecord>, a': seq<FlowRecord>,
                    b': seq<FlowRecord>)
    requires multiset(whole) == multiset(a) + multiset(b)
    ensures multiset(whole + (a' + b')) == multiset(a + a') + multiset(b + b')
  {
  }

  lemma SnocFilters(arrivals: seq<Arrival>, a: Arrival, id: nat)
    ensures Matching(arrivals + [a], id) == Matching(arrivals, id) + if a.id == id then [a] else []
    ensures Others(arrivals + [a], id) == Others(arrivals, id) + if a.id == id then [] else [a]
  {
    assert (arrivals + [a])[..|arrivals|] == arrivals;
  }

  lemma {:induction false} EarlyInPlace(cfg: Config, cache: Cache, scope: Scope, now: int, id: nat, fields: seq<Field>,
                                        arrivals: seq<Arrival>)
    requires Follow(cfg, now, arrivals) && (scope, id) !in cache.templates && TotalLength(fields) > 0
    ensures EarlyGives(cfg, cache, Announced(cfg, cache, scope, [], now, id, fields), scope, id, fields, arrivals)
    decreases |arrivals|
  {
    hide TotalLength, Aged;
    if arrivals != [] {
      hide EarlyGives;
      EarlyInPlace(cfg, cache, scope, now, id, fields, arrivals[..|arrivals| - 1]);
      AgedWithEarly(cfg, cache, scope, now, id, fields, arrivals, arrivals[|arrivals| - 1].id);
      EarlyStep(cfg, cache, Announced(cfg, cache, scope, [], now, id, fields), scope, id, fields, arrivals);
    }
  }

  lemma {:induction false} AllYoung(cfg: Config, cache: Cache, scope: Scope, arrivals: seq<Arrival>, now: int)
    requires forall i :: 0 <= i < |arrivals| ==> now - arrivals[i].now <= cfg.orphanTtl
    ensures var undecoded := Undecoded(cfg, cache, scope, arrivals);
            |undecoded| <= |arrivals| && Young(cfg, undecoded, now) == undecoded
    decreases |arrivals|
  {
    hide Aged;
    if arrivals != [] {
      var init, a := arrivals[..|arrivals| - 1], arrivals[|arrivals| - 1];
      AllYoung(cfg, cache, scope, init, now);
      var undecoded := Undecoded(cfg, cache, scope, init);
      assert (undecoded + [a])[..|undecoded|] == undecoded;
      assert undecoded + [] == undecoded;
    }
  }

  lemma TemplateLast(cfg: Config, cache: Cache, scope: Scope, id: nat, fields: seq<Field>, arrivals: seq<Arrival>,
                     late: Packet)
    requires DataIds(arrivals) && Buffer(cache, scope) == [] && Announces(cfg, late, id, fields)
             && |arrivals| <= 100
    requires forall i :: 0 <= i < |arrivals| ==> late.now - arrivals[i].now <= cfg.orphanTtl
    ensures var end, undecoded := Stream(cfg, cache, scope, DataPackets(arrivals) + [late]),
            Undecoded(cfg, cache, scope, arrivals);
            && end.flows == InPlace(cfg, cache, scope, arrivals)
                + FlowsOfArrivals(cfg, scope, fields, Matching(undecoded, id))
            && Buffer(end.cache, scope) == OrphansOf(Others(undecoded, id))
  {
    hide Stream, FlowsOfArrivals, InPlace, Undecoded, Young, Others, Matching, Announces;
    assert OrphansOf(Latest([])) == [];
    var end, young := TemplateReleases(cfg, cache, scope, id, fields, [], arrivals, late);
    AllYoung(cfg, cache, scope, arrivals, late.now);
    assert [] + Undecoded(cfg, cache, scope, arrivals) == Undecoded(cfg, cache, scope, arrivals);
  }

  lemma TemplateFirst(cfg: Config, cache: Cache, scope: Scope, id: nat, fields: seq<Field>, arrivals: seq<Arrival>,
                      early: Packet)
    requires DataIds(arrivals) && Buffer(cache, scope) == [] && Announces(cfg, early, id, fields)
             && |arrivals| <= 100
    ensures var end := Stream(cfg, cache, scope, [early] + DataPackets(arrivals));
            var announced := Announced(cfg, cache, scope, [], early.now, id, fields);
            && end.flows == InPlace(cfg, announced, scope, arrivals)
            && Buffer(end.cache, scope) == OrphansOf(Latest(Undecoded(cfg, announced, scope, arrivals)))
  {
    hide Stream, InPlace, Undecoded, Announces, Deliver;
    StreamOfOne(cfg, cache, scope, early);
    DeliverTemplate(cfg, cache, scope, early, id, fields);
    var middle := Deliver(cfg, cache, scope, early);
    NothingAged(cfg, cache);
    assert OrphansOf(Latest([])) == [];
    var announced := Announced(cfg, cache, scope, [], early.now, id, fields);
    DataRun(cfg, middle.cache, scope, [], arrivals);
    SameTemplates(cfg, middle.cache, announced, scope, arrivals);
    StreamSplit(cfg, cache, scope, [early], DataPackets(arrivals));
    assert [] + InPlace(cfg, announced, scope, arrivals) == InPlace(cfg, announced, scope, arrivals);
    assert [] + Undecoded(cfg, announced, scope, arrivals) == Undecoded(cfg, announced, scope, arrivals);
  }

  /** At most a hundred data sets of any templates that arrive within the orphan time before a
      template give the same flows, and leave the same sets waiting, as when the template comes
      first; when no other template decodes any of them, the flows also come in the same order. */
  lemma TemplateOrderIrrelevant(cfg: Config, cache: Cache, scope: Scope, id: nat, fields: seq<Field>,
                                arrivals: seq<Arrival>, late: Packet, early: Packet)
    requires DataIds(arrivals) && Buffer(cache, scope) == [] && (scope, id) !in cache.templates
    requires Announces(cfg, late, id, fields) && Announces(cfg, early, id, fields) && TotalLength(fields) > 0
    requires |arrivals| <= 100 && Follow(cfg, early.now, arrivals)
    requires forall i :: 0 <= i < |arrivals| ==> late.now - arrivals[i].now <= cfg.orphanTtl
    ensures var lateRun := Stream(cfg, cache, scope, DataPackets(arrivals) + [late]);
            var earlyRun := Stream(cfg, cache, scope, [early] + DataPackets(arrivals));
            && multiset(lateRun.flows) == multiset(earlyRun.flows)
            && Buffer(lateRun.cache, scope) == Buffer(earlyRun.cache, scope)
            && (InPlace(cfg, cache, scope, arrivals) == [] ==>
                  lateRun.flows == earlyRun.flows == FlowsOfArrivals(cfg, scope, fields, Matching(arrivals, id)))
  {
    hide Stream, FlowsOfArrivals, InPlace, Undecoded, Others, Matching, Announces, Announced, TotalLength;
    TemplateLast(cfg, cache, scope, id, fields, arrivals, late);
    TemplateFirst(cfg, cache, scope, id, fields, arrivals, early);
    EarlyInPlace(cfg, cache, scope, early.now, id, fields, arrivals);
    AllYoung(cfg, cache, scope, arrivals, late.now);
    YoungFits(cfg, Undecoded(cfg, cache, scope, arrivals), late.now, id);
    var own := FlowsOfArrivals(cfg, scope, fields, Matching(arrivals, id));
    assert [] + own == own;
  }
}
