// What becomes of the data sets of a run: each is decoded at most once, and none waits for a
// template that is there (monitoring/flow/v9_parser.py, ipfix_parser.py).

module FlowOrphans {
  import opened Collections
  import opened Wire
  import opened FlowRecords
  import opened FlowSets
  import opened FlowStreams

  /** One decoding of one data set. */
  datatype Decoding = Decoding(fields: seq<Field>, orphan: Orphan)

  function FlowsOf(cfg: Config, scope: Scope, d: Decoding): seq<FlowRecord> {
    if TotalLength(d.fields) == 0 then []
    else SetFlows(cfg.dialect, d.fields, scope.exporter, d.orphan.times, d.orphan.payload)
  }

  function FlowsOfRun(cfg: Config, scope: Scope, ds: seq<Decoding>): seq<FlowRecord> {
    if ds == [] then [] else FlowsOfRun(cfg, scope, ds[..|ds| - 1]) + FlowsOf(cfg, scope, ds[|ds| - 1])
  }

  function SetsOf(ds: seq<Decoding>): multiset<Orphan> {
    if ds == [] then multiset{} else SetsOf(ds[..|ds| - 1]) + multiset{ds[|ds| - 1].orphan}
  }

  lemma {:induction false} RunConcat(cfg: Config, scope: Scope, a: seq<Decoding>, b: seq<Decoding>)
    ensures FlowsOfRun(cfg, scope, a + b) == FlowsOfRun(cfg, scope, a) + FlowsOfRun(cfg, scope, b)
    ensures SetsOf(a + b) == SetsOf(a) + SetsOf(b)
    decreases |b|
  {
    if b == [] {
      assert a + b == a;
      assert FlowsOfRun(cfg, scope, a) + [] == FlowsOfRun(cfg, scope, a);
    } else {
      var init, d := b[..|b| - 1], b[|b| - 1];
      RunConcat(cfg, scope, a, init);
      AppendOne(a, b);
      assert (a + b)[..|a + b| - 1] == a + init;
      ConcatAssoc(FlowsOfRun(cfg, scope, a), FlowsOfRun(cfg, scope, init), FlowsOf(cfg, scope, d));
    }
  }

  // ------------------------------------------------------------------
  // The decodings of a run
  // ------------------------------------------------------------------

  /** The waiting sets a template releases. */
  function Released(cfg: Config, fields: seq<Field>, buf: seq<Orphan>, id: nat, now: int): seq<Decoding> {
    if buf == [] then []
    else
      var o := buf[|buf| - 1];
      Released(cfg, fields, buf[..|buf| - 1], id, now)
      + if Expired(cfg, o, now) || o.id != id || TotalLength(fields) == 0 then [] else [Decoding(fields, o)]
  }

  function InstallDecodings(cfg: Config, cache: Cache, scope: Scope, now: int,
                            records: seq<(nat, seq<Field>)>): seq<Decoding>
  {
    if records == [] then []
    else
      var init, last := records[..|records| - 1], records[|records| - 1];
      var before := InstallAll(cfg, cache, scope, now, init).cache;
      InstallDecodings(cfg, cache, scope, now, init) + Released(cfg, last.1, Buffer(before, scope), last.0, now)
  }

  function SetDecodings(cfg: Config, cache: Cache, scope: Scope, times: Times, now: int, s: RawSet): seq<Decoding> {
    if s.id == TemplateSetId(cfg.dialect)
      then InstallDecodings(cfg, cache, scope, now, ReadTemplates(cfg.dialect, s.payload, 0))
    else if s.id >= 256 && Decodable(cache, scope, s.id) then
      [Decoding(cache.templates[(scope, s.id)].fields, Orphan(now, s.id, s.payload, times))]
    else []
  }

  function WalkDecodings(cfg: Config, cache: Cache, scope: Scope, times: Times, now: int,
                         sets: seq<RawSet>): seq<Decoding>
  {
    if sets == [] then []
    else
      var init := sets[..|sets| - 1];
      WalkDecodings(cfg, cache, scope, times, now, init)
      + SetDecodings(cfg, Walk(cfg, cache, scope, times, now, init).cache, scope, times, now, sets[|sets| - 1])
  }

  function StreamDecodings(cfg: Config, cache: Cache, scope: Scope, packets: seq<Packet>): seq<Decoding> {
    if packets == [] then []
    else
      var init, p := packets[..|packets| - 1], packets[|packets| - 1];
      var before := Stream(cfg, cache, scope, init).cache;
      StreamDecodings(cfg, cache, scope, init)
      + WalkDecodings(cfg, Cleaned(cfg, before, p.now), scope, p.times, p.now, p.sets)
  }

  /** The data sets of a packet, as they would wait. */
  function Arriving(times: Times, now: int, sets: seq<RawSet>): multiset<Orphan> {
    if sets == [] then multiset{}
    else
      var s := sets[|sets| - 1];
      Arriving(times, now, sets[..|sets| - 1])
          + if s.id >= 256 then multiset{Orphan(now, s.id, s.payload, times)} else multiset{}
  }

  function ArrivingInRun(packets: seq<Packet>): multiset<Orphan> {
    if packets == [] then multiset{}
    else
      var p := packets[|packets| - 1];
      ArrivingInRun(packets[..|packets| - 1]) + Arriving(p.times, p.now, p.sets)
  }

  // ------------------------------------------------------------------
  // The flows of a run come from its decodings
  // ------------------------------------------------------------------

  lemma NothingDecoded(cfg: Config, scope: Scope)
    ensures FlowsOfRun(cfg, scope, []) == [] && SetsOf([]) == multiset{}
  {
  }

  lemma OneDecoding(cfg: Config, scope: Scope, d: Decoding)
    ensures FlowsOfRun(cfg, scope, [d]) == FlowsOf(cfg, scope, d) && SetsOf([d]) == multiset{d.orphan}
  {
    assert [d][..0] == [];
    assert [] + FlowsOf(cfg, scope, d) == FlowsOf(cfg, scope, d);
  }

  lemma ReleasedOneMore(cfg: Config, scope: Scope, fields: seq<Field>, before: seq<Decoding>, o: Orphan)
    requires TotalLength(fields) > 0
    ensures FlowsOfRun(cfg, scope, before + [Decoding(fields, o)]) ==
            FlowsOfRun(cfg, scope, before) + SetFlows(cfg.dialect, fields, scope.exporter, o.times, o.payload)
    ensures SetsOf(before + [Decoding(fields, o)]) == SetsOf(before) + multiset{o}
  {
    RunConcat(cfg, scope, before, [Decoding(fields, o)]);
    OneDecoding(cfg, scope, Decoding(fields, o));
  }

  /** A template takes its sets out of the buffer and decodes each of them once; of the others it
      keeps some, in order. */
  lemma {:induction false} ReleasedOnce(cfg: Config, scope: Scope, fields: seq<Field>, buf: seq<Orphan>, id: nat,
                                        now: int)
    ensures DrainedFlows(cfg, scope, fields, buf, id, now) ==
            FlowsOfRun(cfg, scope, Released(cfg, fields, buf, id, now))
    ensures SetsOf(Released(cfg, fields, buf, id, now)) + multiset(Kept(cfg, buf, id, now)) <= multiset(buf)
    decreases |buf|
  {
    hide SetFlows, TotalLength;
    if buf != [] {
      var init, o := buf[..|buf| - 1], buf[|buf| - 1];
      ReleasedOnce(cfg, scope, fields, init, id, now);
      assert buf == init + [o];
      assert multiset(buf) == multiset(init) + multiset{o};
      var before := Released(cfg, fields, init, id, now);
      if Expired(cfg, o, now) || o.id != id || TotalLength(fields) == 0 {
        assert Released(cfg, fields, buf, id, now) == before;
      } else {
        assert Kept(cfg, buf, id, now) == Kept(cfg, init, id, now);
        ReleasedOneMore(cfg, scope, fields, before, o);
      }
    }
  }

  lemma InstallOnce(cfg: Config, cache: Cache, scope: Scope, now: int, id: nat, fields: seq<Field>)
    ensures var step, ds := Install(cfg, cache, scope, now, id, fields),
            Released(cfg, fields, Buffer(cache, scope), id, now);
            && step.flows == FlowsOfRun(cfg, scope, ds)
            && SetsOf(ds) + multiset(Buffer(step.cache, scope)) <= multiset(Buffer(cache, scope))
  {
    ReleasedOnce(cfg, scope, fields, Buffer(cache, scope), id, now);
  }

  lemma {:induction false} InstallAllOnce(cfg: Config, cache: Cache, scope: Scope, now: int,
                                          records: seq<(nat, seq<Field>)>)
    ensures var end, ds := InstallAll(cfg, cache, scope, now, records),
            InstallDecodings(cfg, cache, scope, now, records);
            && end.flows == FlowsOfRun(cfg, scope, ds)
            && SetsOf(ds) + multiset(Buffer(end.cache, scope)) <= multiset(Buffer(cache, scope))
    decreases |records|
  {
    hide Install, Released, Buffer, FlowsOfRun, SetsOf;
    NothingDecoded(cfg, scope);
    if records != [] {
      var init, last := records[..|records| - 1], records[|records| - 1];
      var before := InstallAll(cfg, cache, scope, now, init).cache;
      InstallAllOnce(cfg, cache, scope, now, init);
      InstallOnce(cfg, before, scope, now, last.0, last.1);
      RunConcat(cfg, scope, InstallDecodings(cfg, cache, scope, now, init),
                Released(cfg, last.1, Buffer(before, scope), last.0, now));
    }
  }

  lemma PushOnce(buf: seq<Orphan>, o: Orphan)
    ensures multiset(Push(buf, o)) <= multiset(buf) + multiset{o}
  {
    var all := buf + [o];
    assert multiset(all) == multiset(buf) + multiset{o};
    if |all| > BUFFER_SIZE {
      var cut := |all| - BUFFER_SIZE;
      assert all == all[..cut] + all[cut..];
      assert multiset(all) == multiset(all[..cut]) + multiset(all[cut..]);
    }
  }

  lemma SetOnce(cfg: Config, cache: Cache, scope: Scope, times: Times, now: int, s: RawSet)
    ensures var end, ds := SetStep(cfg, cache, scope, times, now, s), SetDecodings(cfg, cache, scope, times, now, s);
            && end.flows == FlowsOfRun(cfg, scope, ds)
            && SetsOf(ds) + multiset(Buffer(end.cache, scope))
               <= multiset(Buffer(cache, scope))
                   + if s.id >= 256 then multiset{Orphan(now, s.id, s.payload, times)} else multiset{}
  {
    if s.id == TemplateSetId(cfg.dialect) {
      InstallAllOnce(cfg, cache, scope, now, ReadTemplates(cfg.dialect, s.payload, 0));
    } else if s.id >= 256 {
      var o := Orphan(now, s.id, s.payload, times);
      if Decodable(cache, scope, s.id) {
        OneDecoding(cfg, scope, Decoding(cache.templates[(scope, s.id)].fields, o));
      } else {
        PushOnce(Buffer(cache, scope), o);
      }
    }
  }

  /** Two accounts in a row: what was decoded and what waits came from what waited and arrived. */
  lemma Accounted(ds: multiset<Orphan>, ds': multiset<Orphan>, w0: multiset<Orphan>, w1: multiset<Orphan>,
                  w2: multiset<Orphan>, came: multiset<Orphan>, came': multiset<Orphan>)
    requires ds + w1 <= w0 + came && ds' + w2 <= w1 + came'
    ensures (ds + ds') + w2 <= w0 + (came + came')
  {
    forall o ensures ((ds + ds') + w2)[o] <= (w0 + (came + came'))[o] {
      assert (ds + w1)[o] <= (w0 + came)[o];
      assert (ds' + w2)[o] <= (w1 + came')[o];
    }
  }

  lemma {:induction false} WalkOnce(cfg: Config, cache: Cache, scope: Scope, times: Times, now: int, sets: seq<RawSet>)
    ensures var end, ds := Walk(cfg, cache, scope, times, now, sets),
            WalkDecodings(cfg, cache, scope, times, now, sets);
            && end.flows == FlowsOfRun(cfg, scope, ds)
            && SetsOf(ds) + multiset(Buffer(end.cache, scope)) <=
                multiset(Buffer(cache, scope)) + Arriving(times, now, sets)
    decreases |sets|
  {
    hide SetStep, SetDecodings, Buffer, FlowsOfRun, SetsOf;
    NothingDecoded(cfg, scope);
    if sets != [] {
      var init, s := sets[..|sets| - 1], sets[|sets| - 1];
      var before := Walk(cfg, cache, scope, times, now, init).cache;
      WalkOnce(cfg, cache, scope, times, now, init);
      SetOnce(cfg, before, scope, times, now, s);
      var ds, ds' := WalkDecodings(cfg, cache, scope, times, now, init),
          SetDecodings(cfg, before, scope, times, now, s);
      var end := SetStep(cfg, before, scope, times, now, s).cache;
      RunConcat(cfg, scope, ds, ds');
      Accounted(SetsOf(ds), SetsOf(ds'), multiset(Buffer(cache, scope)), multiset(Buffer(before, scope)),
                multiset(Buffer(end, scope)), Arriving(times, now, init),
                if s.id >= 256 then multiset{Orphan(now, s.id, s.payload, times)} else multiset{});
    }
  }

  lemma BufferCleaned(cfg: Config, cache: Cache, scope: Scope, now: int)
    ensures Buffer(Cleaned(cfg, cache, now), scope) == Buffer(cache, scope)
  {
  }

  /** Over any run: the flows are those of the run's decodings in order, and the sets decoded
      together with those still waiting are among the sets that arrived, each counted once. So no
      data set is decoded twice, nor decoded while it still waits. */
  lemma {:induction false} DecodedAtMostOnce(cfg: Config, cache: Cache, scope: Scope, packets: seq<Packet>)
    ensures var end, ds := Stream(cfg, cache, scope, packets), StreamDecodings(cfg, cache, scope, packets);
            && end.flows == FlowsOfRun(cfg, scope, ds)
            && SetsOf(ds) + multiset(Buffer(end.cache, scope)) <=
                multiset(Buffer(cache, scope)) + ArrivingInRun(packets)
    decreases |packets|
  {
    hide Walk, WalkDecodings, Cleaned, Buffer, Arriving, FlowsOfRun, SetsOf;
    NothingDecoded(cfg, scope);
    if packets != [] {
      var init, p := packets[..|packets| - 1], packets[|packets| - 1];
      var before := Stream(cfg, cache, scope, init).cache;
      var start := Cleaned(cfg, before, p.now);
      DecodedAtMostOnce(cfg, cache, scope, init);
      BufferCleaned(cfg, before, scope, p.now);
      WalkOnce(cfg, start, scope, p.times, p.now, p.sets);
      var ds, ds' := StreamDecodings(cfg, cache, scope, init), WalkDecodings(cfg, start, scope, p.times, p.now, p.sets);
      var end := Deliver(cfg, before, scope, p).cache;
      RunConcat(cfg, scope, ds, ds');
      Accounted(SetsOf(ds), SetsOf(ds'), multiset(Buffer(cache, scope)), multiset(Buffer(before, scope)),
                multiset(Buffer(end, scope)), ArrivingInRun(init), Arriving(p.times, p.now, p.sets));
    }
  }

  // ------------------------------------------------------------------
  // No set waits for a template that is there
  // ------------------------------------------------------------------

  /** Every buffer holds at most a hundred sets, and none of a template that could decode it. */
  ghost predicate Tidy(cache: Cache) {
    forall scope {:trigger Buffer(cache, scope)} :: |Buffer(cache, scope)| <= 100 && NoneReady(cache, scope)
  }

  ghost predicate NoneReady(cache: Cache, scope: Scope) {
    forall i :: 0 <= i < |Buffer(cache, scope)| ==> !Decodable(cache, scope, Buffer(cache, scope)[i].id)
  }

  lemma {:induction false} KeptOthers(cfg: Config, buf: seq<Orphan>, id: nat, now: int, k: nat)
    requires k < |Kept(cfg, buf, id, now)|
    ensures Kept(cfg, buf, id, now)[k].id != id
    ensures exists j :: 0 <= j < |buf| && buf[j] == Kept(cfg, buf, id, now)[k]
    decreases |buf|
  {
    var init, o := buf[..|buf| - 1], buf[|buf| - 1];
    var before := Kept(cfg, init, id, now);
    if k < |before| {
      KeptOthers(cfg, init, id, now, k);
      var j :| 0 <= j < |init| && init[j] == before[k];
      assert buf[j] == before[k];
    } else {
      assert buf[|buf| - 1] == Kept(cfg, buf, id, now)[k];
    }
  }

  lemma {:induction false} KeptShorter(cfg: Config, buf: seq<Orphan>, id: nat, now: int)
    ensures |Kept(cfg, buf, id, now)| <= |buf|
    decreases |buf|
  {
    if buf != [] {
      KeptShorter(cfg, buf[..|buf| - 1], id, now);
    }
  }

  lemma InstallTidy(cfg: Config, cache: Cache, scope: Scope, now: int, id: nat, fields: seq<Field>)
    requires Tidy(cache)
    ensures Tidy(Install(cfg, cache, scope, now, id, fields).cache)
  {
    var next := Install(cfg, cache, scope, now, id, fields).cache;
    forall other ensures |Buffer(next, other)| <= BUFFER_SIZE && NoneReady(next, other) {
      assert |Buffer(cache, other)| <= BUFFER_SIZE && NoneReady(cache, other);
      if other == scope {
        var buf := Buffer(cache, scope);
        KeptShorter(cfg, buf, id, now);
        forall i | 0 <= i < |Buffer(next, scope)| ensures !Decodable(next, scope, Buffer(next, scope)[i].id) {
          KeptOthers(cfg, buf, id, now, i);
        }
      }
    }
  }

  lemma {:induction false} InstallAllTidy(cfg: Config, cache: Cache, scope: Scope, now: int,
                                          records: seq<(nat, seq<Field>)>)
    requires Tidy(cache)
    ensures Tidy(InstallAll(cfg, cache, scope, now, records).cache)
    decreases |records|
  {
    if records != [] {
      var init, last := records[..|records| - 1], records[|records| - 1];
      InstallAllTidy(cfg, cache, scope, now, init);
      InstallTidy(cfg, InstallAll(cfg, cache, scope, now, init).cache, scope, now, last.0, last.1);
    }
  }

  lemma DataTidy(cfg: Config, cache: Cache, scope: Scope, times: Times, now: int, s: RawSet)
    requires Tidy(cache)
    ensures Tidy(DataStep(cfg, cache, scope, times, now, s).cache)
  {
    if !Decodable(cache, scope, s.id) {
      var next := DataStep(cfg, cache, scope, times, now, s).cache;
      forall other ensures |Buffer(next, other)| <= BUFFER_SIZE && NoneReady(next, other) {
        assert |Buffer(cache, other)| <= BUFFER_SIZE && NoneReady(cache, other);
      }
    }
  }

  lemma {:induction false} WalkTidy(cfg: Config, cache: Cache, scope: Scope, times: Times, now: int, sets: seq<RawSet>)
    requires Tidy(cache)
    ensures Tidy(Walk(cfg, cache, scope, times, now, sets).cache)
    decreases |sets|
  {
    if sets != [] {
      var init, s := sets[..|sets| - 1], sets[|sets| - 1];
      WalkTidy(cfg, cache, scope, times, now, init);
      var before := Walk(cfg, cache, scope, times, now, init).cache;
      if s.id == TemplateSetId(cfg.dialect) {
        InstallAllTidy(cfg, before, scope, now, ReadTemplates(cfg.dialect, s.payload, 0));
      } else if s.id >= 256 {
        DataTidy(cfg, before, scope, times, now, s);
      }
    }
  }

  lemma CleanedTidy(cfg: Config, cache: Cache, now: int)
    requires Tidy(cache)
    ensures Tidy(Cleaned(cfg, cache, now))
  {
    var next := Cleaned(cfg, cache, now);
    forall other ensures |Buffer(next, other)| <= BUFFER_SIZE && NoneReady(next, other) {
      assert |Buffer(cache, other)| <= BUFFER_SIZE && NoneReady(cache, other);
    }
  }

  /** A datagram as received. */
  datatype Datagram = Datagram(exporter: string, now: int, data: seq<Byte>)

  function CacheAfter(cfg: Config, input: seq<Datagram>): Cache {
    if input == [] then Cache(map[], map[])
    else
      var d := input[|input| - 1];
      Parsed(cfg, CacheAfter(cfg, input[..|input| - 1]), d.exporter, d.now, d.data).cache
  }

  /** Whatever bytes arrive, from whatever exporters and on whatever clock, the cache stays tidy. */
  lemma {:induction false} AlwaysTidy(cfg: Config, input: seq<Datagram>)
    ensures Tidy(CacheAfter(cfg, input))
    decreases |input|
  {
    if input != [] {
      var d := input[|input| - 1];
      AlwaysTidy(cfg, input[..|input| - 1]);
      var before := CacheAfter(cfg, input[..|input| - 1]);
      var header := ReadHeader(cfg.dialect, d.data);
      if header.Some? {
        var h := header.value;
        CleanedTidy(cfg, before, d.now);
        WalkTidy(cfg, Cleaned(cfg, before, d.now), Scope(d.exporter, h.domain), h.times, d.now,
                 CutSets(d.data, HeaderSize(cfg.dialect), h.limit));
      }
    }
  }
}
