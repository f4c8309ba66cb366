// Rollup counters: sums over flows and the maps that hold them (monitoring/flow/aggregator.py).

module FlowCounters {
  import opened Collections
  import opened Options

  type Id = string

  const SENTINEL: Id := "00000000-0000-0000-0000-000000000000"
  const MAX_INTERFACE := 2147483647

  /** A flow that passed the consumer's parsing, with the correlator's answers. */
  datatype Flow = Flow(
    start: int,
    exporter: Option<Id>, srcEp: Option<Id>, dstEp: Option<Id>,
    srcIp: string, dstIp: string, srcPort: int, dstPort: int, protocol: int,
    bytes: int, packets: int, inIf: int, outIf: int)

  /** The keys of the two accumulators and of the conversation table. */
  datatype Key =
    | Conversation(bucket: int, exporter: Id, srcEp: Option<Id>, dstEp: Option<Id>,
                   srcIp: string, dstIp: string, protocol: int, port: int)
    | Row(bucket: int, exporter: Id, srcIp: string, dstIp: string, protocol: int, port: int)
    | Interface(bucket: int, exporter: Id, index: int)

  datatype Kind = Conversations | Rows | Interfaces

  function KindOf(k: Key): Kind {
    match k
    case Conversation(_, _, _, _, _, _, _, _) => Conversations
    case Row(_, _, _, _, _, _) => Rows
    case Interface(_, _, _) => Interfaces
  }

  /** One accumulator entry: [bytes, packets, flows] of a conversation or a table row, and
      [bytes in, bytes out, packets in, packets out, flows] of an interface. The flow count is last. */
  type Totals = seq<int>

  function Width(k: Key): nat { if k.Interface? then 5 else 3 }

  function Plus(a: Totals, b: Totals): (c: Totals)
    ensures |c| == |a|
  {
    seq(|a|, i requires 0 <= i < |a| => a[i] + if i < |b| then b[i] else 0)
  }

  function Minus(a: Totals, b: Totals): (c: Totals)
    ensures |c| == |a|
  {
    seq(|a|, i requires 0 <= i < |a| => a[i] - if i < |b| then b[i] else 0)
  }

  function Zero(k: Key): (z: Totals)
    ensures |z| == Width(k)
  {
    if k.Interface? then [0, 0, 0, 0, 0] else [0, 0, 0]
  }

  function FlowCount(a: Totals): int { if a == [] then 0 else a[|a| - 1] }

  lemma PlusZero(a: Totals, k: Key)
    requires |a| == Width(k)
    ensures Plus(a, Zero(k)) == a && Plus(Zero(k), a) == a
  {
  }

  lemma PlusAssoc(a: Totals, b: Totals, c: Totals)
    requires |a| == |b| == |c|
    ensures Plus(Plus(a, b), c) == Plus(a, Plus(b, c))
  {
  }

  lemma PlusSwap(a: Totals, b: Totals, c: Totals)
    requires |a| == |b| == |c|
    ensures Plus(Plus(a, b), c) == Plus(Plus(a, c), b)
  {
  }

  lemma PlusMinus(a: Totals, b: Totals)
    requires |a| == |b|
    ensures Minus(Plus(a, b), a) == b
  {
  }

  /** A total that counts no flow counts nothing at all. */
  predicate Clean(a: Totals, k: Key) { |a| == Width(k) && (FlowCount(a) > 0 || a == Zero(k)) }

  lemma PlusClean(a: Totals, b: Totals, k: Key)
    requires Clean(a, k) && Clean(b, k)
    ensures Clean(Plus(a, b), k)
    ensures FlowCount(Plus(a, b)) > 0 <==> FlowCount(a) > 0 || FlowCount(b) > 0
    ensures FlowCount(Plus(a, b)) == FlowCount(a) + FlowCount(b)
  {
    if b == Zero(k) {
      PlusZero(a, k);
    } else if a == Zero(k) {
      PlusZero(b, k);
    }
  }

  type Entries = map<Key, Totals>

  function Get(m: Entries, k: Key): Totals { if k in m then m[k] else Zero(k) }

  // ------------------------------------------------------------------
  // What one flow contributes
  // ------------------------------------------------------------------

  /** The start of the minute; floor also before the epoch. */
  function Minute(start: int): int { start - start % 60 }

  const SERVICE_PORTS := {8080, 8443, 3306, 5432, 6379, 9200}

  function ServicePort(src: int, dst: int): int {
    if src < 1024 && dst >= 1024 then src
    else if src in SERVICE_PORTS && dst > 10000 then src
    else dst
  }

  function KeyOf(f: Flow): Key {
    Conversation(Minute(f.start), f.exporter.GetOr(SENTINEL), f.srcEp, f.dstEp, f.srcIp, f.dstIp, f.protocol,
                 ServicePort(f.srcPort, f.dstPort))
  }

  /** The table row of a conversation: its key without the endpoints. */
  function RowOf(k: Key): Key {
    if k.Conversation? then Row(k.bucket, k.exporter, k.srcIp, k.dstIp, k.protocol, k.port) else k
  }

  predicate Identified(f: Flow) { f.exporter.Some? && f.exporter.value != SENTINEL }

  predicate CountsOn(f: Flow, interface: int) {
    Identified(f) && 0 < interface <= MAX_INTERFACE
  }

  /** Ingress counters go to the input interface only, egress counters to the output interface
      only, and the flow counts once on each interface it touches. */
  function Share(f: Flow, k: Key): (s: Totals)
    ensures Clean(s, k)
  {
    match k
    case Conversation(_, _, _, _, _, _, _, _) => if k == KeyOf(f) then [f.bytes, f.packets, 1] else Zero(k)
    case Row(_, _, _, _, _, _) => if k == RowOf(KeyOf(f)) then [f.bytes, f.packets, 1] else Zero(k)
    case Interface(bucket, exporter, index) =>
      if Some(exporter) == f.exporter && bucket == Minute(f.start) && CountsOn(f, index)
          && (index == f.inIf || index == f.outIf)
      then [if index == f.inIf then f.bytes else 0, if index == f.outIf then f.bytes else 0,
            if index == f.inIf then f.packets else 0, if index == f.outIf then f.packets else 0, 1]
      else Zero(k)
  }

  /** What the flows of h contribute to key k. */
  function Sum(h: seq<Flow>, k: Key): (s: Totals)
    ensures |s| == Width(k)
  {
    if h == [] then Zero(k) else Plus(Sum(h[..|h| - 1], k), Share(h[|h| - 1], k))
  }

  /** The map holds the sums of h for its kind of key, with an entry for exactly the keys that some
      flow touched. */
  ghost predicate Holds(kind: Kind, m: Entries, h: seq<Flow>) {
    forall k :: HoldsAt(kind, m, h, k)
  }

  ghost predicate HoldsAt(kind: Kind, m: Entries, h: seq<Flow>, k: Key) {
    && (k in m <==> KindOf(k) == kind && FlowCount(Sum(h, k)) > 0)
    && (k in m ==> m[k] == Sum(h, k))
  }

  ghost predicate Sized(m: Entries) {
    forall k :: k in m ==> |m[k]| == Width(k)
  }

  lemma HoldsSized(kind: Kind, m: Entries, h: seq<Flow>)
    requires Holds(kind, m, h)
    ensures Sized(m)
    ensures forall k :: k in m ==> KindOf(k) == kind
  {
    forall k | k in m ensures |m[k]| == Width(k) && KindOf(k) == kind {
      assert HoldsAt(kind, m, h, k);
    }
  }

  lemma {:induction false} SumConcat(a: seq<Flow>, b: seq<Flow>, k: Key)
    ensures Sum(a + b, k) == Plus(Sum(a, k), Sum(b, k))
    decreases |b|
  {
    if b == [] {
      assert a + b == a;
      PlusZero(Sum(a, k), k);
    } else {
      var init, last := b[..|b| - 1], b[|b| - 1];
      SumConcat(a, init, k);
      assert (a + b)[..|a + b| - 1] == a + init;
      PlusAssoc(Sum(a, k), Sum(init, k), Share(last, k));
    }
  }

  lemma SumSnoc(h: seq<Flow>, f: Flow, k: Key)
    ensures Sum(h + [f], k) == Plus(Sum(h, k), Share(f, k))
  {
    assert (h + [f])[..|h|] == h;
  }

  /** No flows, no bytes: a sum with flow count zero is zero in every counter. */
  lemma {:induction false} NoFlowsNoBytes(h: seq<Flow>, k: Key)
    ensures Clean(Sum(h, k), k)
    decreases |h|
  {
    if h != [] {
      NoFlowsNoBytes(h[..|h| - 1], k);
      PlusClean(Sum(h[..|h| - 1], k), Share(h[|h| - 1], k), k);
    }
  }

  lemma HoldsGet(kind: Kind, m: Entries, h: seq<Flow>, k: Key)
    requires Holds(kind, m, h) && KindOf(k) == kind
    ensures Get(m, k) == Sum(h, k)
  {
    NoFlowsNoBytes(h, k);
    assert HoldsAt(kind, m, h, k);
  }

  lemma HoldsNothing(kind: Kind)
    ensures Holds(kind, map[], [])
  {
    forall k ensures HoldsAt(kind, map[], [], k) {}
  }

  // ------------------------------------------------------------------
  // Accumulating one flow
  // ------------------------------------------------------------------

  function ConversationsAfter(m: Entries, f: Flow): Entries {
    m[KeyOf(f) := Plus(Get(m, KeyOf(f)), Share(f, KeyOf(f)))]
  }

  method AccumulateConversation(m: Entries, f: Flow) returns (m': Entries)
    requires Sized(m)
    ensures m' == ConversationsAfter(m, f)
  {
    var key := KeyOf(f);
    if key !in m {
      m' := m[key := [f.bytes, f.packets, 1]];
    } else {
      var e := m[key];
      m' := m[key := [e[0] + f.bytes, e[1] + f.packets, e[2] + 1]];
    }
    assert m'[key] == Plus(Get(m, key), Share(f, key));
  }

  lemma AccumulatedConversation(m: Entries, h: seq<Flow>, f: Flow)
    requires Holds(Conversations, m, h)
    ensures Holds(Conversations, ConversationsAfter(m, f), h + [f])
  {
    forall k ensures HoldsAt(Conversations, ConversationsAfter(m, f), h + [f], k) {
      CreditAt(Conversations, m, h, f, k);
    }
  }

  /** Crediting a flow's share to an entry, and leaving the others, keeps the sums. */
  lemma CreditAt(kind: Kind, m: Entries, h: seq<Flow>, f: Flow, k: Key)
    requires Holds(kind, m, h)
    ensures KindOf(k) == kind && Share(f, k) != Zero(k) ==>
              Sum(h + [f], k) == Plus(Get(m, k), Share(f, k)) && FlowCount(Sum(h + [f], k)) > 0
    ensures KindOf(k) != kind ==> k !in m
    ensures KindOf(k) == kind && Share(f, k) == Zero(k) ==>
              (k in m <==> FlowCount(Sum(h + [f], k)) > 0) && (k in m ==> m[k] == Sum(h + [f], k))
  {
    assert HoldsAt(kind, m, h, k);
    SumSnoc(h, f, k);
    NoFlowsNoBytes(h, k);
    PlusClean(Sum(h, k), Share(f, k), k);
    if KindOf(k) == kind {
      HoldsGet(kind, m, h, k);
      if Share(f, k) == Zero(k) {
        PlusZero(Sum(h, k), k);
      }
    }
  }

  function InKey(f: Flow, index: int): Key { Interface(Minute(f.start), f.exporter.GetOr(SENTINEL), index) }

  /** The ingress half: bytes and packets in, one flow. */
  method CreditIngress(m: Entries, f: Flow) returns (m': Entries)
    requires Sized(m)
    ensures m' == m[InKey(f, f.inIf) := Plus(Get(m, InKey(f, f.inIf)), [f.bytes, 0, f.packets, 0, 1])]
  {
    var key := InKey(f, f.inIf);
    if key !in m {
      m' := m[key := [f.bytes, 0, f.packets, 0, 1]];
    } else {
      var e := m[key];
      m' := m[key := [e[0] + f.bytes, e[1], e[2] + f.packets, e[3], e[4] + 1]];
    }
    assert m'[key] == Plus(Get(m, key), [f.bytes, 0, f.packets, 0, 1]);
  }

  /** The egress half; the flow count grows only when the interface differs from the ingress one. */
  method CreditEgress(m: Entries, f: Flow) returns (m': Entries)
    requires Sized(m)
    ensures m' == m[InKey(f, f.outIf) :=
                    Plus(Get(m, InKey(f, f.outIf)), [0, f.bytes, 0, f.packets, if f.outIf != f.inIf then 1 else 0])]
  {
    var key := InKey(f, f.outIf);
    var isDiff := f.outIf != f.inIf;
    if key !in m {
      m' := m[key := [0, f.bytes, 0, f.packets, if isDiff then 1 else 0]];
    } else {
      var e := m[key];
      m' := m[key := [e[0], e[1] + f.bytes, e[2], e[3] + f.packets, e[4]]];
      if isDiff {
        m' := m'[key := m'[key][4 := m'[key][4] + 1]];
      }
    }
    assert m'[key] == Plus(Get(m, key), [0, f.bytes, 0, f.packets, if isDiff then 1 else 0]);
  }

  function TouchedBy(f: Flow): set<(Id, int)> {
    (if CountsOn(f, f.inIf) then {(f.exporter.value, f.inIf)} else {})
    + (if CountsOn(f, f.outIf) then {(f.exporter.value, f.outIf)} else {})
  }

  /** Every touched interface entry grows by the flow's share of it. */
  function InterfacesAfter(m: Entries, f: Flow): Entries {
    var a, b := InKey(f, f.inIf), InKey(f, f.outIf);
    var m1 := if CountsOn(f, f.inIf) then m[a := Plus(Get(m, a), Share(f, a))] else m;
    if CountsOn(f, f.outIf) && f.outIf != f.inIf then m1[b := Plus(Get(m, b), Share(f, b))] else m1
  }

  /** The interface accumulator after one flow: the ingress entry first, then the egress entry. */
  method AccumulateInterfaces(m: Entries, f: Flow) returns (m': Entries, touched: set<(Id, int)>)
    requires Sized(m)
    ensures m' == InterfacesAfter(m, f)
    ensures touched == TouchedBy(f)
  {
    m', touched := m, {};
    if !Identified(f) {
      return;
    }
    if 0 < f.inIf <= MAX_INTERFACE {
      m' := CreditIngress(m', f);
      touched := touched + {(f.exporter.value, f.inIf)};
    }
    if 0 < f.outIf <= MAX_INTERFACE {
      m' := CreditEgress(m', f);
      touched := touched + {(f.exporter.value, f.outIf)};
    }
    HalvesMakeShare(m, f);
  }

  /** On one interface the two halves add up to the flow's share; on two, each half is one. */
  lemma HalvesMakeShare(m: Entries, f: Flow)
    requires Sized(m)
    ensures var a := InKey(f, f.inIf);
            CountsOn(f, f.inIf) && f.outIf == f.inIf ==>
              Plus(Plus(Get(m, a), [f.bytes, 0, f.packets, 0, 1]), [0, f.bytes, 0, f.packets, 0]) ==
                  Plus(Get(m, a), Share(f, a))
    ensures CountsOn(f, f.inIf) && f.outIf != f.inIf ==> Share(f, InKey(f, f.inIf)) == [f.bytes, 0, f.packets, 0, 1]
    ensures CountsOn(f, f.outIf) && f.outIf != f.inIf ==> Share(f, InKey(f, f.outIf)) == [0, f.bytes, 0, f.packets, 1]
  {
  }

  lemma AccumulatedInterfaces(m: Entries, h: seq<Flow>, f: Flow)
    requires Holds(Interfaces, m, h)
    ensures Holds(Interfaces, InterfacesAfter(m, f), h + [f])
  {
    forall k ensures HoldsAt(Interfaces, InterfacesAfter(m, f), h + [f], k) {
      CreditAt(Interfaces, m, h, f, k);
      InterfaceCredit(m, f, k);
    }
  }

  /** The two updates credit each interface key exactly the flow's share of it. */
  lemma InterfaceCredit(m: Entries, f: Flow, k: Key)
    ensures k.Interface? && Share(f, k) != Zero(k) ==>
            k in InterfacesAfter(m, f) && InterfacesAfter(m, f)[k] == Plus(Get(m, k), Share(f, k))
    ensures !(k.Interface? && Share(f, k) != Zero(k)) ==>
            (k in InterfacesAfter(m, f) <==> k in m) && (k in m ==> InterfacesAfter(m, f)[k] == m[k])
  {
  }

  // ------------------------------------------------------------------
  // Deducting a committed snapshot
  // ------------------------------------------------------------------

  /** The accumulator after the committed snapshot is taken off: an entry goes when its flow count
      reaches zero, whatever its bytes and packets read. */
  function Deducted(m: Entries, snap: Entries): Entries {
    map k | k in m && (k in snap ==> FlowCount(Minus(m[k], snap[k])) > 0) ::
        if k in snap then Minus(m[k], snap[k]) else m[k]
  }

  /** If the accumulator holds everything since some point and the snapshot the first part of it,
      deducting leaves exactly what arrived after the snapshot. Dropping entries loses nothing. */
  lemma DeductExact(kind: Kind, m: Entries, snap: Entries, before: seq<Flow>, after: seq<Flow>)
    requires Holds(kind, m, before + after) && Holds(kind, snap, before)
    ensures Holds(kind, Deducted(m, snap), after)
  {
    forall k ensures HoldsAt(kind, Deducted(m, snap), after, k) {
      DeductAt(kind, m, snap, before, after, k);
    }
  }

  lemma DeductAt(kind: Kind, m: Entries, snap: Entries, before: seq<Flow>, after: seq<Flow>, k: Key)
    requires Holds(kind, m, before + after) && Holds(kind, snap, before)
    ensures HoldsAt(kind, Deducted(m, snap), after, k)
  {
    SumConcat(before, after, k);
    NoFlowsNoBytes(before, k);
    NoFlowsNoBytes(after, k);
    assert HoldsAt(kind, m, before + after, k);
    assert HoldsAt(kind, snap, before, k);
    PlusClean(Sum(before, k), Sum(after, k), k);
    if k in snap {
      PlusMinus(Sum(before, k), Sum(after, k));
    } else if KindOf(k) == kind {
      PlusZero(Sum(after, k), k);
    }
  }

  /** The deduction loop, entry by entry. */
  method Deduct(m: Entries, snap: Entries) returns (m': Entries)
    ensures m' == Deducted(m, snap)
  {
    m' := m;
    var todo := snap.Keys;
    while todo != {}
      invariant todo <= snap.Keys
      invariant forall k :: k in todo ==> (k in m' <==> k in m) && (k in m ==> m'[k] == m[k])
      invariant forall k :: k !in todo ==>
                (k in m' <==> k in Deducted(m, snap)) && (k in m' ==> m'[k] == Deducted(m, snap)[k])
    {
      var k :| k in todo;
      todo := todo - {k};
      if k in m' {
        m' := m'[k := Minus(m'[k], snap[k])];
        if FlowCount(m'[k]) <= 0 {
          m' := m' - {k};
        }
      }
    }
  }

  // ------------------------------------------------------------------
  // Grouping entries into table rows
  // ------------------------------------------------------------------

  function Toward(m: Entries, k: Key, row: Key): Totals
    requires k in m
  {
    if RowOf(k) == row then m[k] else Zero(row)
  }

  /** The total of the entries among `keys` that belong to one row. */
  ghost function TotalOver(m: Entries, keys: set<Key>, row: Key): (t: Totals)
    requires keys <= m.Keys
    ensures |t| == Width(row)
  {
    if keys == {} then Zero(row) else Plus(TotalOver(m, keys - {Any(keys)}, row), Toward(m, Any(keys), row))
  }

  ghost function Any(keys: set<Key>): (k: Key)
    requires keys != {}
    ensures k in keys
  {
    var k :| k in keys;
    k
  }

  lemma TowardSized(m: Entries, k: Key, row: Key)
    requires Sized(m) && k in m
    ensures |Toward(m, k, row)| == Width(row)
  {
    assert RowOf(k) == row ==> Width(k) == Width(row);
  }

  /** The entries may be added up in any order. */
  lemma {:induction false} TotalOverAny(m: Entries, keys: set<Key>, row: Key, x: Key)
    requires Sized(m) && keys <= m.Keys && x in keys
    ensures TotalOver(m, keys, row) == Plus(TotalOver(m, keys - {x}, row), Toward(m, x, row))
    decreases keys
  {
    var k := Any(keys);
    if k != x {
      TotalOverAny(m, keys - {k}, row, x);
      TotalOverAny(m, keys - {x}, row, k);
      assert keys - {k} - {x} == keys - {x} - {k};
      TowardSized(m, k, row);
      TowardSized(m, x, row);
      PlusSwap(TotalOver(m, keys - {k} - {x}, row), Toward(m, x, row), Toward(m, k, row));
    }
  }

  function RowsAmong(keys: set<Key>): set<Key> { set k | k in keys :: RowOf(k) }

  ghost function Grouped(m: Entries): Entries {
    map row | row in RowsAmong(m.Keys) :: TotalOver(m, m.Keys, row)
  }

  /** The grouping loop: no row key appears twice in a batch. */
  method GroupRows(m: Entries) returns (rows: Entries)
    requires Sized(m)
    ensures rows == Grouped(m)
  {
    rows := map[];
    var todo := m.Keys;
    ghost var done: set<Key> := {};
    while todo != {}
      invariant todo <= m.Keys && done == m.Keys - todo
      invariant forall row :: row in rows <==> row in RowsAmong(done)
      invariant forall row :: row in rows ==> rows[row] == TotalOver(m, done, row)
    {
      var k :| k in todo;
      GroupOne(m, done, k);
      rows := rows[RowOf(k) := if RowOf(k) in rows then Plus(rows[RowOf(k)], m[k]) else m[k]];
      FinishOne(m.Keys, todo, k);
      todo, done := todo - {k}, done + {k};
    }
    assert done == m.Keys;
  }

  lemma GroupOne(m: Entries, before: set<Key>, k: Key)
    requires Sized(m) && before <= m.Keys && k in m.Keys && k !in before
    ensures RowsAmong(before + {k}) == RowsAmong(before) + {RowOf(k)}
    ensures forall row :: row != RowOf(k) ==> TotalOver(m, before + {k}, row) == TotalOver(m, before, row)
    ensures TotalOver(m, before + {k}, RowOf(k)) ==
            if RowOf(k) in RowsAmong(before) then Plus(TotalOver(m, before, RowOf(k)), m[k]) else m[k]
  {
    assert before + {k} - {k} == before;
    forall row | row != RowOf(k) ensures TotalOver(m, before + {k}, row) == TotalOver(m, before, row) {
      TotalOverAny(m, before + {k}, row, k);
      PlusZero(TotalOver(m, before, row), row);
    }
    TotalOverAny(m, before + {k}, RowOf(k), k);
    if RowOf(k) !in RowsAmong(before) {
      TotalOutside(m, before, RowOf(k));
      TowardSized(m, k, RowOf(k));
      PlusZero(m[k], RowOf(k));
    }
  }

  lemma {:induction false} TotalOutside(m: Entries, keys: set<Key>, row: Key)
    requires Sized(m) && keys <= m.Keys && row !in RowsAmong(keys)
    ensures TotalOver(m, keys, row) == Zero(row)
    decreases keys
  {
    if keys != {} {
      var k :| k in keys;
      TotalOverAny(m, keys, row, k);
      assert RowOf(k) in RowsAmong(keys);
      TotalOutside(m, keys - {k}, row);
      PlusZero(Zero(row), row);
    }
  }

  /** The flows of h whose conversation is among `keys`, counted towards one row. */
  ghost function SumAmong(h: seq<Flow>, keys: set<Key>, row: Key): (t: Totals)
    ensures |t| == Width(row)
  {
    if h == [] then Zero(row)
    else Plus(SumAmong(h[..|h| - 1], keys, row),
              if KeyOf(h[|h| - 1]) in keys then Share(h[|h| - 1], row) else Zero(row))
  }

  lemma {:induction false} AmongOneMore(h: seq<Flow>, keys: set<Key>, row: Key, k: Key)
    requires k !in keys && k.Conversation? && row.Row?
    ensures SumAmong(h, keys + {k}, row) ==
            Plus(SumAmong(h, keys, row), if RowOf(k) == row then Sum(h, k) else Zero(row))
    decreases |h|
  {
    if h == [] {
      PlusZero(Zero(row), row);
    } else {
      var init, f := h[..|h| - 1], h[|h| - 1];
      AmongOneMore(init, keys, row, k);
      var base := SumAmong(init, keys, row);
      var part := if RowOf(k) == row then Sum(init, k) else Zero(row);
      if KeyOf(f) == k {
        assert Share(f, row) == if RowOf(k) == row then Share(f, k) else Zero(row);
        PlusZero(base, row);
        PlusAssoc(base, part, Share(f, row));
        PlusZero(Zero(row), row);
      } else {
        assert Share(f, k) == Zero(k);
        PlusZero(Sum(init, k), k);
        PlusSwap(base, part, if KeyOf(f) in keys then Share(f, row) else Zero(row));
      }
    }
  }

  lemma {:induction false} AmongNone(h: seq<Flow>, row: Key)
    ensures SumAmong(h, {}, row) == Zero(row)
    decreases |h|
  {
    if h != [] {
      AmongNone(h[..|h| - 1], row);
      PlusZero(Zero(row), row);
    }
  }

  lemma {:induction false} AmongAll(h: seq<Flow>, keys: set<Key>, row: Key)
    requires forall f :: f in h ==> KeyOf(f) in keys
    ensures SumAmong(h, keys, row) == Sum(h, row)
    decreases |h|
  {
    if h != [] {
      AmongAll(h[..|h| - 1], keys, row);
      assert h[|h| - 1] in h;
    }
  }

  lemma {:induction false} TotalIsAmong(m: Entries, h: seq<Flow>, keys: set<Key>, row: Key)
    requires Holds(Conversations, m, h) && keys <= m.Keys && row.Row?
    ensures TotalOver(m, keys, row) == SumAmong(h, keys, row)
    decreases keys
  {
    if keys == {} {
      AmongNone(h, row);
    } else {
      var k :| k in keys;
      HoldsSized(Conversations, m, h);
      TotalOverAny(m, keys, row, k);
      TotalIsAmong(m, h, keys - {k}, row);
      assert HoldsAt(Conversations, m, h, k);
      AmongOneMore(h, keys - {k}, row, k);
      assert keys - {k} + {k} == keys;
      assert Toward(m, k, row) == if RowOf(k) == row then Sum(h, k) else Zero(row);
    }
  }

  lemma {:induction false} FlowHasEntry(h: seq<Flow>, f: Flow, k: Key)
    requires f in h && Share(f, k) != Zero(k)
    ensures FlowCount(Sum(h, k)) > 0
    decreases |h|
  {
    var init, last := h[..|h| - 1], h[|h| - 1];
    NoFlowsNoBytes(init, k);
    PlusClean(Sum(init, k), Share(last, k), k);
    if f != last {
      assert f in init;
      FlowHasEntry(init, f, k);
    }
  }

  lemma {:induction false} EntryHasFlow(h: seq<Flow>, k: Key) returns (f: Flow)
    requires FlowCount(Sum(h, k)) > 0
    ensures f in h && Share(f, k) != Zero(k)
    decreases |h|
  {
    f := h[|h| - 1];
    if Share(f, k) == Zero(k) {
      PlusZero(Sum(h[..|h| - 1], k), k);
      f := EntryHasFlow(h[..|h| - 1], k);
    }
  }

  /** The entries of a row add up to the row's own sum over the flows. */
  lemma TotalIsRowSum(m: Entries, h: seq<Flow>, row: Key)
    requires Holds(Conversations, m, h) && row.Row?
    ensures TotalOver(m, m.Keys, row) == Sum(h, row)
  {
    forall f | f in h ensures KeyOf(f) in m {
      FlowHasEntry(h, f, KeyOf(f));
      assert HoldsAt(Conversations, m, h, KeyOf(f));
    }
    TotalIsAmong(m, h, m.Keys, row);
    AmongAll(h, m.Keys, row);
  }

  /** The grouped batch holds the row sums of the flows the snapshot holds. */
  lemma GroupedHolds(m: Entries, h: seq<Flow>)
    requires Holds(Conversations, m, h)
    ensures Holds(Rows, Grouped(m), h)
  {
    forall row ensures HoldsAt(Rows, Grouped(m), h, row) {
      if row.Row? {
        TotalIsRowSum(m, h, row);
      }
      RowTouched(m, h, row);
    }
  }

  /** A row is in the batch exactly when some flow counts towards it. */
  lemma RowTouched(m: Entries, h: seq<Flow>, row: Key)
    requires Holds(Conversations, m, h)
    ensures row in RowsAmong(m.Keys) <==> row.Row? && FlowCount(Sum(h, row)) > 0
  {
    if row in RowsAmong(m.Keys) {
      var k :| k in m.Keys && RowOf(k) == row;
      assert HoldsAt(Conversations, m, h, k);
      var f := EntryHasFlow(h, k);
      FlowHasEntry(h, f, row);
    }
    if row.Row? && FlowCount(Sum(h, row)) > 0 {
      var f := EntryHasFlow(h, row);
      FlowHasEntry(h, f, KeyOf(f));
      assert HoldsAt(Conversations, m, h, KeyOf(f));
      assert RowOf(KeyOf(f)) in RowsAmong(m.Keys);
    }
  }

  // ------------------------------------------------------------------
  // The upsert
  // ------------------------------------------------------------------

  /** INSERT ... ON CONFLICT DO UPDATE SET counter = table.counter + EXCLUDED.counter. */
  function Upserted(table: Entries, rows: Entries): Entries {
    map p | p in table.Keys + rows.Keys ::
      if p in table && p in rows then Plus(table[p], rows[p]) else if p in table then table[p] else rows[p]
  }

  method Upsert(table: Entries, rows: Entries) returns (table': Entries)
    ensures table' == Upserted(table, rows)
  {
    table' := table;
    var todo := rows.Keys;
    while todo != {}
      invariant todo <= rows.Keys
      invariant forall p :: p in table' <==> p in table || (p in rows && p !in todo)
      invariant forall p :: p in table' ==>
                  table'[p] ==
                  if p in rows && p !in todo then (if p in table then Plus(table[p], rows[p]) else rows[p])
                  else table[p]
    {
      var p :| p in todo;
      table' := table'[p := if p in table' then Plus(table'[p], rows[p]) else rows[p]];
      todo := todo - {p};
    }
  }

  /** Writing the rows of the next flows extends the table by exactly those flows. */
  lemma UpsertExact(kind: Kind, table: Entries, rows: Entries, before: seq<Flow>, next: seq<Flow>)
    requires Holds(kind, table, before) && Holds(kind, rows, next)
    ensures Holds(kind, Upserted(table, rows), before + next)
  {
    forall p ensures HoldsAt(kind, Upserted(table, rows), before + next, p) {
      UpsertAt(kind, table, rows, before, next, p);
    }
  }

  lemma UpsertAt(kind: Kind, table: Entries, rows: Entries, before: seq<Flow>, next: seq<Flow>, p: Key)
    requires Holds(kind, table, before) && Holds(kind, rows, next)
    ensures HoldsAt(kind, Upserted(table, rows), before + next, p)
  {
    SumConcat(before, next, p);
    NoFlowsNoBytes(before, p);
    NoFlowsNoBytes(next, p);
    assert HoldsAt(kind, table, before, p);
    assert HoldsAt(kind, rows, next, p);
    PlusClean(Sum(before, p), Sum(next, p), p);
    if KindOf(p) == kind {
      PlusZero(Sum(before, p), p);
      PlusZero(Sum(next, p), p);
    }
  }
}
