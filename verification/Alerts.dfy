// Alert throttling: suppression below a failed parent, flapping quarantine and the rate limit
// (backend/app/services/alert_dispatcher.py).

module Alerts {
  import opened Collections

  /** Microseconds, the resolution of the timestamps. */
  type Time = int

  const MINUTE: Time := 60_000_000

  datatype Key = Key(channel: string, subject: string, severity: string)

  datatype Muted = Muted(incident: string, parent: string, expires: Time)

  /** The dispatcher's memory: last delivery per key, recent transitions per endpoint, and the
      endpoints muted below an open incident. */
  datatype Memory = Memory(sent: map<Key, Time>, seen: map<string, seq<Time>>, muted: map<string, Muted>)

  datatype Status = Delivered | Throttled | Failed

  /** A channel whose filters let the alert through, and what its provider would answer. */
  datatype Target = Target(channel: string, provider: Status)

  /** An empty endpoint stands for an alert about no endpoint. */
  datatype Event =
    | Prune(now: Time)
    | Opened(now: Time, incident: string, root: string, symptoms: seq<string>)
    | Resolved(now: Time, incident: string, root: string)
    | Alert(now: Time, endpoint: string, name: string, kind: string, severity: string, symptom: bool,
            targets: seq<Target>)

  datatype Outcome = Quarantined | Limited | Sent(status: Status)

  /** What the dispatcher decides about one alert. */
  datatype Answer = Silent | Suppressed | Handled(flapping: bool, outcomes: seq<Outcome>)

  // ------------------------------------------------------------------
  // The dispatcher
  // ------------------------------------------------------------------

  function Recent(times: seq<Time>, now: Time): seq<Time> {
    if times == [] then []
    else
      var t := times[|times| - 1];
      Recent(times[..|times| - 1], now) + if t >= now - 10 * MINUTE then [t] else []
  }

  function Window(seen: map<string, seq<Time>>, subject: string): seq<Time> {
    if subject in seen then seen[subject] else []
  }

  function PrunedWindows(seen: map<string, seq<Time>>, now: Time): map<string, seq<Time>> {
    map e | e in seen && Recent(seen[e], now) != [] :: Recent(seen[e], now)
  }

  function Pruned(m: Memory, now: Time): Memory {
    Memory(map k | k in m.sent && m.sent[k] >= now - 60 * MINUTE :: m.sent[k],
           PrunedWindows(m.seen, now),
           map c | c in m.muted && m.muted[c].expires >= now :: m.muted[c])
  }

  function Mute(muted: map<string, Muted>, symptoms: seq<string>, entry: Muted): map<string, Muted> {
    if symptoms == [] then muted
    else Mute(muted, symptoms[..|symptoms| - 1], entry)[symptoms[|symptoms| - 1] := entry]
  }

  function Unmute(muted: map<string, Muted>, incident: string, root: string): map<string, Muted> {
    map c | c in muted && muted[c].incident != incident && muted[c].parent != root :: muted[c]
  }

  function UnmuteBelow(muted: map<string, Muted>, parent: string): map<string, Muted> {
    map c | c in muted && muted[c].parent != parent :: muted[c]
  }

  predicate Recovered(severity: string) { severity == "UP" || severity == "RECOVERED" }

  /** An entry past its time is dropped when it is looked at. */
  function LookUp(muted: map<string, Muted>, endpoint: string, now: Time): (map<string, Muted>, bool) {
    if endpoint == "" || endpoint !in muted then (muted, false)
    else if now > muted[endpoint].expires then (muted - {endpoint}, false)
    else (muted, true)
  }

  function FlappingSubject(endpoint: string, name: string): string {
    if endpoint == "" then name else endpoint
  }

  function LimitSubject(endpoint: string, name: string, kind: string): string {
    if endpoint == "" then "event:" + kind + ":" + (if name == "" then "global" else name) else endpoint
  }

  function Observed(seen: map<string, seq<Time>>, subject: string, now: Time): map<string, seq<Time>> {
    seen[subject := Recent(Window(seen, subject) + [now], now)]
  }

  predicate RateLimited(sent: map<Key, Time>, k: Key, now: Time) {
    k in sent && now - sent[k] < 5 * MINUTE
  }

  function SendOne(sent: map<Key, Time>, k: Key, now: Time, flapping: bool, provider: Status): (map<Key, Time>, Outcome)
  {
    if flapping then (sent, Quarantined)
    else if RateLimited(sent, k, now) then (sent, Limited)
    else (if provider.Failed? then sent else sent[k := now], Sent(provider))
  }

  function SendAll(sent: map<Key, Time>, subject: string, severity: string, now: Time, flapping: bool,
                   targets: seq<Target>): (map<Key, Time>, seq<Outcome>)
  {
    if targets == [] then (sent, [])
    else
      var before := SendAll(sent, subject, severity, now, flapping, targets[..|targets| - 1]);
      var last := targets[|targets| - 1];
      var one := SendOne(before.0, Key(last.channel, subject, severity), now, flapping, last.provider);
      (one.0, before.1 + [one.1])
  }

  /** An alert that is not suppressed. */
  function Handle(m: Memory, e: Event): (Memory, Answer)
    requires e.Alert?
  {
    var subject := FlappingSubject(e.endpoint, e.name);
    var seen := Observed(m.seen, subject, e.now);
    var flapping := |seen[subject]| >= 4;
    var sends := SendAll(m.sent, LimitSubject(e.endpoint, e.name, e.kind), e.severity, e.now, flapping, e.targets);
    (Memory(sends.0, seen, m.muted), Handled(flapping, sends.1))
  }

  function Step(m: Memory, e: Event): (Memory, Answer) {
    match e
    case Prune(now) => (Pruned(m, now), Silent)
    case Opened(now, incident, root, symptoms) =>
      (m.(muted := Mute(m.muted, symptoms, Muted(incident, root, now + 30 * MINUTE))), Silent)
    case Resolved(now, incident, root) => (m.(muted := Unmute(m.muted, incident, root)), Silent)
    case Alert(now, endpoint, name, kind, severity, symptom, targets) =>
      var open := if Recovered(severity) && endpoint != "" then UnmuteBelow(m.muted, endpoint) else m.muted;
      var look := if symptom then (open, true) else LookUp(open, endpoint, now);
      var m' := m.(muted := look.0);
      if look.1 then (m', Suppressed) else Handle(m', e)
  }

  function Run(events: seq<Event>): (Memory, seq<Answer>) {
    if events == [] then (Memory(map[], map[], map[]), [])
    else
      var before := Run(events[..|events| - 1]);
      var step := Step(before.0, events[|events| - 1]);
      (step.0, before.1 + [step.1])
  }

  // ------------------------------------------------------------------
  // The full history
  // ------------------------------------------------------------------

  /** Everything that ever happened: every delivery, every transition, and the mutes that no
      resolution or recovery has lifted. Nothing is ever pruned. */
  datatype Ledger = Ledger(deliveries: seq<(Key, Time)>, transitions: seq<(string, Time)>, muted: map<string, Muted>)

  function TimesOf(transitions: seq<(string, Time)>, subject: string): seq<Time> {
    if transitions == [] then []
    else
      var t := transitions[|transitions| - 1];
      TimesOf(transitions[..|transitions| - 1], subject) + if t.0 == subject then [t.1] else []
  }

  /** At least four transitions in the ten minutes up to now. */
  predicate Flapping(transitions: seq<(string, Time)>, subject: string, now: Time) {
    |Recent(TimesOf(transitions, subject), now)| >= 4
  }

  /** Some delivery on the key is less than five minutes old. */
  predicate JustDelivered(deliveries: seq<(Key, Time)>, k: Key, now: Time) {
    exists i :: 0 <= i < |deliveries| && deliveries[i].0 == k && now - deliveries[i].1 < 5 * MINUTE
  }

  predicate StillMuted(muted: map<string, Muted>, endpoint: string, now: Time) {
    endpoint != "" && endpoint in muted && now <= muted[endpoint].expires
  }

  function RecordOne(deliveries: seq<(Key, Time)>, k: Key, now: Time, flapping: bool,
                     provider: Status): (seq<(Key, Time)>, Outcome)
  {
    if flapping then (deliveries, Quarantined)
    else if JustDelivered(deliveries, k, now) then (deliveries, Limited)
    else (if provider.Failed? then deliveries else deliveries + [(k, now)], Sent(provider))
  }

  function RecordAll(deliveries: seq<(Key, Time)>, subject: string, severity: string, now: Time, flapping: bool,
                     targets: seq<Target>): (seq<(Key, Time)>, seq<Outcome>)
  {
    if targets == [] then (deliveries, [])
    else
      var before := RecordAll(deliveries, subject, severity, now, flapping, targets[..|targets| - 1]);
      var last := targets[|targets| - 1];
      var one := RecordOne(before.0, Key(last.channel, subject, severity), now, flapping, last.provider);
      (one.0, before.1 + [one.1])
  }

  function RecordHandled(l: Ledger, e: Event): (Ledger, Answer)
    requires e.Alert?
  {
    var subject := FlappingSubject(e.endpoint, e.name);
    var transitions := l.transitions + [(subject, e.now)];
    var flapping := Flapping(transitions, subject, e.now);
    var sends := RecordAll(l.deliveries, LimitSubject(e.endpoint, e.name, e.kind), e.severity, e.now, flapping,
                           e.targets);
    (Ledger(sends.0, transitions, l.muted), Handled(flapping, sends.1))
  }

  function Record(l: Ledger, e: Event): (Ledger, Answer) {
    match e
    case Prune(now) => (l, Silent)
    case Opened(now, incident, root, symptoms) =>
      (l.(muted := Mute(l.muted, symptoms, Muted(incident, root, now + 30 * MINUTE))), Silent)
    case Resolved(now, incident, root) => (l.(muted := Unmute(l.muted, incident, root)), Silent)
    case Alert(now, endpoint, name, kind, severity, symptom, targets) =>
      var open := if Recovered(severity) && endpoint != "" then UnmuteBelow(l.muted, endpoint) else l.muted;
      var l' := l.(muted := open);
      if symptom || StillMuted(open, endpoint, now) then (l', Suppressed) else RecordHandled(l', e)
  }

  function History(events: seq<Event>): (Ledger, seq<Answer>) {
    if events == [] then (Ledger([], [], map[]), [])
    else
      var before := History(events[..|events| - 1]);
      var step := Record(before.0, events[|events| - 1]);
      (step.0, before.1 + [step.1])
  }

  // ------------------------------------------------------------------
  // The memory agrees with the history
  // ------------------------------------------------------------------

  function Last(deliveries: seq<(Key, Time)>, k: Key): seq<Time> {
    if deliveries == [] then []
    else
      var d := deliveries[|deliveries| - 1];
      if d.0 == k then [d.1] else Last(deliveries[..|deliveries| - 1], k)
  }

  predicate Ordered(deliveries: seq<(Key, Time)>, now: Time) {
    && (forall i :: 0 <= i < |deliveries| ==> deliveries[i].1 <= now)
    && (forall i, j :: 0 <= i < j < |deliveries| ==> deliveries[i].1 <= deliveries[j].1)
  }

  /** The last delivery on a key is remembered unless it is more than an hour old. */
  predicate SentAgrees(sent: map<Key, Time>, deliveries: seq<(Key, Time)>, k: Key, now: Time) {
    if k in sent then Last(deliveries, k) == [sent[k]]
    else Last(deliveries, k) == [] || Last(deliveries, k)[0] < now - 60 * MINUTE
  }

  predicate SeenAgrees(seen: map<string, seq<Time>>, transitions: seq<(string, Time)>, subject: string, now: Time) {
    Recent(Window(seen, subject), now) == Recent(TimesOf(transitions, subject), now)
  }

  /** A mute is remembered unless it has expired. */
  predicate MutedAgrees(kept: map<string, Muted>, all: map<string, Muted>, c: string, now: Time) {
    if c in kept then c in all && all[c] == kept[c] else c in all ==> all[c].expires < now
  }

  ghost predicate Agrees(m: Memory, l: Ledger, now: Time) {
    && Ordered(l.deliveries, now)
    && (forall k :: SentAgrees(m.sent, l.deliveries, k, now))
    && (forall s :: SeenAgrees(m.seen, l.transitions, s, now))
    && (forall c :: MutedAgrees(m.muted, l.muted, c, now))
  }

  // Windows

  lemma {:induction false} RecentOfRecent(times: seq<Time>, now: Time, later: Time)
    requires now <= later
    ensures Recent(Recent(times, now), later) == Recent(times, later)
    decreases |times|
  {
    if times != [] {
      var init, t := times[..|times| - 1], times[|times| - 1];
      RecentOfRecent(init, now, later);
      if t >= now - 10 * MINUTE {
        RecentOneMore(Recent(init, now), t, later);
      } else {
        assert Recent(times, now) == Recent(init, now);
      }
    }
  }

  lemma RecentOneMore(times: seq<Time>, t: Time, now: Time)
    ensures Recent(times + [t], now) == Recent(times, now) + if t >= now - 10 * MINUTE then [t] else []
  {
    assert (times + [t])[..|times|] == times;
  }

  lemma SeenLater(seen: map<string, seq<Time>>, transitions: seq<(string, Time)>, subject: string, now: Time,
                  later: Time)
    requires SeenAgrees(seen, transitions, subject, now) && now <= later
    ensures SeenAgrees(seen, transitions, subject, later)
  {
    RecentOfRecent(Window(seen, subject), now, later);
    RecentOfRecent(TimesOf(transitions, subject), now, later);
  }

  lemma SeenPruned(seen: map<string, seq<Time>>, transitions: seq<(string, Time)>, subject: string, now: Time)
    requires SeenAgrees(seen, transitions, subject, now)
    ensures SeenAgrees(PrunedWindows(seen, now), transitions, subject, now)
  {
    RecentOfRecent(Window(seen, subject), now, now);
    var pruned := PrunedWindows(seen, now);
    if subject in pruned {
      assert Window(pruned, subject) == Recent(Window(seen, subject), now);
    } else {
      assert Recent(Window(seen, subject), now) == [];
      assert Window(pruned, subject) == [];
    }
  }

  lemma TimesOneMore(transitions: seq<(string, Time)>, own: string, now: Time, subject: string)
    ensures TimesOf(transitions + [(own, now)], subject) ==
            TimesOf(transitions, subject) + if own == subject then [now] else []
  {
    assert (transitions + [(own, now)])[..|transitions|] == transitions;
  }

  /** One more transition is seen by the window and by the history alike. */
  lemma SeenObserved(seen: map<string, seq<Time>>, transitions: seq<(string, Time)>, own: string, now: Time,
                     subject: string)
    requires SeenAgrees(seen, transitions, subject, now)
    ensures SeenAgrees(Observed(seen, own, now), transitions + [(own, now)], subject, now)
    ensures own == subject ==> Observed(seen, own, now)[own] == Recent(TimesOf(transitions + [(own, now)], own), now)
  {
    TimesOneMore(transitions, own, now, subject);
    if own == subject {
      RecentOneMore(Window(seen, own), now, now);
      RecentOneMore(TimesOf(transitions, own), now, now);
      RecentOfRecent(Window(seen, own) + [now], now, now);
    } else {
      assert Window(Observed(seen, own, now), subject) == Window(seen, subject);
      assert TimesOf(transitions, subject) + [] == TimesOf(transitions, subject);
    }
  }

  // Deliveries

  lemma {:induction false} LastIsLatest(deliveries: seq<(Key, Time)>, k: Key, now: Time)
    requires Ordered(deliveries, now)
    ensures forall i :: 0 <= i < |deliveries| && deliveries[i].0 == k ==>
            Last(deliveries, k) != [] && deliveries[i].1 <= Last(deliveries, k)[0]
    ensures Last(deliveries, k) != [] ==>
            exists i :: 0 <= i < |deliveries| && deliveries[i] == (k, Last(deliveries, k)[0])
    decreases |deliveries|
  {
    if deliveries != [] {
      var n := |deliveries| - 1;
      var init := deliveries[..n];
      if deliveries[n].0 == k {
        assert deliveries[n] == (k, deliveries[n].1);
      } else {
        LastIsLatest(init, k, now);
        forall i | 0 <= i < |deliveries| && deliveries[i].0 == k
          ensures Last(deliveries, k) != [] && deliveries[i].1 <= Last(deliveries, k)[0]
        {
          assert init[i] == deliveries[i];
        }
        if Last(init, k) != [] {
          var i :| 0 <= i < |init| && init[i] == (k, Last(init, k)[0]);
          assert deliveries[i] == (k, Last(deliveries, k)[0]);
        }
      }
    }
  }

  /** The remembered time decides as the whole history does. */
  lemma LimitAgrees(sent: map<Key, Time>, deliveries: seq<(Key, Time)>, k: Key, now: Time)
    requires Ordered(deliveries, now) && SentAgrees(sent, deliveries, k, now)
    ensures RateLimited(sent, k, now) <==> JustDelivered(deliveries, k, now)
  {
    LastIsLatest(deliveries, k, now);
    if RateLimited(sent, k, now) {
      var i :| 0 <= i < |deliveries| && deliveries[i] == (k, Last(deliveries, k)[0]);
      assert deliveries[i].0 == k && now - deliveries[i].1 < 5 * MINUTE;
    }
  }

  lemma LastOneMore(deliveries: seq<(Key, Time)>, own: Key, now: Time, k: Key)
    ensures Last(deliveries + [(own, now)], k) == if own == k then [now] else Last(deliveries, k)
  {
    assert (deliveries + [(own, now)])[..|deliveries|] == deliveries;
  }

  ghost predicate SentAllAgree(sent: map<Key, Time>, deliveries: seq<(Key, Time)>, now: Time) {
    Ordered(deliveries, now) && forall k :: SentAgrees(sent, deliveries, k, now)
  }

  lemma SendOneAgrees(sent: map<Key, Time>, deliveries: seq<(Key, Time)>, k: Key, now: Time, flapping: bool,
                      provider: Status)
    requires SentAllAgree(sent, deliveries, now)
    ensures var a, b := SendOne(sent, k, now, flapping, provider), RecordOne(deliveries, k, now, flapping, provider);
            a.1 == b.1 && SentAllAgree(a.0, b.0, now)
  {
    assert SentAgrees(sent, deliveries, k, now);
    LimitAgrees(sent, deliveries, k, now);
    var a, b := SendOne(sent, k, now, flapping, provider), RecordOne(deliveries, k, now, flapping, provider);
    if a.1.Sent? && !provider.Failed? {
      forall other ensures SentAgrees(a.0, b.0, other, now) {
        assert SentAgrees(sent, deliveries, other, now);
        LastOneMore(deliveries, k, now, other);
      }
    }
  }

  lemma {:induction false} SendAllAgrees(sent: map<Key, Time>, deliveries: seq<(Key, Time)>, subject: string,
                                         severity: string, now: Time, flapping: bool, targets: seq<Target>)
    requires SentAllAgree(sent, deliveries, now)
    ensures var a, b := SendAll(sent, subject, severity, now, flapping, targets),
            RecordAll(deliveries, subject, severity, now, flapping, targets);
            a.1 == b.1 && SentAllAgree(a.0, b.0, now)
    decreases |targets|
  {
    if targets != [] {
      var init, last := targets[..|targets| - 1], targets[|targets| - 1];
      SendAllAgrees(sent, deliveries, subject, severity, now, flapping, init);
      SendOneAgrees(SendAll(sent, subject, severity, now, flapping, init).0,
                    RecordAll(deliveries, subject, severity, now, flapping, init).0,
                    Key(last.channel, subject, severity), now, flapping, last.provider);
    }
  }

  // Mutes

  ghost predicate MutedAllAgree(kept: map<string, Muted>, all: map<string, Muted>, now: Time) {
    forall c :: MutedAgrees(kept, all, c, now)
  }

  lemma {:induction false} MuteAgrees(kept: map<string, Muted>, all: map<string, Muted>, now: Time,
                                      symptoms: seq<string>, entry: Muted)
    requires MutedAllAgree(kept, all, now)
    ensures MutedAllAgree(Mute(kept, symptoms, entry), Mute(all, symptoms, entry), now)
    decreases |symptoms|
  {
    if symptoms != [] {
      var init := symptoms[..|symptoms| - 1];
      MuteAgrees(kept, all, now, init, entry);
      forall c ensures MutedAgrees(Mute(kept, symptoms, entry), Mute(all, symptoms, entry), c, now) {
        assert MutedAgrees(Mute(kept, init, entry), Mute(all, init, entry), c, now);
      }
    }
  }

  lemma UnmuteAgrees(kept: map<string, Muted>, all: map<string, Muted>, now: Time, incident: string, root: string)
    requires MutedAllAgree(kept, all, now)
    ensures MutedAllAgree(Unmute(kept, incident, root), Unmute(all, incident, root), now)
    ensures MutedAllAgree(UnmuteBelow(kept, root), UnmuteBelow(all, root), now)
  {
    forall c ensures MutedAgrees(Unmute(kept, incident, root), Unmute(all, incident, root), c, now)
                  && MutedAgrees(UnmuteBelow(kept, root), UnmuteBelow(all, root), c, now) {
      assert MutedAgrees(kept, all, c, now);
    }
  }

  lemma LookUpAgrees(kept: map<string, Muted>, all: map<string, Muted>, endpoint: string, now: Time)
    requires MutedAllAgree(kept, all, now)
    ensures LookUp(kept, endpoint, now).1 <==> StillMuted(all, endpoint, now)
    ensures MutedAllAgree(LookUp(kept, endpoint, now).0, all, now)
  {
    assert MutedAgrees(kept, all, endpoint, now);
    forall c ensures MutedAgrees(LookUp(kept, endpoint, now).0, all, c, now) {
      assert MutedAgrees(kept, all, c, now);
    }
  }

  // Steps

  lemma AgreesLater(m: Memory, l: Ledger, now: Time, later: Time)
    requires Agrees(m, l, now) && now <= later
    ensures Agrees(m, l, later)
  {
    forall k ensures SentAgrees(m.sent, l.deliveries, k, later) {
      assert SentAgrees(m.sent, l.deliveries, k, now);
    }
    forall s ensures SeenAgrees(m.seen, l.transitions, s, later) {
      assert SeenAgrees(m.seen, l.transitions, s, now);
      SeenLater(m.seen, l.transitions, s, now, later);
    }
    forall c ensures MutedAgrees(m.muted, l.muted, c, later) {
      assert MutedAgrees(m.muted, l.muted, c, now);
    }
  }

  lemma PruneAgrees(m: Memory, l: Ledger, now: Time)
    requires Agrees(m, l, now)
    ensures Agrees(Pruned(m, now), l, now)
  {
    var p := Pruned(m, now);
    forall k ensures SentAgrees(p.sent, l.deliveries, k, now) {
      assert SentAgrees(m.sent, l.deliveries, k, now);
    }
    forall s ensures SeenAgrees(p.seen, l.transitions, s, now) {
      assert SeenAgrees(m.seen, l.transitions, s, now);
      SeenPruned(m.seen, l.transitions, s, now);
    }
    forall c ensures MutedAgrees(p.muted, l.muted, c, now) {
      assert MutedAgrees(m.muted, l.muted, c, now);
    }
  }

  lemma HandleAgrees(m: Memory, l: Ledger, e: Event)
    requires e.Alert? && Agrees(m, l, e.now)
    ensures Handle(m, e).1 == RecordHandled(l, e).1 && Agrees(Handle(m, e).0, RecordHandled(l, e).0, e.now)
  {
    var now, subject := e.now, FlappingSubject(e.endpoint, e.name);
    var seen, transitions := Observed(m.seen, subject, now), l.transitions + [(subject, now)];
    forall s ensures SeenAgrees(seen, transitions, s, now) {
      assert SeenAgrees(m.seen, l.transitions, s, now);
      SeenObserved(m.seen, l.transitions, subject, now, s);
    }
    assert SeenAgrees(m.seen, l.transitions, subject, now);
    SeenObserved(m.seen, l.transitions, subject, now, subject);
    assert SentAllAgree(m.sent, l.deliveries, now);
    SendAllAgrees(m.sent, l.deliveries, LimitSubject(e.endpoint, e.name, e.kind), e.severity, now,
                  Flapping(transitions, subject, now), e.targets);
  }

  lemma AlertAgrees(m: Memory, l: Ledger, e: Event)
    requires e.Alert? && Agrees(m, l, e.now)
    ensures Step(m, e).1 == Record(l, e).1 && Agrees(Step(m, e).0, Record(l, e).0, e.now)
  {
    var now := e.now;
    assert MutedAllAgree(m.muted, l.muted, now);
    UnmuteAgrees(m.muted, l.muted, now, "", e.endpoint);
    var clears := Recovered(e.severity) && e.endpoint != "";
    var kept := if clears then UnmuteBelow(m.muted, e.endpoint) else m.muted;
    var all := if clears then UnmuteBelow(l.muted, e.endpoint) else l.muted;
    assert MutedAllAgree(kept, all, now);
    LookUpAgrees(kept, all, e.endpoint, now);
    var look := if e.symptom then (kept, true) else LookUp(kept, e.endpoint, now);
    var m', l' := m.(muted := look.0), l.(muted := all);
    assert MutedAllAgree(m'.muted, l'.muted, now);
    assert Agrees(m', l', now);
    if !look.1 {
      HandleAgrees(m', l', e);
    }
  }

  lemma StepAgrees(m: Memory, l: Ledger, e: Event)
    requires Agrees(m, l, e.now)
    ensures Step(m, e).1 == Record(l, e).1 && Agrees(Step(m, e).0, Record(l, e).0, e.now)
  {
    match e {
      case Prune(now) => PruneAgrees(m, l, now);
      case Opened(now, incident, root, symptoms) =>
        assert MutedAllAgree(m.muted, l.muted, now);
        MuteAgrees(m.muted, l.muted, now, symptoms, Muted(incident, root, now + 30 * MINUTE));
      case Resolved(now, incident, root) =>
        assert MutedAllAgree(m.muted, l.muted, now);
        UnmuteAgrees(m.muted, l.muted, now, incident, root);
      case Alert(_, _, _, _, _, _, _) => AlertAgrees(m, l, e);
    }
  }

  // ------------------------------------------------------------------
  // Whole runs
  // ------------------------------------------------------------------

  /** The clock never runs backwards. */
  predicate Nondecreasing(events: seq<Event>) {
    forall i :: 0 < i < |events| ==> events[i - 1].now <= events[i].now
  }

  /** On a clock that never runs backwards, the pruned memory answers every event as the full
      history does: an alert is suppressed exactly while an unlifted mute has not expired, it is
      quarantined exactly at four transitions in ten minutes, and it is limited exactly within five
      minutes of a delivery on its key. */
  lemma {:induction false} MemoryIsHistory(events: seq<Event>)
    requires Nondecreasing(events)
    ensures Run(events).1 == History(events).1
    ensures events != [] ==> Agrees(Run(events).0, History(events).0, events[|events| - 1].now)
    decreases |events|
  {
    if events != [] {
      var init, e := events[..|events| - 1], events[|events| - 1];
      MemoryIsHistory(init);
      if init == [] {
        StartAgrees(e.now);
      } else {
        assert init[|init| - 1] == events[|events| - 2];
        AgreesLater(Run(init).0, History(init).0, init[|init| - 1].now, e.now);
      }
      StepAgrees(Run(init).0, History(init).0, e);
    }
  }

  lemma StartAgrees(now: Time)
    ensures Agrees(Run([]).0, History([]).0, now)
  {
  }

  /** The events that are not prunes, and the answers to them. */
  function Proper(events: seq<Event>): seq<Event> {
    if events == [] then []
    else
      var e := events[|events| - 1];
      Proper(events[..|events| - 1]) + if e.Prune? then [] else [e]
  }

  function Answered(events: seq<Event>, answers: seq<Answer>): seq<Answer>
    requires |events| == |answers|
  {
    if events == [] then []
    else
      var n := |events| - 1;
      Answered(events[..n], answers[..n]) + if events[n].Prune? then [] else [answers[n]]
  }

  lemma {:induction false} AnswerPerEvent(events: seq<Event>)
    ensures |Run(events).1| == |events| && |History(events).1| == |events|
    decreases |events|
  {
    if events != [] {
      AnswerPerEvent(events[..|events| - 1]);
    }
  }

  /** The history does not notice prunes. */
  lemma {:induction false} HistoryOfProper(events: seq<Event>)
    ensures |History(events).1| == |events|
    ensures History(Proper(events)).0 == History(events).0
    ensures History(Proper(events)).1 == Answered(events, History(events).1)
    decreases |events|
  {
    AnswerPerEvent(events);
    if events != [] {
      var n := |events| - 1;
      var init, e := events[..n], events[n];
      HistoryOfProper(init);
      assert History(events).1[..n] == History(init).1;
      var proper := Proper(init);
      if e.Prune? {
        assert Proper(events) == proper;
        assert Answered(events, History(events).1) == Answered(init, History(init).1);
      } else {
        assert Proper(events)[..|proper|] == proper;
      }
    }
  }

  /** Prunes are unobservable: two runs that differ only in when and how often they prune give the
      same answers. */
  lemma PruningUnobservable(a: seq<Event>, b: seq<Event>)
    requires Nondecreasing(a) && Nondecreasing(b) && Proper(a) == Proper(b)
    ensures |Run(a).1| == |a| && |Run(b).1| == |b|
    ensures Answered(a, Run(a).1) == Answered(b, Run(b).1)
  {
    AnswerPerEvent(a);
    AnswerPerEvent(b);
    MemoryIsHistory(a);
    MemoryIsHistory(b);
    HistoryOfProper(a);
    HistoryOfProper(b);
  }

  /** Two deliveries on one key are at least five minutes apart. */
  predicate Spaced(deliveries: seq<(Key, Time)>) {
    forall i, j :: 0 <= i < j < |deliveries| && deliveries[i].0 == deliveries[j].0 ==>
        deliveries[j].1 - deliveries[i].1 >= 5 * MINUTE
  }

  lemma {:induction false} RecordAllSpaced(deliveries: seq<(Key, Time)>, subject: string, severity: string, now: Time,
                                           flapping: bool, targets: seq<Target>)
    requires Spaced(deliveries)
    ensures Spaced(RecordAll(deliveries, subject, severity, now, flapping, targets).0)
    decreases |targets|
  {
    if targets != [] {
      RecordAllSpaced(deliveries, subject, severity, now, flapping, targets[..|targets| - 1]);
    }
  }

  lemma {:induction false} DeliveriesSpaced(events: seq<Event>)
    ensures Spaced(History(events).0.deliveries)
    decreases |events|
  {
    if events != [] {
      var init, e := events[..|events| - 1], events[|events| - 1];
      DeliveriesSpaced(init);
      if e.Alert? {
        var l := History(init).0;
        var subject := FlappingSubject(e.endpoint, e.name);
        var flapping := Flapping(l.transitions + [(subject, e.now)], subject, e.now);
        RecordAllSpaced(l.deliveries, LimitSubject(e.endpoint, e.name, e.kind), e.severity, e.now, flapping, e.targets);
      }
    }
  }

  /** The deliveries one answer reports. */
  function Reported(subject: string, severity: string, now: Time, targets: seq<Target>,
                    outcomes: seq<Outcome>): seq<(Key, Time)>
    requires |targets| == |outcomes|
  {
    if targets == [] then []
    else
      var n := |targets| - 1;
      Reported(subject, severity, now, targets[..n], outcomes[..n])
      + match outcomes[n]
        case Sent(status) => if status.Failed? then [] else [(Key(targets[n].channel, subject, severity), now)]
        case _ => []
  }

  /** What a run of the dispatcher reports as delivered. */
  function DeliveriesOf(events: seq<Event>): seq<(Key, Time)> {
    if events == [] then []
    else
      var e, answer := events[|events| - 1], Step(Run(events[..|events| - 1]).0, events[|events| - 1]).1;
      DeliveriesOf(events[..|events| - 1])
      + if e.Alert? && answer.Handled? && |answer.outcomes| == |e.targets|
        then Reported(LimitSubject(e.endpoint, e.name, e.kind), e.severity, e.now, e.targets, answer.outcomes)
        else []
  }

  lemma {:induction false} RecordAllReports(deliveries: seq<(Key, Time)>, subject: string, severity: string, now: Time,
                                            flapping: bool, targets: seq<Target>)
    ensures var r := RecordAll(deliveries, subject, severity, now, flapping, targets);
            |r.1| == |targets| && r.0 == deliveries + Reported(subject, severity, now, targets, r.1)
    decreases |targets|
  {
    if targets == [] {
      assert deliveries + [] == deliveries;
    } else {
      var n := |targets| - 1;
      RecordAllReports(deliveries, subject, severity, now, flapping, targets[..n]);
      var r := RecordAll(deliveries, subject, severity, now, flapping, targets);
      assert r.1[..n] == RecordAll(deliveries, subject, severity, now, flapping, targets[..n]).1;
    }
  }

  /** The history lists exactly the deliveries the dispatcher reported. */
  lemma {:induction false} DeliveriesRecorded(events: seq<Event>)
    requires Nondecreasing(events)
    ensures DeliveriesOf(events) == History(events).0.deliveries
    decreases |events|
  {
    if events != [] {
      var init, e := events[..|events| - 1], events[|events| - 1];
      DeliveriesRecorded(init);
      MemoryIsHistory(init);
      MemoryIsHistory(events);
      var l := History(init).0;
      assert Run(events).1[|init|] == Step(Run(init).0, e).1 by { AnswerPerEvent(init); }
      assert History(events).1[|init|] == Record(l, e).1 by { AnswerPerEvent(init); }
      if e.Alert? {
        var subject := FlappingSubject(e.endpoint, e.name);
        var flapping := Flapping(l.transitions + [(subject, e.now)], subject, e.now);
        RecordAllReports(l.deliveries, LimitSubject(e.endpoint, e.name, e.kind), e.severity, e.now, flapping,
                         e.targets);
      }
    }
  }

  /** On a clock that never runs backwards, however often the memory is pruned, two deliveries on
      one channel, subject and severity are at least five minutes apart. */
  lemma FiveMinutesApart(events: seq<Event>)
    requires Nondecreasing(events)
    ensures Spaced(DeliveriesOf(events))
  {
    DeliveriesRecorded(events);
    DeliveriesSpaced(events);
  }

  // ------------------------------------------------------------------
  // The dispatcher object
  // ------------------------------------------------------------------

  /** Empty windows are dropped, the others are cut down to their recent part. */
  method PruneWindows(seen: map<string, seq<Time>>, now: Time) returns (pruned: map<string, seq<Time>>)
    ensures pruned == PrunedWindows(seen, now)
  {
    pruned := seen;
    var todo := seen.Keys;
    while todo != {}
      invariant todo <= seen.Keys
      invariant forall e :: e in pruned ==> e in seen
      invariant forall e :: e in todo ==> e in pruned && pruned[e] == seen[e]
      invariant forall e :: e in seen.Keys - todo ==> (e in pruned <==> Recent(seen[e], now) != [])
      invariant forall e :: e in seen.Keys - todo && e in pruned ==> pruned[e] == Recent(seen[e], now)
      decreases |todo|
    {
      var e :| e in todo;
      FinishOne(seen.Keys, todo, e);
      todo := todo - {e};
      var active := Recent(seen[e], now);
      if active == [] {
        pruned := pruned - {e};
      } else {
        pruned := pruned[e := active];
      }
    }
  }

  class AlertDispatcher {
    var rateLimits: map<Key, Time>
    var flappingTracker: map<string, seq<Time>>
    var suppressedChildren: map<string, Muted>

    ghost function View(): Memory
      reads this
    {
      Memory(rateLimits, flappingTracker, suppressedChildren)
    }

    constructor ()
      ensures View() == Run([]).0
    {
      rateLimits, flappingTracker, suppressedChildren := map[], map[], map[];
    }

    method PruneMemoryCaches(now: Time)
      modifies this
      ensures View() == Pruned(old(View()), now)
    {
      rateLimits := map k | k in rateLimits && rateLimits[k] >= now - 60 * MINUTE :: rateLimits[k];
      flappingTracker := PruneWindows(flappingTracker, now);
      suppressedChildren := map c | c in suppressedChildren && suppressedChildren[c].expires >= now ::
          suppressedChildren[c];
    }

    method IsChildSuppressed(endpoint: string, now: Time) returns (suppressed: bool)
      modifies `suppressedChildren
      ensures (suppressedChildren, suppressed) == LookUp(old(suppressedChildren), endpoint, now)
    {
      if endpoint == "" || endpoint !in suppressedChildren {
        return false;
      }
      if now > suppressedChildren[endpoint].expires {
        suppressedChildren := suppressedChildren - {endpoint};
        return false;
      }
      return true;
    }

    method CheckFlapping(subject: string, now: Time) returns (flapping: bool)
      modifies `flappingTracker
      ensures flappingTracker == Observed(old(flappingTracker), subject, now)
      ensures flapping <==> |flappingTracker[subject]| >= 4
    {
      if subject !in flappingTracker {
        flappingTracker := flappingTracker[subject := []];
      }
      var window := flappingTracker[subject] + [now];
      flappingTracker := flappingTracker[subject := Recent(window, now)];
      return |flappingTracker[subject]| >= 4;
    }

    method EvaluateAndSendChannel(k: Key, now: Time, flapping: bool, provider: Status) returns (outcome: Outcome)
      modifies `rateLimits
      ensures (rateLimits, outcome) == SendOne(old(rateLimits), k, now, flapping, provider)
    {
      if flapping {
        return Quarantined;
      }
      if k in rateLimits && now - rateLimits[k] < 5 * MINUTE {
        return Limited;
      }
      if provider.Delivered? || provider.Throttled? {
        rateLimits := rateLimits[k := now];
      }
      return Sent(provider);
    }

    method SendToChannels(subject: string, severity: string, now: Time, flapping: bool, targets: seq<Target>)
      returns (outcomes: seq<Outcome>)
      modifies `rateLimits
      ensures (rateLimits, outcomes) == SendAll(old(rateLimits), subject, severity, now, flapping, targets)
    {
      outcomes := [];
      for i := 0 to |targets|
        invariant (rateLimits, outcomes) == SendAll(old(rateLimits), subject, severity, now, flapping, targets[..i])
      {
        assert targets[..i + 1][..i] == targets[..i];
        var outcome := EvaluateAndSendChannel(Key(targets[i].channel, subject, severity), now, flapping,
                                              targets[i].provider);
        outcomes := outcomes + [outcome];
      }
      assert targets[..|targets|] == targets;
    }

    method MuteSymptoms(symptoms: seq<string>, entry: Muted)
      modifies `suppressedChildren
      ensures suppressedChildren == Mute(old(suppressedChildren), symptoms, entry)
    {
      for i := 0 to |symptoms|
        invariant suppressedChildren == Mute(old(suppressedChildren), symptoms[..i], entry)
      {
        assert symptoms[..i + 1][..i] == symptoms[..i];
        suppressedChildren := suppressedChildren[symptoms[i] := entry];
      }
      assert symptoms[..|symptoms|] == symptoms;
    }

    method DispatchEvent(e: Event) returns (answer: Answer)
      modifies this
      ensures (View(), answer) == Step(old(View()), e)
    {
      hide Pruned, Mute, Observed, Recent, SendAll, LookUp, LimitSubject, FlappingSubject;
      answer := Silent;
      match e {
        case Prune(now) => PruneMemoryCaches(now);
        case Opened(now, incident, root, symptoms) =>
          MuteSymptoms(symptoms, Muted(incident, root, now + 30 * MINUTE));
        case Resolved(now, incident, root) =>
          suppressedChildren := map c | c in suppressedChildren && suppressedChildren[c].incident != incident
              && suppressedChildren[c].parent != root :: suppressedChildren[c];
        case Alert(now, endpoint, name, kind, severity, symptom, targets) =>
          if Recovered(severity) && endpoint != "" {
            suppressedChildren := map c | c in suppressedChildren && suppressedChildren[c].parent != endpoint ::
                suppressedChildren[c];
          }
          var suppressed := symptom;
          if !symptom {
            suppressed := IsChildSuppressed(endpoint, now);
          }
          if suppressed {
            return Suppressed;
          }
          var flapping := CheckFlapping(FlappingSubject(endpoint, name), now);
          var outcomes := SendToChannels(LimitSubject(endpoint, name, kind), severity, now, flapping, targets);
          answer := Handled(flapping, outcomes);
      }
    }
  }
}
