// When an alert is suppressed, quarantined or limited, in terms of the events and answers of a run
// alone (backend/app/services/alert_dispatcher.py).

module AlertRules {
  import opened Alerts

  // ------------------------------------------------------------------
  // Answers of a run
  // ------------------------------------------------------------------

  lemma {:induction false} AnswersPrefix(events: seq<Event>, n: nat)
    requires n <= |events|
    ensures |Run(events).1| == |events| && Run(events[..n]).1 == Run(events).1[..n]
    decreases |events|
  {
    AnswerPerEvent(events);
    if n == |events| {
      assert events[..n] == events;
    } else {
      var init := events[..|events| - 1];
      AnswersPrefix(init, n);
      assert init[..n] == events[..n];
      assert Run(events).1[..n] == Run(init).1[..n];
    }
  }

  /** The answer to an event is what the full history of the events before it says. */
  lemma AnswerIsRecord(events: seq<Event>, i: nat)
    requires Nondecreasing(events) && i < |events|
    ensures |Run(events).1| == |events|
    ensures Run(events).1[i] == Record(History(events[..i]).0, events[i]).1
  {
    var upTo := events[..i + 1];
    AnswersPrefix(events, i + 1);
    MemoryIsHistory(upTo);
    AnswerPerEvent(events[..i]);
    assert upTo[..i] == events[..i];
    assert Run(events).1[i] == Run(upTo).1[i];
  }

  lemma PrefixNondecreasing(events: seq<Event>, n: nat)
    requires Nondecreasing(events) && n <= |events|
    ensures Nondecreasing(events[..n])
  {
  }

  // ------------------------------------------------------------------
  // Suppression
  // ------------------------------------------------------------------

  /** An incident opens with c among its symptoms. */
  predicate Names(e: Event, c: string) { e.Opened? && c in e.symptoms }

  /** The incident is resolved, by its id or its root, or its root reports recovery. */
  predicate Lifts(e: Event, incident: string, root: string) {
    || (e.Resolved? && (e.incident == incident || e.root == root))
    || (e.Alert? && (e.severity == "UP" || e.severity == "RECOVERED") && e.endpoint != "" && e.endpoint == root)
  }

  /** The incident opened by event j is the latest to name c, and nothing has lifted it since. */
  predicate MutedBy(events: seq<Event>, j: int, c: string) {
    && 0 <= j < |events| && Names(events[j], c)
    && forall k :: j < k < |events| ==>
         !Names(events[k], c) && !Lifts(events[k], events[j].incident, events[j].root)
  }

  lemma {:induction false} MuteSets(muted: map<string, Muted>, symptoms: seq<string>, entry: Muted, c: string)
    ensures var after := Mute(muted, symptoms, entry);
            if c in symptoms then c in after && after[c] == entry
            else (c in after <==> c in muted) && (c in muted ==> after[c] == muted[c])
    decreases |symptoms|
  {
    if symptoms != [] {
      MuteSets(muted, symptoms[..|symptoms| - 1], entry, c);
    }
  }

  function MuteOf(e: Event): Muted
    requires e.Opened?
  {
    Muted(e.incident, e.root, e.now + 30 * 60_000_000)
  }

  /** One event's effect on the mute of c. */
  lemma MuteStep(l: Ledger, e: Event, c: string)
    ensures var muted := Record(l, e).0.muted;
            if Names(e, c) then c in muted && muted[c] == MuteOf(e)
            else
              && (c in muted <==> c in l.muted && !Lifts(e, l.muted[c].incident, l.muted[c].parent))
              && (c in muted ==> muted[c] == l.muted[c])
  {
    if e.Opened? {
      MuteSets(l.muted, e.symptoms, MuteOf(e), c);
    }
  }

  lemma MutedByOneMore(events: seq<Event>, j: int, c: string)
    requires events != []
    ensures var n := |events| - 1;
            MutedBy(events, j, c) <==>
            if Names(events[n], c) then j == n
            else MutedBy(events[..n], j, c) && !Lifts(events[n], events[j].incident, events[j].root)
  {
    var n := |events| - 1;
    if 0 <= j < n && MutedBy(events, j, c) {
      assert !Names(events[n], c) && !Lifts(events[n], events[j].incident, events[j].root);
    }
  }

  lemma {:induction false} StandingMute(events: seq<Event>, j: int, c: string)
    requires MutedBy(events, j, c)
    ensures c in History(events).0.muted && History(events).0.muted[c] == MuteOf(events[j])
    decreases |events|
  {
    hide Record, Names, Lifts;
    var n := |events| - 1;
    MutedByOneMore(events, j, c);
    MuteStep(History(events[..n]).0, events[n], c);
    if !Names(events[n], c) {
      StandingMute(events[..n], j, c);
    }
  }

  lemma {:induction false} MuteStands(events: seq<Event>, c: string) returns (j: int)
    requires c in History(events).0.muted
    ensures MutedBy(events, j, c)
    decreases |events|
  {
    hide Record, Names, Lifts;
    var n := |events| - 1;
    MuteStep(History(events[..n]).0, events[n], c);
    if Names(events[n], c) {
      j := n;
    } else {
      j := MuteStands(events[..n], c);
      StandingMute(events[..n], j, c);
    }
    MutedByOneMore(events, j, c);
  }

  /** A mute decides exactly as long as its incident stands, and for 30 minutes at most. */
  lemma MuteDecides(events: seq<Event>, c: string, now: Time)
    ensures StillMuted(History(events).0.muted, c, now) <==>
            c != "" && exists j :: MutedBy(events, j, c) && now - events[j].now <= 30 * 60_000_000
  {
    if StillMuted(History(events).0.muted, c, now) {
      var j := MuteStands(events, c);
      StandingMute(events, j, c);
    }
    if j :| MutedBy(events, j, c) && now - events[j].now <= 30 * 60_000_000 {
      StandingMute(events, j, c);
    }
  }

  /** An alert is suppressed exactly when it is marked as a symptom, or its endpoint is named by a
      standing incident that opened at most 30 minutes ago. */
  lemma SuppressedExactly(events: seq<Event>, i: nat)
    requires Nondecreasing(events) && i < |events| && events[i].Alert?
    ensures |Run(events).1| == |events|
    ensures var e, answer := events[i], Run(events).1[i];
            answer == Suppressed <==>
            || e.symptom
            || (e.endpoint != ""
                && exists j :: MutedBy(events[..i + 1], j, e.endpoint) && e.now - events[j].now <= 30 * 60_000_000)
    ensures Run(events).1[i].Suppressed? || Run(events).1[i].Handled?
  {
    var e, upTo := events[i], events[..i + 1];
    AnswerIsRecord(events, i);
    HistoryOneMore(events, i);
    SuppressedByMute(History(events[..i]).0, e);
    MuteDecides(upTo, e.endpoint, e.now);
  }

  lemma SuppressedByMute(l: Ledger, e: Event)
    requires e.Alert?
    ensures var r := Record(l, e);
            && (r.1.Suppressed? || r.1.Handled?)
            && (r.1 == Suppressed <==> e.symptom || StillMuted(r.0.muted, e.endpoint, e.now))
  {
  }

  // ------------------------------------------------------------------
  // Quarantine
  // ------------------------------------------------------------------

  /** What flaps: the endpoint, or the name of an alert about no endpoint. */
  predicate IsAbout(e: Event, subject: string) {
    e.Alert? && (if e.endpoint == "" then e.name else e.endpoint) == subject
  }

  /** The handled alerts about a subject since a time. */
  function HandledSince(events: seq<Event>, answers: seq<Answer>, subject: string, since: Time): nat
    requires |events| == |answers|
  {
    if events == [] then 0
    else
      var n := |events| - 1;
      HandledSince(events[..n], answers[..n], subject, since)
      + if IsAbout(events[n], subject) && answers[n].Handled? && events[n].now >= since then 1 else 0
  }

  lemma {:induction false} TransitionsCounted(events: seq<Event>, subject: string, now: Time)
    requires Nondecreasing(events)
    ensures |Run(events).1| == |events|
    ensures |Recent(TimesOf(History(events).0.transitions, subject), now)| ==
            HandledSince(events, Run(events).1, subject, now - 10 * 60_000_000)
    decreases |events|
  {
    AnswerPerEvent(events);
    if events != [] {
      var n := |events| - 1;
      var init, e := events[..n], events[n];
      TransitionsCounted(init, subject, now);
      AnswersPrefix(events, n);
      AnswerIsRecord(events, n);
      var before := History(init).0;
      TransitionStep(before, e);
      if e.Alert? && Run(events).1[n].Handled? {
        var own := if e.endpoint == "" then e.name else e.endpoint;
        TimesOneMore(before.transitions, own, e.now, subject);
        if own == subject {
          RecentOneMore(TimesOf(before.transitions, subject), e.now, now);
        } else {
          assert TimesOf(before.transitions, subject) + [] == TimesOf(before.transitions, subject);
        }
      }
    }
  }

  lemma CountedUpTo(events: seq<Event>, n: nat, subject: string, now: Time)
    requires Nondecreasing(events) && n <= |events|
    ensures |Run(events).1| == |events|
    ensures |Recent(TimesOf(History(events[..n]).0.transitions, subject), now)| ==
            HandledSince(events[..n], Run(events).1[..n], subject, now - 10 * 60_000_000)
  {
    hide Recent, TimesOf, HandledSince, Run, History, Nondecreasing;
    AnswersPrefix(events, n);
    PrefixNondecreasing(events, n);
    TransitionsCounted(events[..n], subject, now);
  }

  lemma TransitionStep(l: Ledger, e: Event)
    ensures var r := Record(l, e);
            r.0.transitions ==
            if e.Alert? && r.1.Handled?
            then l.transitions + [(if e.endpoint == "" then e.name else e.endpoint, e.now)] else l.transitions
  {
  }

  /** A handled alert is quarantined exactly when it is at least the fourth about its subject in ten
      minutes. */
  lemma FlappingExactly(events: seq<Event>, i: nat)
    requires Nondecreasing(events) && i < |events| && events[i].Alert?
    ensures |Run(events).1| == |events|
    ensures var e, answers := events[i], Run(events).1;
            var subject := if e.endpoint == "" then e.name else e.endpoint;
            answers[i].Handled? ==>
              (answers[i].flapping <==>
               HandledSince(events[..i + 1], answers[..i + 1], subject, e.now - 10 * 60_000_000) >= 4)
  {
    hide Record, Recent, TimesOf, HandledSince, Run, History, Nondecreasing;
    var e := events[i];
    CountedUpTo(events, i + 1, if e.endpoint == "" then e.name else e.endpoint, e.now);
    AnswerIsRecord(events, i);
    HistoryOneMore(events, i);
    FlappingByHistory(History(events[..i]).0, e);
  }

  lemma HistoryOneMore(events: seq<Event>, i: nat)
    requires i < |events|
    ensures History(events[..i + 1]).0 == Record(History(events[..i]).0, events[i]).0
  {
    assert events[..i + 1][..i] == events[..i];
  }

  lemma FlappingByHistory(l: Ledger, e: Event)
    requires e.Alert?
    ensures var r := Record(l, e);
            var subject := if e.endpoint == "" then e.name else e.endpoint;
            r.1.Handled? ==> (r.1.flapping <==> |Recent(TimesOf(r.0.transitions, subject), e.now)| >= 4)
  {
  }

  // ------------------------------------------------------------------
  // The rate limit
  // ------------------------------------------------------------------

  predicate Succeeded(o: Outcome) { o == Sent(Delivered) || o == Sent(Throttled) }

  /** The alert of event j went out on its u-th channel. */
  predicate WentOut(events: seq<Event>, answers: seq<Answer>, j: int, u: int) {
    && 0 <= j < |events| && j < |answers| && events[j].Alert? && answers[j].Handled?
    && 0 <= u < |events[j].targets| && u < |answers[j].outcomes| && Succeeded(answers[j].outcomes[u])
  }

  /** What the limit takes for one subject: the same endpoint, or no endpoint and the same kind and name. */
  predicate SameSubject(a: Event, b: Event)
    requires a.Alert? && b.Alert?
  {
    if a.endpoint != "" then b.endpoint == a.endpoint
    else
      && b.endpoint == "" && b.kind == a.kind
      && (if b.name == "" then "global" else b.name) == (if a.name == "" then "global" else a.name)
  }

  /** Endpoint ids do not look like the texts of alerts without an endpoint, and kinds have no colon. */
  predicate Proper(e: Event) { e.Alert? ==> !("event:" <= e.endpoint) && ':' !in e.kind }

  lemma SubjectsMeanAlerts(a: Event, b: Event)
    requires a.Alert? && b.Alert? && Proper(a) && Proper(b)
    ensures LimitSubject(a.endpoint, a.name, a.kind) == LimitSubject(b.endpoint, b.name, b.kind) <==> SameSubject(a, b)
  {
    var s, t := LimitSubject(a.endpoint, a.name, a.kind), LimitSubject(b.endpoint, b.name, b.kind);
    if a.endpoint == "" {
      assert "event:" <= s;
    }
    if b.endpoint == "" {
      assert "event:" <= t;
    }
    if a.endpoint == "" && b.endpoint == "" && s == t {
      KindAndName(a.kind, if a.name == "" then "global" else a.name, b.kind, if b.name == "" then "global" else b.name);
    }
  }

  lemma KindNotLonger(k: string, n: string, k': string, n': string)
    requires ':' !in k' && k + ":" + n == k' + ":" + n'
    ensures |k'| <= |k|
  {
    assert (k + ":" + n)[|k|] == ':';
    assert forall i :: 0 <= i < |k'| ==> (k' + ":" + n')[i] == k'[i];
  }

  lemma KindAndName(k: string, n: string, k': string, n': string)
    requires ':' !in k && ':' !in k' && "event:" + k + ":" + n == "event:" + k' + ":" + n'
    ensures k == k' && n == n'
  {
    var x, y := k + ":" + n, k' + ":" + n';
    assert ("event:" + k + ":" + n)[6..] == x && ("event:" + k' + ":" + n')[6..] == y;
    KindNotLonger(k, n, k', n');
    KindNotLonger(k', n', k, n);
    assert x[..|k|] == k && y[..|k'|] == k';
    assert x[|k| + 1..] == n && y[|k'| + 1..] == n';
  }

  function KeyAt(e: Event, u: int): Key
    requires e.Alert? && 0 <= u < |e.targets|
  {
    Key(e.targets[u].channel, LimitSubject(e.endpoint, e.name, e.kind), e.severity)
  }

  predicate ReportedAt(targets: seq<Target>, outcomes: seq<Outcome>, subject: string, severity: string, now: Time,
                       x: (Key, Time), u: int)
    requires |targets| == |outcomes|
  {
    0 <= u < |targets| && Succeeded(outcomes[u]) && x == (Key(targets[u].channel, subject, severity), now)
  }

  lemma {:induction false} ReportedMembers(targets: seq<Target>, outcomes: seq<Outcome>, subject: string,
                                           severity: string, now: Time, x: (Key, Time))
    requires |targets| == |outcomes|
    ensures x in Reported(subject, severity, now, targets, outcomes) <==>
            exists u :: ReportedAt(targets, outcomes, subject, severity, now, x, u)
    decreases |targets|
  {
    if targets != [] {
      var n := |targets| - 1;
      ReportedMembers(targets[..n], outcomes[..n], subject, severity, now, x);
      if u :| ReportedAt(targets[..n], outcomes[..n], subject, severity, now, x, u) {
        assert ReportedAt(targets, outcomes, subject, severity, now, x, u);
      }
      if u :| ReportedAt(targets, outcomes, subject, severity, now, x, u) && u < n {
        assert ReportedAt(targets[..n], outcomes[..n], subject, severity, now, x, u);
      }
      if Succeeded(outcomes[n]) && x == (Key(targets[n].channel, subject, severity), now) {
        assert ReportedAt(targets, outcomes, subject, severity, now, x, n);
      }
    }
  }

  predicate OutAs(events: seq<Event>, answers: seq<Answer>, x: (Key, Time), j: int, u: int) {
    WentOut(events, answers, j, u) && x == (KeyAt(events[j], u), events[j].now)
  }

  lemma {:induction false} SendAllLength(sent: map<Key, Time>, subject: string, severity: string, now: Time,
                                         flapping: bool, targets: seq<Target>)
    ensures |SendAll(sent, subject, severity, now, flapping, targets).1| == |targets|
    decreases |targets|
  {
    if targets != [] {
      SendAllLength(sent, subject, severity, now, flapping, targets[..|targets| - 1]);
    }
  }

  lemma OneOutcomePerTarget(m: Memory, e: Event)
    requires e.Alert?
    ensures Step(m, e).1.Handled? ==> |Step(m, e).1.outcomes| == |e.targets|
  {
    if Step(m, e).1.Handled? {
      SendAllLength(m.sent, LimitSubject(e.endpoint, e.name, e.kind), e.severity, e.now,
                    |Observed(m.seen, FlappingSubject(e.endpoint, e.name), e.now)[FlappingSubject(e.endpoint, e.name)]|
                    >= 4, e.targets);
    }
  }

  /** The deliveries of a run are the alerts that went out. */
  lemma {:induction false} DeliveriesMembers(events: seq<Event>, x: (Key, Time))
    ensures x in DeliveriesOf(events) <==> exists j, u :: OutAs(events, Run(events).1, x, j, u)
    decreases |events|
  {
    if events != [] {
      hide LimitSubject, Succeeded, Reported, Step;
      var n := |events| - 1;
      var init, e, answers := events[..n], events[n], Run(events).1;
      DeliveriesMembers(init, x);
      AnswersPrefix(events, n);
      AnswersPrefix(events, n + 1);
      var answer := Step(Run(init).0, e).1;
      assert answers[n] == answer;
      OutBefore(events, answers, x);
      if e.Alert? && answer.Handled? {
        OneOutcomePerTarget(Run(init).0, e);
        OutNow(events, answers, x);
      }
    }
  }

  lemma OutBefore(events: seq<Event>, answers: seq<Answer>, x: (Key, Time))
    requires events != [] && |answers| == |events|
    ensures var n := |events| - 1;
            (exists j, u :: OutAs(events[..n], answers[..n], x, j, u)) <==>
            exists j, u :: OutAs(events, answers, x, j, u) && j < n
  {
    hide LimitSubject, Succeeded;
    var n := |events| - 1;
    if j, u :| OutAs(events[..n], answers[..n], x, j, u) {
      assert OutAs(events, answers, x, j, u) && j < n;
    }
    if j, u :| OutAs(events, answers, x, j, u) && j < n {
      assert OutAs(events[..n], answers[..n], x, j, u);
    }
  }

  lemma OutNow(events: seq<Event>, answers: seq<Answer>, x: (Key, Time))
    requires events != [] && |answers| == |events|
    requires var e, answer := events[|events| - 1], answers[|events| - 1];
             e.Alert? && answer.Handled? && |answer.outcomes| == |e.targets|
    ensures var n, e := |events| - 1, events[|events| - 1];
            x in Reported(LimitSubject(e.endpoint, e.name, e.kind), e.severity, e.now, e.targets, answers[n].outcomes)
            <==> exists j, u :: OutAs(events, answers, x, j, u) && j == n
  {
    hide LimitSubject, Succeeded, Reported;
    var n, e := |events| - 1, events[|events| - 1];
    var subject, outcomes := LimitSubject(e.endpoint, e.name, e.kind), answers[n].outcomes;
    ReportedMembers(e.targets, outcomes, subject, e.severity, e.now, x);
    if u :| ReportedAt(e.targets, outcomes, subject, e.severity, e.now, x, u) {
      assert OutAs(events, answers, x, n, u) && n == n;
    }
    if j, u :| OutAs(events, answers, x, j, u) && j == n {
      assert ReportedAt(e.targets, outcomes, subject, e.severity, e.now, x, u);
    }
  }

  /** The outcome on one channel, from the deliveries before the alert and those on its earlier channels. */
  lemma {:induction false} OutcomeAt(deliveries: seq<(Key, Time)>, subject: string, severity: string, now: Time,
                                     flapping: bool, targets: seq<Target>, t: nat)
    requires t < |targets|
    ensures var r := RecordAll(deliveries, subject, severity, now, flapping, targets).1;
            && |r| == |targets|
            && RecordAll(deliveries, subject, severity, now, flapping, targets[..t]).1 == r[..t]
            && r[t] == RecordOne(RecordAll(deliveries, subject, severity, now, flapping, targets[..t]).0,
                                 Key(targets[t].channel, subject, severity), now, flapping, targets[t].provider).1
    decreases |targets|
  {
    var n := |targets| - 1;
    var init := targets[..n];
    RecordAllReports(deliveries, subject, severity, now, flapping, targets);
    RecordAllReports(deliveries, subject, severity, now, flapping, init);
    if t < n {
      OutcomeAt(deliveries, subject, severity, now, flapping, init, t);
      assert init[..t] == targets[..t];
    }
  }

  lemma HandledOutcomes(l: Ledger, e: Event)
    requires e.Alert?
    ensures var answer := Record(l, e).1;
            answer.Handled? ==>
              answer.outcomes == RecordAll(l.deliveries, LimitSubject(e.endpoint, e.name, e.kind), e.severity, e.now,
                                           answer.flapping, e.targets).1
  {
  }

  /** Event j on channel u comes before event i on channel t. */
  predicate Before(j: int, u: int, i: int, t: int) { j < i || (j == i && u < t) }

  /** The deliveries the limit looks at, for event i on channel t, are the alerts that went out before. */
  lemma EarlierDelivery(events: seq<Event>, i: nat, t: nat, x: (Key, Time))
    requires Nondecreasing(events) && i < |events| && events[i].Alert? && t < |events[i].targets|
    requires |Run(events).1| == |events| && Run(events).1[i].Handled?
    requires |Run(events).1[i].outcomes| == |events[i].targets|
    ensures var e, answers := events[i], Run(events).1;
            x in History(events[..i]).0.deliveries
                 + Reported(LimitSubject(e.endpoint, e.name, e.kind), e.severity, e.now, e.targets[..t],
                            answers[i].outcomes[..t]) <==>
            exists j, u :: Before(j, u, i, t) && OutAs(events, answers, x, j, u)
  {
    hide Run, History, LimitSubject, DeliveriesOf, Reported;
    var init, e, answers := events[..i], events[i], Run(events).1;
    AnswersPrefix(events, i);
    DeliveriesRecorded(init);
    DeliveriesMembers(init, x);
    var subject, outcomes := LimitSubject(e.endpoint, e.name, e.kind), answers[i].outcomes;
    ReportedMembers(e.targets[..t], outcomes[..t], subject, e.severity, e.now, x);
    if j, u :| OutAs(init, Run(init).1, x, j, u) {
      assert Before(j, u, i, t) && OutAs(events, answers, x, j, u);
    }
    if u :| ReportedAt(e.targets[..t], outcomes[..t], subject, e.severity, e.now, x, u) {
      assert Before(i, u, i, t) && OutAs(events, answers, x, i, u);
    }
    if j, u :| Before(j, u, i, t) && OutAs(events, answers, x, j, u) {
      if j < i {
        assert OutAs(init, Run(init).1, x, j, u);
      } else {
        assert ReportedAt(e.targets[..t], outcomes[..t], subject, e.severity, e.now, x, u);
      }
    }
  }

  /** Event j went out on channel u, before event i on channel t and less than five minutes ago, for the
      same channel, subject and severity. */
  predicate JustWentOut(events: seq<Event>, answers: seq<Answer>, i: int, t: int, j: int, u: int)
    requires 0 <= i < |events| && events[i].Alert? && 0 <= t < |events[i].targets|
  {
    && Before(j, u, i, t) && WentOut(events, answers, j, u)
    && events[j].targets[u].channel == events[i].targets[t].channel
    && SameSubject(events[i], events[j]) && events[j].severity == events[i].severity
    && events[i].now - events[j].now < 5 * 60_000_000
  }

  lemma JustDeliveredMember(deliveries: seq<(Key, Time)>, k: Key, now: Time)
    ensures JustDelivered(deliveries, k, now) <==>
            exists x :: x in deliveries && x.0 == k && now - x.1 < 5 * 60_000_000
  {
    if JustDelivered(deliveries, k, now) {
      var i :| 0 <= i < |deliveries| && deliveries[i].0 == k && now - deliveries[i].1 < 5 * MINUTE;
      assert deliveries[i] in deliveries;
    }
  }

  ghost predicate ArePrior(events: seq<Event>, i: nat, t: nat, deliveries: seq<(Key, Time)>) {
    forall x :: x in deliveries <==> exists j, u :: Before(j, u, i, t) && OutAs(events, Run(events).1, x, j, u)
  }

  lemma LimitFromAlert(events: seq<Event>, i: nat, t: nat, deliveries: seq<(Key, Time)>, j: int, u: int)
    requires i < |events| && events[i].Alert? && t < |events[i].targets| && forall e :: e in events ==> Proper(e)
    requires ArePrior(events, i, t, deliveries) && JustWentOut(events, Run(events).1, i, t, j, u)
    ensures JustDelivered(deliveries, KeyAt(events[i], t), events[i].now)
  {
    hide Run, LimitSubject, Proper, SameSubject;
    SubjectsMeanAlerts(events[i], events[j]);
    var x := (KeyAt(events[j], u), events[j].now);
    assert Before(j, u, i, t) && OutAs(events, Run(events).1, x, j, u);
    assert x in deliveries;
    JustDeliveredMember(deliveries, KeyAt(events[i], t), events[i].now);
  }

  lemma AlertFromLimit(events: seq<Event>, i: nat, t: nat, deliveries: seq<(Key, Time)>) returns (j: int, u: int)
    requires i < |events| && events[i].Alert? && t < |events[i].targets| && forall e :: e in events ==> Proper(e)
    requires ArePrior(events, i, t, deliveries) && JustDelivered(deliveries, KeyAt(events[i], t), events[i].now)
    ensures JustWentOut(events, Run(events).1, i, t, j, u)
  {
    hide Run, LimitSubject, Proper, SameSubject;
    var e, key := events[i], KeyAt(events[i], t);
    JustDeliveredMember(deliveries, key, e.now);
    var x :| x in deliveries && x.0 == key && e.now - x.1 < 5 * 60_000_000;
    j, u :| Before(j, u, i, t) && OutAs(events, Run(events).1, x, j, u);
    SubjectsMeanAlerts(e, events[j]);
  }

  /** The outcome of a handled alert on each of its channels: quarantined when its subject flaps;
      otherwise limited exactly when an alert with the same endpoint (or, without endpoint, the same
      kind and name) and severity went out on the same channel less than five minutes before;
      otherwise whatever the provider answers. */
  lemma LimitedExactly(events: seq<Event>, i: nat, t: nat)
    requires Nondecreasing(events) && forall e :: e in events ==> Proper(e)
    requires i < |events| && events[i].Alert? && t < |events[i].targets|
    ensures |Run(events).1| == |events|
    ensures var e, answers := events[i], Run(events).1;
            answers[i].Handled? ==>
              && |answers[i].outcomes| == |e.targets|
              && answers[i].outcomes[t] ==
                 if answers[i].flapping then Quarantined
                 else if exists j, u :: JustWentOut(events, answers, i, t, j, u) then Limited
                 else Sent(e.targets[t].provider)
  {
    hide Run, History, LimitSubject, Record, RecordAll, Reported, Proper, JustDelivered, JustWentOut;
    var e := events[i];
    AnswerIsRecord(events, i);
    var l, answer := History(events[..i]).0, Run(events).1[i];
    HandledOutcomes(l, e);
    if answer.Handled? {
      var subject := LimitSubject(e.endpoint, e.name, e.kind);
      OutcomeAt(l.deliveries, subject, e.severity, e.now, answer.flapping, e.targets, t);
      RecordAllReports(l.deliveries, subject, e.severity, e.now, answer.flapping, e.targets[..t]);
      var before := RecordAll(l.deliveries, subject, e.severity, e.now, answer.flapping, e.targets[..t]).0;
      forall x ensures x in before <==>
          exists j, u :: Before(j, u, i, t) && OutAs(events, Run(events).1, x, j, u) {
        EarlierDelivery(events, i, t, x);
      }
      if JustDelivered(before, KeyAt(e, t), e.now) {
        var j, u := AlertFromLimit(events, i, t, before);
      }
      if j, u :| JustWentOut(events, Run(events).1, i, t, j, u) {
        LimitFromAlert(events, i, t, before, j, u);
      }
    }
  }

  /** The text of an alert without endpoint does not tell where its kind ends: two different alerts
      share a limit when a kind holds a colon. */
  lemma KindsWithColonsClash()
    ensures LimitSubject("", "b:c", "a") == LimitSubject("", "c", "a:b")
  {
    assert "event:" + "a" + ":" + "b:c" == "event:a:b:c" == "event:" + "a:b" + ":" + "c";
  }

  // ------------------------------------------------------------------
  // Pruning
  // ------------------------------------------------------------------

  lemma {:induction false} RecentMembers(times: seq<Time>, now: Time, t: Time)
    ensures t in Recent(times, now) <==> t in times && t >= now - 10 * 60_000_000
    decreases |times|
  {
    if times != [] {
      RecentMembers(times[..|times| - 1], now, t);
    }
  }

  /** A prune keeps deliveries of the last hour, transitions of the last ten minutes and mutes that have
      not expired, and no subject without transitions. */
  lemma PruneKeeps(m: Memory, now: Time, k: Key, subject: string, t: Time, c: string)
    ensures var p := Pruned(m, now);
            && (k in p.sent <==> k in m.sent && m.sent[k] >= now - 60 * 60_000_000)
            && (k in p.sent ==> p.sent[k] == m.sent[k])
            && (t in Window(p.seen, subject) <==> t in Window(m.seen, subject) && t >= now - 10 * 60_000_000)
            && (subject in p.seen ==> p.seen[subject] != [])
            && (c in p.muted <==> c in m.muted && m.muted[c].expires >= now)
            && (c in p.muted ==> p.muted[c] == m.muted[c])
  {
    RecentMembers(Window(m.seen, subject), now, t);
    var p := Pruned(m, now);
    if subject in p.seen {
      assert p.seen[subject] == Recent(m.seen[subject], now);
    }
  }
}
