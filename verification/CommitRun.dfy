/** Agreement is not idle: on a network that delivers everything, two peers that begin together measure, negotiate
    and commit. */
module CommitRun {
  import opened Options
  import opened AdonisState
  import opened AdonisRules
  import opened AdonisAgreement
  import opened Folding

  /** A call at which everything works. */
  function Fine(now: nat): Around { Around(now, false, true, false, false, true, {0, 1}) }

  /** Some run leads there. */
  ghost predicate Reached(w0: World, w: World) { exists events :: Run(w0, events, w) }

  ghost predicate OnRun(w0: World, w: World, s: Setup) {
    forall u: int :: Folded(RunMark, u) ==> Reached(w0, w) && w.setup == s && s.Valid()
  }

  /** A moment of a run of two peers. */
  ghost predicate Stands(w0: World, w: World, s: Setup) { |w.nodes| == s.count == 2 && OnRun(w0, w, s) }

  /** Peer `i` of a calibration that began at zero, in its first attempt. */
  predicate Mine(n: Node, s: Setup, i: nat) {
    i < s.count == 2 && n.setup == s && n.id == i && |n.reports| == MAX_PLAYERS && n.begin == 0 && n.attempt == 0
  }

  /** A message of peer `i` in the first attempt. */
  function From(s: Setup, i: nat, b: Body): Message { Message(s, i, 0, b) }

  lemma {:induction false} RunOn(w: World, events: seq<Event>, w': World, e: Event)
    requires Run(w, events, w') && Possible(w', e)
    ensures Run(w, events + [e], After(w', e))
    decreases |events|
  {
    if events == [] {
      assert [] + [e] == [e] && [e][1..] == [];
    } else {
      assert (events + [e])[0] == events[0] && (events + [e])[1..] == events[1..] + [e];
      RunOn(After(w, events[0]), events[1..], w', e);
    }
  }

  lemma ReachedOn(w0: World, w: World, e: Event, w': World)
    requires Reached(w0, w) && Possible(w, e) && w' == After(w, e)
    ensures Reached(w0, w')
  {
    var events :| Run(w0, events, w);
    RunOn(w0, events, w, e);
  }

  // ---------------------------------------------------------------- calls

  ghost predicate Steps(n: Node, now: nat, n': Node, sent: set<Message>) {
    forall u: int :: Folded(StepMark, u) ==> Peer(n) && Pumped(n, Fine(now)) == (n', sent)
  }

  ghost predicate Hears(n: Node, m: Message, now: nat, n': Node, sent: set<Message>) {
    forall u: int :: Folded(HearMark, u) ==> Peer(n) && Received(n, m, Fine(now)) == (n', sent)
  }

  lemma Pumps(w0: World, w: World, s: Setup, i: nat, now: nat) returns (w': World, n': Node, sent: set<Message>)
    requires Stands(w0, w, s) && i < 2 && Mine(w.nodes[i], s, i) && w.nodes[i].clock <= now
    ensures Stands(w0, w', s) && w'.nodes[i] == n' && w'.nodes[1 - i] == w.nodes[1 - i]
    ensures w.soup <= w'.soup && sent <= w'.soup && Steps(w.nodes[i], now, n', sent)
  {
    assert Folded(RunMark, 0);
    var e := Pump(i, Fine(now));
    w', n', sent := After(w, e), Pumped(w.nodes[i], Fine(now)).0, Pumped(w.nodes[i], Fine(now)).1;
    ReachedOn(w0, w, e, w');
  }

  lemma Delivers(w0: World, w: World, s: Setup, i: nat, b: Body, now: nat)
      returns (w': World, n': Node, sent: set<Message>)
    requires Stands(w0, w, s) && i < 2 && Mine(w.nodes[i], s, i) && w.nodes[i].clock <= now
    requires From(s, 1 - i, b) in w.soup && (b.Probe? || b.Echo? ==> b.target == i)
    ensures Stands(w0, w', s) && w'.nodes[i] == n' && w'.nodes[1 - i] == w.nodes[1 - i]
    ensures w.soup <= w'.soup && sent <= w'.soup && Hears(w.nodes[i], From(s, 1 - i, b), now, n', sent)
  {
    assert Folded(RunMark, 0);
    var m := From(s, 1 - i, b);
    var e := Delivery(i, m, Fine(now));
    w', n', sent := After(w, e), Received(w.nodes[i], m, Fine(now)).0, Received(w.nodes[i], m, Fine(now)).1;
    ReachedOn(w0, w, e, w');
  }

  // ---------------------------------------------------------------- greeting

  /** Peer `i` before it measures, with whom it has heard. */
  ghost predicate Greeting(n: Node, s: Setup, i: nat, hellos: set<nat>) {
    && Mine(n, s, i) && n.clock == 0
    && forall u: int :: Folded(GreetingMark, u) ==> n == Begun(s, i, 0).(nextHello := n.nextHello, hellos := hellos)
  }

  /** When the k-th probe is due. */
  function Due(k: nat): nat { 984_000 + 16_000 * k }

  /** The echoes of the first `k` probes have been counted, each after a microsecond. */
  ghost predicate Timed(rtt: map<(nat, nat), nat>, o: nat, k: nat) {
    forall u: int :: Folded(TimedMark, u) ==>
      && (forall j :: j in rtt ==> j.0 == o && j.1 <= k)
      && (forall j: nat :: 10 <= j <= k ==> (o, j) in rtt && rtt[(o, j)] == 1)
  }

  /** What does not change while peer `i` measures. */
  predicate Measures(n: Node, s: Setup, i: nat) {
    && n.phase == Measuring && n.measurementBegin == 0 && n.stabilityStarted && !n.haveLocal && !n.accepted
    && n.summaries == n.acceptances == {}
  }

  /** Peer `i` measuring, after `k` probes; the next one is due when it is due. */
  ghost predicate Probing(n: Node, s: Setup, i: nat, k: nat) {
    && Mine(n, s, i) && k <= 129 && n.clock < 3_264_000
    && forall u: int :: Folded(ProbingMark, u) ==>
      && Measures(n, s, i) && n.probes == k && n.nextProbe == Due(k + 1) && (k > 0 ==> n.lastProbe == Due(k))
      && Timed(n.rtt, 1 - i, k)
  }

  lemma BothGreeted(s: Setup)
    requires s.count == 2
    ensures Everyone(s.count) == {0, 1}
  {}

  lemma FirstGreets(n: Node, s: Setup, i: nat, n': Node, sent: set<Message>)
    requires n == Begun(s, i, 0) && i < s.count == 2 && Steps(n, 0, n', sent)
    ensures Greeting(n', s, i, {}) && From(s, i, Hello) in sent
  {
    assert Folded(StepMark, 0);
    MeasuringBegins(n, Fine(0));
    AloneIsNotAll(i, s.count);
    assert {} + {i} == {i};
  }

  lemma GreetingHears(n: Node, s: Setup, i: nat, n': Node, sent: set<Message>)
    requires Greeting(n, s, i, {}) && Hears(n, From(s, 1 - i, Hello), 0, n', sent)
    ensures Greeting(n', s, i, {1 - i})
  {
    assert Folded(GreetingMark, 0) && Folded(HearMark, 0);
    ProbesAreAnswered(n, From(s, 1 - i, Hello), Fine(0));
    assert {} + {1 - i} == {1 - i};
  }

  lemma GreetedMeasures(n: Node, s: Setup, i: nat, n': Node, sent: set<Message>)
    requires i < 2 && Greeting(n, s, i, {1 - i}) && Steps(n, 0, n', sent)
    ensures Probing(n', s, i, 0) && n'.clock == 0
  {
    assert Folded(GreetingMark, 0) && Folded(StepMark, 0);
    BothGreeted(s);
    assert {1 - i} + {i} == {0, 1};
    MeasuringBegins(n, Fine(0));
  }

  lemma BeginsProbing(w0: World, s: Setup) returns (w: World)
    requires Stands(w0, w0, s) && w0.nodes[0] == Begun(s, 0, 0) && w0.nodes[1] == Begun(s, 1, 0)
    ensures Stands(w0, w, s) && w.nodes[0].clock == w.nodes[1].clock == 0
    ensures Probing(w.nodes[0], s, 0, 0) && Probing(w.nodes[1], s, 1, 0)
  {
    w := BothGreet(w0, s);
    w := HearsHello(w0, w, s, 0);
    w := HearsHello(w0, w, s, 1);
    var n': Node, sent: set<Message>;
    var n := w.nodes[0];
    w, n', sent := Pumps(w0, w, s, 0, 0);
    GreetedMeasures(n, s, 0, n', sent);
    n := w.nodes[1];
    w, n', sent := Pumps(w0, w, s, 1, 0);
    GreetedMeasures(n, s, 1, n', sent);
  }

  lemma BothGreet(w0: World, s: Setup) returns (w: World)
    requires Stands(w0, w0, s) && w0.nodes[0] == Begun(s, 0, 0) && w0.nodes[1] == Begun(s, 1, 0)
    ensures Stands(w0, w, s) && From(s, 0, Hello) in w.soup && From(s, 1, Hello) in w.soup
    ensures Greeting(w.nodes[0], s, 0, {}) && Greeting(w.nodes[1], s, 1, {})
  {
    var n': Node, sent: set<Message>;
    var n := w0.nodes[0];
    w, n', sent := Pumps(w0, w0, s, 0, 0);
    FirstGreets(n, s, 0, n', sent);
    n := w.nodes[1];
    w, n', sent := Pumps(w0, w, s, 1, 0);
    FirstGreets(n, s, 1, n', sent);
  }

  lemma HearsHello(w0: World, w: World, s: Setup, i: nat) returns (w': World)
    requires Stands(w0, w, s) && i < 2 && Greeting(w.nodes[i], s, i, {}) && From(s, 1 - i, Hello) in w.soup
    ensures Stands(w0, w', s) && w'.nodes[1 - i] == w.nodes[1 - i] && w.soup <= w'.soup
    ensures Greeting(w'.nodes[i], s, i, {1 - i})
  {
    var n': Node, sent: set<Message>;
    w', n', sent := Delivers(w0, w, s, i, Hello, 0);
    GreetingHears(w.nodes[i], s, i, n', sent);
  }

  // ---------------------------------------------------------------- probing

  /** The probe of peer `i` has gone out: one more is on record. */
  ghost predicate Asked(n: Node, s: Setup, i: nat, k: nat) {
    && Mine(n, s, i) && k < 129 && n.clock == Due(k + 1)
    && forall u: int :: Folded(AskedMark, u) ==>
      && Measures(n, s, i) && n.probes == k + 1 && n.nextProbe == Due(k + 2) && n.lastProbe == Due(k + 1)
      && (1 - i, k + 1) in n.sentAt && n.sentAt[(1 - i, k + 1)] == Due(k + 1) && Timed(n.rtt, 1 - i, k)
  }

  lemma ProbingWaits(n: Node, s: Setup, i: nat, now: nat, n': Node, sent: set<Message>)
    requires Probing(n, s, i, 0) && Steps(n, now, n', sent) && n.clock <= now <= n.clock + 500_000 && now < Due(1)
    ensures Probing(n', s, i, 0) && n'.clock == now
  {
    assert Folded(ProbingMark, 0) && Folded(StepMark, 0);
    ProbesWhenDue(n, Fine(now), 1 - i, 1);
  }

  lemma ProbingAsks(n: Node, s: Setup, i: nat, k: nat, n': Node, sent: set<Message>)
    requires Probing(n, s, i, k) && k < 129 && Steps(n, Due(k + 1), n', sent)
    requires n.clock <= Due(k + 1) <= n.clock + 500_000
    ensures Asked(n', s, i, k) && From(s, i, Probe(k + 1, 1 - i)) in sent
  {
    assert Folded(ProbingMark, 0) && Folded(StepMark, 0);
    ProbesWhenDue(n, Fine(Due(k + 1)), 1 - i, k + 1);
  }

  /** The other one echoes it. */
  lemma AskedEchoes(n: Node, s: Setup, i: nat, k: nat, n': Node, sent: set<Message>)
    requires Asked(n, s, i, k) && Hears(n, From(s, 1 - i, Probe(k + 1, i)), Due(k + 1), n', sent)
    ensures n' == n && From(s, i, Echo(k + 1, 1 - i)) in sent
  {
    assert Folded(AskedMark, 0) && Folded(HearMark, 0);
    ProbesAreAnswered(n, From(s, 1 - i, Probe(k + 1, i)), Fine(Due(k + 1)));
  }

  /** And the echo is counted, a microsecond after the probe. */
  lemma AskedCounts(n: Node, s: Setup, i: nat, k: nat, n': Node, sent: set<Message>)
    requires Asked(n, s, i, k) && Hears(n, From(s, 1 - i, Echo(k + 1, i)), Due(k + 1) + 1, n', sent)
    ensures Probing(n', s, i, k + 1) && n'.clock == Due(k + 1) + 1
  {
    assert Folded(AskedMark, 0) && Folded(HearMark, 0);
    NotYetTimed(n.rtt, 1 - i, k);
    ProbesAreAnswered(n, From(s, 1 - i, Echo(k + 1, i)), Fine(Due(k + 1) + 1));
    OneMoreTimed(n.rtt, n'.rtt, 1 - i, k);
  }

  lemma NotYetTimed(rtt: map<(nat, nat), nat>, o: nat, k: nat)
    requires Timed(rtt, o, k)
    ensures (o, k + 1) !in rtt
  {
    assert Folded(TimedMark, 0);
  }

  lemma OneMoreTimed(rtt: map<(nat, nat), nat>, rtt': map<(nat, nat), nat>, o: nat, k: nat)
    requires Timed(rtt, o, k) && rtt'.Keys == if k + 1 >= 10 then rtt.Keys + {(o, k + 1)} else rtt.Keys
    requires (k + 1 >= 10 ==> rtt'[(o, k + 1)] == 1) && forall j :: j in rtt ==> rtt'[j] == rtt[j]
    ensures Timed(rtt', o, k + 1)
  {
    assert Folded(TimedMark, 0);
    forall j: nat | 10 <= j <= k + 1 ensures (o, j) in rtt' && rtt'[(o, j)] == 1 {
      if j <= k { assert (o, j) in rtt; } else { assert (o, j) in rtt'.Keys; }
    }
    forall j | j in rtt' ensures j.0 == o && j.1 <= k + 1 { assert j in rtt'.Keys; }
  }

  lemma Asks(w0: World, w: World, s: Setup, i: nat, k: nat) returns (w': World)
    requires Stands(w0, w, s) && i < 2 && Probing(w.nodes[i], s, i, k) && k < 129
    requires w.nodes[i].clock <= Due(k + 1) <= w.nodes[i].clock + 500_000
    ensures Stands(w0, w', s) && w'.nodes[1 - i] == w.nodes[1 - i] && w.soup <= w'.soup
    ensures Asked(w'.nodes[i], s, i, k) && From(s, i, Probe(k + 1, 1 - i)) in w'.soup
  {
    var n': Node, sent: set<Message>;
    w', n', sent := Pumps(w0, w, s, i, Due(k + 1));
    ProbingAsks(w.nodes[i], s, i, k, n', sent);
  }

  lemma Echoes(w0: World, w: World, s: Setup, i: nat, k: nat) returns (w': World)
    requires Stands(w0, w, s) && i < 2 && Asked(w.nodes[i], s, i, k) && From(s, 1 - i, Probe(k + 1, i)) in w.soup
    ensures Stands(w0, w', s) && w'.nodes[1 - i] == w.nodes[1 - i] && w.soup <= w'.soup
    ensures w'.nodes[i] == w.nodes[i] && From(s, i, Echo(k + 1, 1 - i)) in w'.soup
  {
    var n': Node, sent: set<Message>;
    w', n', sent := Delivers(w0, w, s, i, Probe(k + 1, i), Due(k + 1));
    AskedEchoes(w.nodes[i], s, i, k, n', sent);
  }

  lemma Counts(w0: World, w: World, s: Setup, i: nat, k: nat) returns (w': World)
    requires Stands(w0, w, s) && i < 2 && Asked(w.nodes[i], s, i, k) && From(s, 1 - i, Echo(k + 1, i)) in w.soup
    ensures Stands(w0, w', s) && w'.nodes[1 - i] == w.nodes[1 - i] && w.soup <= w'.soup
    ensures Probing(w'.nodes[i], s, i, k + 1) && w'.nodes[i].clock == Due(k + 1) + 1
  {
    var n': Node, sent: set<Message>;
    w', n', sent := Delivers(w0, w, s, i, Echo(k + 1, i), Due(k + 1) + 1);
    AskedCounts(w.nodes[i], s, i, k, n', sent);
  }

  lemma ProbeRound(w0: World, w: World, s: Setup, k: nat) returns (w': World)
    requires Stands(w0, w, s) && k < 129 && Probing(w.nodes[0], s, 0, k) && Probing(w.nodes[1], s, 1, k)
    requires w.nodes[0].clock <= Due(k + 1) <= w.nodes[0].clock + 500_000
    requires w.nodes[1].clock <= Due(k + 1) <= w.nodes[1].clock + 500_000
    ensures Stands(w0, w', s) && Probing(w'.nodes[0], s, 0, k + 1) && Probing(w'.nodes[1], s, 1, k + 1)
    ensures w'.nodes[0].clock == w'.nodes[1].clock == Due(k + 1) + 1
  {
    w' := Asks(w0, w, s, 0, k);
    w' := Asks(w0, w', s, 1, k);
    w' := Echoes(w0, w', s, 0, k);
    w' := Echoes(w0, w', s, 1, k);
    w' := Counts(w0, w', s, 0, k);
    w' := Counts(w0, w', s, 1, k);
  }

  lemma Settles(w0: World, w: World, s: Setup, i: nat) returns (w': World)
    requires Stands(w0, w, s) && i < 2 && Probing(w.nodes[i], s, i, 0) && w.nodes[i].clock == 0
    ensures Stands(w0, w', s) && w'.nodes[1 - i] == w.nodes[1 - i]
    ensures Probing(w'.nodes[i], s, i, 0) && w'.nodes[i].clock == 500_000
  {
    var n': Node, sent: set<Message>;
    w', n', sent := Pumps(w0, w, s, i, 500_000);
    ProbingWaits(w.nodes[i], s, i, 500_000, n', sent);
  }

  lemma {:induction false} ProbeRounds(w0: World, s: Setup, k: nat) returns (w: World)
    requires Stands(w0, w0, s) && w0.nodes[0] == Begun(s, 0, 0) && w0.nodes[1] == Begun(s, 1, 0) && 0 < k <= 129
    ensures Stands(w0, w, s) && Probing(w.nodes[0], s, 0, k) && Probing(w.nodes[1], s, 1, k)
    ensures w.nodes[0].clock == w.nodes[1].clock == Due(k) + 1
  {
    if k == 1 {
      w := BeginsProbing(w0, s);
      w := Settles(w0, w, s, 0);
      w := Settles(w0, w, s, 1);
    } else {
      w := ProbeRounds(w0, s, k - 1);
    }
    w := ProbeRound(w0, w, s, k - 1);
  }

  // ---------------------------------------------------------------- the report

  lemma {:induction false} AllOnes(rtt: map<(nat, nat), nat>, peer: nat, from: nat)
    requires from <= 130 && forall j: nat :: from <= j < 130 ==> (peer, j) in rtt && rtt[(peer, j)] == 1
    ensures |Slots(rtt, peer, from)| == 130 - from && Within(Slots(rtt, peer, from), 1, 1)
    decreases 130 - from
  {
    if from < 130 { AllOnes(rtt, peer, from + 1); }
  }

  /** A link whose echoes all took a microsecond reports just that. */
  lemma OneMicrosecond(rtt: map<(nat, nat), nat>, i: nat) returns (r: Report)
    requires i < 2 && Timed(rtt, 1 - i, 129)
    ensures WorstLink(Links(rtt, 2), i, 2) == Some(r) && r.p95 == 1 && r.Valid()
  {
    var v := OneLink(rtt, 1 - i);
    r := LinkReport(v);
    OtherLink(Links(rtt, 2), i, v);
  }

  lemma OneLink(rtt: map<(nat, nat), nat>, peer: nat) returns (v: Trips)
    requires Timed(rtt, peer, 129)
    ensures v == LinkTo(rtt, peer) && |v| == 120 && LinkReport(v).p95 == 1 && LinkReport(v).Valid()
  {
    assert Folded(TimedMark, 0);
    AllOnes(rtt, peer, 10);
    var slots := Slots(rtt, peer, WARMUP);
    SortSorts(slots, 1, 1);
    SortLength(slots);
    v := LinkTo(rtt, peer);
    OnesReport(v);
  }

  lemma OnesReport(v: Trips)
    requires |v| == 120 && Sorted(v) && Within(v, 1, 1)
    ensures LinkReport(v).p95 == 1 && LinkReport(v).Valid()
  {
    LinkReportIsValid(v);
  }

  lemma OtherLink(links: seq<Trips>, i: nat, v: Trips)
    requires |links| == 2 && i < 2 && links[1 - i] == v && |v| >= ENOUGH && LinkReport(v).p95 > 0
    ensures WorstLink(links, i, 2) == Some(LinkReport(v))
  {
    assert WorstLink(links, i, 0) == Some(NO_REPORT);
    if i == 0 {
      assert WorstLink(links, i, 1) == Some(NO_REPORT);
    } else {
      assert WorstLink(links, i, 1) == Some(LinkReport(v));
    }
  }

  // ---------------------------------------------------------------- the commit

  const END: nat := 3_264_000
  const LATER: nat := 3_464_000

  /** Peer `i` negotiating with its own report and those in `summaries`; its next packet is due at `due`. */
  ghost predicate Told(n: Node, s: Setup, i: nat, summaries: set<nat>, due: nat, accepted: bool, acceptances: set<nat>)
  {
    && Mine(n, s, i) && n.clock == END
    && forall u: int :: Folded(ReportedMark, u) ==>
      && n.phase == Negotiating && n.haveLocal && n.probes == 129 && n.measurementBegin == 0
      && n.summaries == summaries && n.accepted == accepted && n.acceptances == acceptances && i in summaries
      && n.nextControl == due && n.local.p95 == n.reports[i].p95 == 1
      && (1 - i in summaries ==> n.reports[1 - i].p95 == 1)
  }

  lemma ProbedReports(n: Node, s: Setup, i: nat, n': Node, sent: set<Message>) returns (r: Report)
    requires Probing(n, s, i, 129) && n.clock == Due(129) + 1 && Steps(n, END, n', sent)
    ensures Told(n', s, i, {i}, LATER, false, {}) && From(s, i, Summary(r)) in sent && r.Valid() && r.p95 == 1
  {
    assert Folded(ProbingMark, 0) && Folded(StepMark, 0);
    r := OneMicrosecond(n.rtt, i);
    MeasurementEnds(n, Fine(END), Some(r), n', sent);
  }

  lemma ToldHears(n: Node, s: Setup, i: nat, r: Report, n': Node, sent: set<Message>)
    requires Told(n, s, i, {i}, LATER, false, {}) && Hears(n, From(s, 1 - i, Summary(r)), END, n', sent)
    requires r.Valid() && r.p95 == 1
    ensures Told(n', s, i, {0, 1}, 0, false, {})
  {
    assert Folded(ReportedMark, 0) && Folded(HearMark, 0);
    SummariesAreStored(n, From(s, 1 - i, Summary(r)), Fine(END));
    assert {i} + {1 - i} == {0, 1};
  }

  lemma Chooses(n: Node, s: Setup, i: nat, due: nat, accepted: bool, acceptances: set<nat>)
    requires Told(n, s, i, {0, 1}, due, accepted, acceptances) && s.Valid()
    ensures ChooseAll(n) == Choose(1, s) && Choose(1, s).delay <= 9 && n.summaries == Everyone(n.setup.count)
  {
    assert Folded(ReportedMark, 0);
    BothGreeted(s);
    assert Worst(n.local.p95, n.reports, 0) == 1 && Worst(n.local.p95, n.reports, 1) == 1;
    assert Worst(n.local.p95, n.reports, 2) == 1;
  }

  lemma HostProposes(n: Node, s: Setup, n': Node, sent: set<Message>)
    requires Told(n, s, 0, {0, 1}, 0, false, {}) && Steps(n, END, n', sent) && s.Valid()
    ensures From(s, 0, Proposal(Choose(1, s))) in sent && Told(n', s, 0, {0, 1}, LATER, false, {})
  {
    assert Folded(ReportedMark, 0) && Folded(StepMark, 0);
    Chooses(n, s, 0, 0, false, {});
    AloneIsNotAll(0, s.count);
    assert {} + {0} == {0};
    Concludes(n, Fine(END));
  }

  lemma ClientAccepts(n: Node, s: Setup, n': Node, sent: set<Message>)
    requires Told(n, s, 1, {0, 1}, 0, false, {}) && s.Valid()
    requires Hears(n, From(s, 0, Proposal(Choose(1, s))), END, n', sent)
    ensures From(s, 1, Accept(Choose(1, s))) in sent && Told(n', s, 1, {0, 1}, 0, true, {})
  {
    assert Folded(ReportedMark, 0) && Folded(HearMark, 0);
    Chooses(n, s, 1, 0, false, {});
    DecisionsCount(n, From(s, 0, Proposal(Choose(1, s))), Fine(END));
  }

  lemma HostHears(n: Node, s: Setup, n': Node, sent: set<Message>)
    requires Told(n, s, 0, {0, 1}, LATER, false, {}) && s.Valid()
    requires Hears(n, From(s, 1, Accept(Choose(1, s))), END, n', sent)
    ensures Told(n', s, 0, {0, 1}, 0, false, {1})
  {
    assert Folded(ReportedMark, 0) && Folded(HearMark, 0);
    Chooses(n, s, 0, LATER, false, {});
    DecisionsCount(n, From(s, 1, Accept(Choose(1, s))), Fine(END));
    assert {} + {1} == {1};
  }

  lemma HostCommits(n: Node, s: Setup, n': Node, sent: set<Message>)
    requires Told(n, s, 0, {0, 1}, 0, false, {1}) && Steps(n, END, n', sent) && s.Valid()
    ensures From(s, 0, Commit(Choose(1, s))) in sent && n'.phase == Committed && n'.choice == Choose(1, s)
  {
    assert Folded(ReportedMark, 0) && Folded(StepMark, 0);
    Chooses(n, s, 0, 0, false, {1});
    BothGreeted(s);
    assert {1} + {0} == {0, 1};
    Concludes(n, Fine(END));
  }

  lemma ClientCommits(n: Node, s: Setup, n': Node, sent: set<Message>)
    requires Told(n, s, 1, {0, 1}, 0, true, {}) && s.Valid()
    requires Hears(n, From(s, 0, Commit(Choose(1, s))), END, n', sent)
    ensures n'.phase == Committed && n'.choice == Choose(1, s)
  {
    assert Folded(ReportedMark, 0) && Folded(HearMark, 0);
    Chooses(n, s, 1, 0, true, {});
    DecisionsCount(n, From(s, 0, Commit(Choose(1, s))), Fine(END));
  }

  lemma Reports(w0: World, w: World, s: Setup, i: nat) returns (w': World, r: Report)
    requires Stands(w0, w, s) && i < 2 && Probing(w.nodes[i], s, i, 129) && w.nodes[i].clock == Due(129) + 1
    ensures Stands(w0, w', s) && w'.nodes[1 - i] == w.nodes[1 - i] && w.soup <= w'.soup
    ensures Told(w'.nodes[i], s, i, {i}, LATER, false, {}) && From(s, i, Summary(r)) in w'.soup && r.Valid()
      && r.p95 == 1
  {
    var n': Node, sent: set<Message>;
    w', n', sent := Pumps(w0, w, s, i, END);
    r := ProbedReports(w.nodes[i], s, i, n', sent);
  }

  lemma HearsReport(w0: World, w: World, s: Setup, i: nat, r: Report) returns (w': World)
    requires Stands(w0, w, s) && i < 2 && Told(w.nodes[i], s, i, {i}, LATER, false, {})
    requires From(s, 1 - i, Summary(r)) in w.soup && r.Valid() && r.p95 == 1
    ensures Stands(w0, w', s) && w'.nodes[1 - i] == w.nodes[1 - i] && w.soup <= w'.soup
    ensures Told(w'.nodes[i], s, i, {0, 1}, 0, false, {})
  {
    var n': Node, sent: set<Message>;
    w', n', sent := Delivers(w0, w, s, i, Summary(r), END);
    ToldHears(w.nodes[i], s, i, r, n', sent);
  }

  lemma Exchange(w0: World, s: Setup) returns (w: World)
    requires Stands(w0, w0, s) && w0.nodes[0] == Begun(s, 0, 0) && w0.nodes[1] == Begun(s, 1, 0)
    ensures Stands(w0, w, s)
    ensures Told(w.nodes[0], s, 0, {0, 1}, 0, false, {}) && Told(w.nodes[1], s, 1, {0, 1}, 0, false, {})
  {
    w := ProbeRounds(w0, s, 129);
    var r0: Report, r1: Report;
    w, r0 := Reports(w0, w, s, 0);
    w, r1 := Reports(w0, w, s, 1);
    w := HearsReport(w0, w, s, 0, r1);
    w := HearsReport(w0, w, s, 1, r0);
  }

  lemma Propose(w0: World, w: World, s: Setup) returns (w': World)
    requires Stands(w0, w, s) && s.Valid()
    requires Told(w.nodes[0], s, 0, {0, 1}, 0, false, {}) && Told(w.nodes[1], s, 1, {0, 1}, 0, false, {})
    ensures Stands(w0, w', s) && From(s, 1, Accept(Choose(1, s))) in w'.soup
    ensures Told(w'.nodes[0], s, 0, {0, 1}, LATER, false, {}) && Told(w'.nodes[1], s, 1, {0, 1}, 0, true, {})
  {
    var n': Node, sent: set<Message>;
    var n := w.nodes[0];
    w', n', sent := Pumps(w0, w, s, 0, END);
    HostProposes(n, s, n', sent);
    n := w'.nodes[1];
    w', n', sent := Delivers(w0, w', s, 1, Proposal(Choose(1, s)), END);
    ClientAccepts(n, s, n', sent);
  }

  lemma HostAlone(w0: World, w: World, s: Setup) returns (w': World)
    requires Stands(w0, w, s) && s.Valid() && From(s, 1, Accept(Choose(1, s))) in w.soup
    requires Told(w.nodes[0], s, 0, {0, 1}, LATER, false, {})
    ensures Stands(w0, w', s) && w'.nodes[1] == w.nodes[1] && From(s, 0, Commit(Choose(1, s))) in w'.soup
    ensures w'.nodes[0].phase == Committed && w'.nodes[0].choice == Choose(1, s)
  {
    var n': Node, sent: set<Message>;
    var n := w.nodes[0];
    w', n', sent := Delivers(w0, w, s, 0, Accept(Choose(1, s)), END);
    HostHears(n, s, n', sent);
    n := w'.nodes[0];
    w', n', sent := Pumps(w0, w', s, 0, END);
    HostCommits(n, s, n', sent);
  }

  lemma StartStands(w0: World, s: Setup)
    requires Starts(w0) && w0.setup == s && s.count == 2 && forall i: nat :: i < 2 ==> w0.nodes[i].begin == 0
    ensures Stands(w0, w0, s) && w0.nodes[0] == Begun(s, 0, 0) && w0.nodes[1] == Begun(s, 1, 0)
  {
    assert Run(w0, [], w0);
  }

  lemma Negotiate(w0: World, w: World, s: Setup) returns (w': World)
    requires Stands(w0, w, s) && s.Valid()
    requires Told(w.nodes[0], s, 0, {0, 1}, 0, false, {}) && Told(w.nodes[1], s, 1, {0, 1}, 0, false, {})
    ensures Stands(w0, w', s)
    ensures forall i: nat :: i < 2 ==> w'.nodes[i].phase == Committed && w'.nodes[i].choice == Choose(1, s)
  {
    w' := Propose(w0, w, s);
    w' := HostAlone(w0, w', s);
    var n': Node, sent: set<Message>;
    var n := w'.nodes[1];
    w', n', sent := Delivers(w0, w', s, 1, Commit(Choose(1, s)), END);
    ClientCommits(n, s, n', sent);
  }

  /** From any start of two peers at time zero, whatever mode, reserve and delay they agreed on beforehand, there is
      a run in which both commit, with the choice for a round trip of a microsecond. */
  lemma BothCommit(w0: World, s: Setup) returns (events: seq<Event>, w: World)
    requires Starts(w0) && w0.setup == s && s.count == 2 && forall i: nat :: i < 2 ==> w0.nodes[i].begin == 0
    ensures Run(w0, events, w) && |w.nodes| == 2
    ensures forall i: nat :: i < 2 ==> w.nodes[i].phase == Committed && w.nodes[i].choice == Choose(1, s)
  {
    StartStands(w0, s);
    w := Exchange(w0, s);
    ValidSetup(w0, w, s);
    w := Negotiate(w0, w, s);
    events := RunTo(w0, w, s);
  }

  lemma ValidSetup(w0: World, w: World, s: Setup)
    requires OnRun(w0, w, s)
    ensures s.Valid()
  {
    assert Folded(RunMark, 0);
  }

  lemma RunTo(w0: World, w: World, s: Setup) returns (events: seq<Event>)
    requires OnRun(w0, w, s)
    ensures Run(w0, events, w)
  {
    assert Folded(RunMark, 0);
    events :| Run(w0, events, w);
  }
}
