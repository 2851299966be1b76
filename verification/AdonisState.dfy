/** One peer of the calibration before frame zero, as a value: numbered measurement attempts, summaries,
    and the host's commit. Masks of players are sets; packets are values. */
module AdonisState {
  import opened Options

  const MAX_PLAYERS: nat := 3
  const HOST: nat := 0
  const SAMPLES: nat := 120
  const ATTEMPTS: nat := 130
  const PROBE_COUNT: nat := 129
  const ENOUGH: nat := 96
  const INTERVAL_US: nat := 16000
  const TAIL_US: nat := 200000
  const STABILIZE_US: nat := 1000000
  const PEER_WAIT_US: nat := 45000000
  const MEASUREMENT_TIMEOUT_US: nat := 10000000
  const STARTUP_TIMEOUT_US: nat := 90000000
  const RESEND_US: nat := 200000
  const COMMIT_RESEND_US: nat := 5000000
  const GAP_US: nat := 500000
  const MAX_RETRIES: nat := 3
  const MAX_DELAY: nat := 9

  datatype Phase = Idle | WaitingPeer | Measuring | Negotiating | Committed | Failed | Retrying | Unavailable

  datatype Reason = NoReason | Samples | Interrupted | Hidden | Connection | Timeout | PeerMissing | Exhausted | Budget

  datatype Mode = Delay | Hybrid

  /** What every peer must agree on beforehand; no request means an automatic delay. */
  datatype Setup = Setup(sessionId: nat, gameplayAbi: nat, seed: nat, count: nat, mode: Mode, reserve: nat,
      requested: Option<nat>)
  {
    predicate Valid() {
      && 2 <= count <= MAX_PLAYERS && reserve <= 2 && (mode == Delay ==> reserve == 0)
      && (requested.Some? ==> requested.value <= MAX_DELAY)
    }
  }

  datatype Report = Report(p95: nat, received: nat, lost: nat, least: nat, most: nat, mean: nat)
  {
    /** What a receiver demands of a summary. */
    predicate Valid() {
      && 0 < p95 <= 1000000 && ENOUGH <= received <= SAMPLES && received + lost == SAMPLES && 0 < least
      && most <= 1000000 && least <= p95 <= most && least <= mean <= most
    }
  }

  const NO_REPORT := Report(0, 0, 0, 0, 0, 0)
  const NO_REPORTS: seq<Report> := [NO_REPORT, NO_REPORT, NO_REPORT]

  datatype Choice = Choice(fullDelay: nat, delay: nat, prediction: nat)

  const NO_CHOICE := Choice(0, 0, 0)

  datatype Body =
    | Hello | Probe(sequence: nat, target: nat) | Echo(sequence: nat, target: nat) | Summary(report: Report)
    | Proposal(choice: Choice) | Accept(choice: Choice) | Commit(choice: Choice) | CommitAck(choice: Choice)
    | RetryRequest(reason: Reason) | Restart(reason: Reason) | Stop(reason: Reason)

  datatype Message = Message(setup: Setup, from: nat, attempt: nat, body: Body)

  /** What one call finds around it: the clock, the transport, whether it takes a commit, and which peers it
      takes a probe for. */
  datatype Around = Around(now: nat, broken: bool, open: bool, suspended: bool, recovering: bool, taken: bool,
      reached: set<nat>)

  /** A peer's own state. `sentAt` and `rtt` hold, by peer and slot, when a probe was sent and how long its
      echo took. */
  datatype Node = Node(
    setup: Setup, id: nat, phase: Phase, attempt: nat, reason: Reason, probes: nat,
    begin: nat, attemptBegin: nat, measurementBegin: nat, clock: nat, nextHello: nat, nextControl: nat, nextProbe: nat,
    lastProbe: nat, committedAt: nat, haveLocal: bool, accepted: bool, stabilityStarted: bool,
    hellos: set<nat>, summaries: set<nat>, acceptances: set<nat>, acks: set<nat>,
    local: Report, reports: seq<Report>, choice: Choice,
    sentAt: map<(nat, nat), nat>, rtt: map<(nat, nat), nat>)
  {
    predicate IsHost() { id == HOST }
  }

  function Everyone(count: nat): (r: set<nat>)
    ensures forall p: nat :: p in r <==> p < count
  {
    if count == 0 then {} else Everyone(count - 1) + {count - 1}
  }

  // ---------------------------------------------------------------- the choice

  function Worst(p95: nat, reports: seq<Report>, n: nat): nat
    requires n <= |reports|
  {
    if n == 0 then p95 else
      var before := Worst(p95, reports, n - 1);
      if reports[n - 1].p95 > before then reports[n - 1].p95 else before
  }

  /** Frames that cover half of the worst round trip, and how many of them prediction may hide. */
  function Choose(worst: nat, s: Setup): Choice {
    var covering := (worst / 2 * 60 + 999999) / 1000000;
    var full := if covering < 1 then 1 else covering;
    var available := if s.requested == None then full - 1 else full;
    var reserve := if s.reserve < 2 then s.reserve else 2;
    var prediction := if s.mode == Hybrid then (if available < reserve then available else reserve) else 0;
    Choice(full, if s.requested == None then full - prediction else s.requested.value, prediction)
  }

  function ChooseAll(n: Node): Choice
    requires n.setup.count <= |n.reports|
  {
    Choose(Worst(n.local.p95, n.reports, n.setup.count), n.setup)
  }

  /** The full delay is the least number of frames, at least one, that lasts half the worst round trip; an
      automatic choice splits it between queueing at least one frame and predicting at most the reserve. What may
      be predicted is predicted: all of the reserve, or all but the one queued frame, or all of a requested delay's
      cover. */
  lemma ChoiceCovers(worst: nat, s: Setup)
    requires s.Valid()
    ensures var c := Choose(worst, s);
      && c.fullDelay >= 1 && c.fullDelay * 1000000 >= worst / 2 * 60
      && (c.fullDelay > 1 ==> (c.fullDelay - 1) * 1000000 < worst / 2 * 60)
      && (s.requested == None ==> c.delay + c.prediction == c.fullDelay && c.delay >= 1)
      && (s.requested.Some? ==> c.delay == s.requested.value)
      && c.prediction <= s.reserve && c.prediction <= c.fullDelay
      && (s.mode == Delay ==> c.prediction == 0)
      && (s.mode == Hybrid ==>
            c.prediction == s.reserve || if s.requested == None then c.delay == 1 else c.prediction == c.fullDelay)
  {}

  /** The worst percentile is the greatest of all that are known. */
  lemma {:induction false} WorstIsGreatest(p95: nat, reports: seq<Report>, n: nat)
    requires n <= |reports|
    ensures Worst(p95, reports, n) >= p95 && forall i :: 0 <= i < n ==> Worst(p95, reports, n) >= reports[i].p95
    ensures Worst(p95, reports, n) == p95 || exists i :: 0 <= i < n && Worst(p95, reports, n) == reports[i].p95
  {
    if n > 0 { WorstIsGreatest(p95, reports, n - 1); }
  }

  // ---------------------------------------------------------------- the measurement

  const WARMUP: nat := 10
  const LONGEST_US: nat := 1000000

  function Insert(x: nat, s: seq<nat>): seq<nat> {
    if s == [] || x <= s[0] then [x] + s else [s[0]] + Insert(x, s[1..])
  }

  function Sort(s: seq<nat>): seq<nat> { if s == [] then [] else Insert(s[0], Sort(s[1..])) }

  predicate Sorted(s: seq<nat>) { forall i, j :: 0 <= i < j < |s| ==> s[i] <= s[j] }

  predicate Within(s: seq<nat>, lo: nat, hi: nat) { forall i :: 0 <= i < |s| ==> lo <= s[i] <= hi }

  lemma {:induction false} InsertSorts(x: nat, s: seq<nat>, lo: nat, hi: nat)
    requires Sorted(s) && Within(s, lo, hi) && lo <= x <= hi
    ensures Sorted(Insert(x, s)) && Within(Insert(x, s), lo, hi)
  {
    if s != [] && x > s[0] { InsertSorts(x, s[1..], s[0], hi); }
  }

  lemma {:induction false} InsertAdds(x: nat, s: seq<nat>)
    ensures multiset(Insert(x, s)) == multiset(s) + multiset{x}
  {
    if s != [] && x > s[0] {
      InsertAdds(x, s[1..]);
      assert s == [s[0]] + s[1..];
    }
  }

  /** Sorting arranges the same round trips in order. */
  lemma {:induction false} SortSorts(s: seq<nat>, lo: nat, hi: nat)
    requires Within(s, lo, hi)
    ensures Sorted(Sort(s)) && Within(Sort(s), lo, hi) && multiset(Sort(s)) == multiset(s)
  {
    if s != [] {
      SortSorts(s[1..], lo, hi);
      InsertSorts(s[0], Sort(s[1..]), lo, hi);
      InsertAdds(s[0], Sort(s[1..]));
      assert s == [s[0]] + s[1..];
    }
  }

  lemma {:induction false} SortLength(s: seq<nat>)
    ensures |Sort(s)| == |s|
  {
    if s != [] {
      SortLength(s[1..]);
      InsertLength(s[0], Sort(s[1..]));
    }
  }

  lemma {:induction false} InsertLength(x: nat, s: seq<nat>)
    ensures |Insert(x, s)| == |s| + 1
  {
    if s != [] { InsertLength(x, s[1..]); }
  }

  function Sum(s: seq<nat>): nat { if s == [] then 0 else s[0] + Sum(s[1..]) }

  /** The round trips to a peer in the slots that count, in the order of the slots. */
  function Slots(rtt: map<(nat, nat), nat>, peer: nat, from: nat): (r: seq<nat>)
    requires from <= ATTEMPTS
    ensures |r| <= ATTEMPTS - from
    decreases ATTEMPTS - from
  {
    if from == ATTEMPTS then []
    else (if (peer, from) in rtt then [rtt[(peer, from)]] else []) + Slots(rtt, peer, from + 1)
  }

  /** The report of one link from its sorted round trips: the 95th percentile, averaged with its neighbour
      when there is an even number of them. */
  function LinkReport(v: seq<nat>): Report
    requires 0 < |v| <= SAMPLES
  {
    Report(Tail(v), |v|, SAMPLES - |v|, v[0], v[|v| - 1], Mean(Sum(v), |v|))
  }

  function Tail(v: seq<nat>): nat
    requires v != []
  {
    var at := (|v| - 1) * 95 / 100;
    if |v| % 2 == 0 && at + 1 < |v| then (v[at] + v[at + 1]) / 2 else v[at]
  }

  function Mean(sum: nat, n: nat): nat
    requires n > 0
  {
    sum / n
  }

  type Trips = v: seq<nat> | |v| <= SAMPLES

  /** The sorted round trips to one peer. */
  function LinkTo(rtt: map<(nat, nat), nat>, peer: nat): Trips {
    SortLength(Slots(rtt, peer, WARMUP));
    Sort(Slots(rtt, peer, WARMUP))
  }

  function Links(rtt: map<(nat, nat), nat>, count: nat): (r: seq<Trips>)
    ensures |r| == count && forall p :: 0 <= p < count ==> r[p] == LinkTo(rtt, p)
  {
    seq(count, p requires 0 <= p < count => LinkTo(rtt, p))
  }

  /** The worst of the links to the first `n` peers, or nothing if one of them lost too many samples. */
  function WorstLink(links: seq<Trips>, id: nat, n: nat): Option<Report>
    requires n <= |links|
  {
    if n == 0 then Some(NO_REPORT) else
      var before := WorstLink(links, id, n - 1);
      if before == None || n - 1 == id then before else Worse(before.value, links[n - 1])
  }

  function Worse(r: Report, v: Trips): Option<Report> {
    if |v| < ENOUGH then None else if LinkReport(v).p95 > r.p95 then Some(LinkReport(v)) else Some(r)
  }

  /** Every recorded round trip is one that was accepted. */
  predicate Plausible(rtt: map<(nat, nat), nat>) { forall k :: k in rtt ==> 0 < rtt[k] <= LONGEST_US }

  lemma {:induction false} SlotsWithin(rtt: map<(nat, nat), nat>, peer: nat, from: nat)
    requires from <= ATTEMPTS && Plausible(rtt)
    ensures Within(Slots(rtt, peer, from), 1, LONGEST_US)
    decreases ATTEMPTS - from
  {
    if from < ATTEMPTS { SlotsWithin(rtt, peer, from + 1); }
  }

  lemma {:induction false} SumWithin(s: seq<nat>, lo: nat, hi: nat)
    requires Within(s, lo, hi)
    ensures |s| * lo <= Sum(s) <= |s| * hi
  {
    if s != [] {
      SumWithin(s[1..], lo, hi);
      OneMore(|s|, lo);
      OneMore(|s|, hi);
    }
  }

  lemma OneMore(n: nat, x: nat)
    requires n > 0
    ensures n * x == (n - 1) * x + x
  {}

  lemma MeanWithin(sum: nat, n: nat, lo: nat, hi: nat)
    requires n > 0 && n * lo <= sum <= n * hi
    ensures lo <= Mean(sum, n) <= hi
  {
    var q, r := sum / n, sum % n;
    assert sum == n * q + r && r < n;
    if q < lo { Scaled(q, lo, n); }
    if q > hi { Scaled(hi, q, n); }
  }

  lemma {:induction false} Scaled(a: nat, b: nat, n: nat)
    requires a < b
    ensures n * a + n <= n * b
  {
    if n > 0 {
      Scaled(a, b, n - 1);
      OneMore(n, a);
      OneMore(n, b);
    }
  }

  /** What an honest peer measures passes every check its receivers make. */
  lemma LinkReportIsValid(v: seq<nat>)
    requires ENOUGH <= |v| <= SAMPLES && Sorted(v) && Within(v, 1, LONGEST_US)
    ensures LinkReport(v).Valid()
  {
    var n := |v|;
    assert Within(v, v[0], v[n - 1]);
    SumWithin(v, v[0], v[n - 1]);
    MeanWithin(Sum(v), n, v[0], v[n - 1]);
  }

  predicate GoodLink(v: Trips) { Sorted(v) && Within(v, 1, LONGEST_US) }

  lemma LinkIsGood(rtt: map<(nat, nat), nat>, peer: nat)
    requires Plausible(rtt)
    ensures GoodLink(LinkTo(rtt, peer))
  {
    SlotsWithin(rtt, peer, WARMUP);
    SortSorts(Slots(rtt, peer, WARMUP), 1, LONGEST_US);
  }

  lemma WorseIsValid(v: Trips, r: Report)
    requires GoodLink(v) && (r.Valid() || r == NO_REPORT)
    ensures Worse(r, v).Some? ==> Worse(r, v).value.Valid()
  {
    if |v| >= ENOUGH { LinkReportIsValid(v); }
  }

  lemma {:induction false} WorstLinkIsValid(links: seq<Trips>, id: nat, n: nat)
    requires n <= |links| && forall p :: 0 <= p < |links| ==> GoodLink(links[p])
    ensures var r := WorstLink(links, id, n);
      r.Some? ==> r.value.Valid() || (r.value == NO_REPORT && (n == 0 || (n == 1 && id == 0)))
  {
    if n > 0 {
      WorstLinkIsValid(links, id, n - 1);
      var before := WorstLink(links, id, n - 1);
      if before.Some? && n - 1 != id { WorseIsValid(links[n - 1], before.value); }
    }
  }

  /** The report a peer publishes passes every check of those who receive it. */
  lemma PublishedIsValid(rtt: map<(nat, nat), nat>, id: nat, count: nat)
    requires Plausible(rtt) && 2 <= count
    ensures var r := WorstLink(Links(rtt, count), id, count);
      r.Some? ==> r.value.Valid()
  {
    forall p: nat | p < count ensures GoodLink(Links(rtt, count)[p]) { LinkIsGood(rtt, p); }
    WorstLinkIsValid(Links(rtt, count), id, count);
  }

  // ---------------------------------------------------------------- attempts

  function Send(n: Node, body: Body): Message { Message(n.setup, n.id, n.attempt, body) }

  function Retried(n: Node, reason: Reason): Node {
    if n.phase == Committed || n.phase == Unavailable || n.phase == Retrying then n
    else n.(reason := reason, phase := Retrying, nextControl := 0)
  }

  function MadeUnavailable(n: Node, reason: Reason): Node {
    if n.phase == Unavailable then n else n.(reason := reason, phase := Unavailable, nextControl := 0)
  }

  function Entered(n: Node, attempt: nat, now: nat, reason: Reason): Node {
    n.(attempt := attempt, reason := reason, attemptBegin := now, phase := WaitingPeer)
  }

  function MasksCleared(n: Node): Node { n.(hellos := {}, summaries := {}, acceptances := {}, acks := {}) }

  function FlagsCleared(n: Node): Node {
    n.(probes := 0, haveLocal := false, accepted := false, stabilityStarted := false)
  }

  function DeadlinesCleared(n: Node): Node { n.(nextHello := 0, nextControl := 0, nextProbe := 0) }

  function TimesCleared(n: Node): Node { n.(lastProbe := 0, measurementBegin := 0, committedAt := 0) }

  function ReportsCleared(n: Node): Node { n.(local := NO_REPORT, reports := NO_REPORTS, choice := NO_CHOICE) }

  function SamplesCleared(n: Node): Node { n.(sentAt := map[], rtt := map[]) }

  /** Another attempt begins with nothing known. */
  function Reset(n: Node, attempt: nat, now: nat, reason: Reason): Node {
    var n1 := MasksCleared(Entered(n, attempt, now, reason));
    SamplesCleared(ReportsCleared(TimesCleared(DeadlinesCleared(FlagsCleared(n1)))))
  }

  /** The start of a calibration, if it is well configured. */
  function Begun(s: Setup, id: nat, now: nat): Node {
    Node(s, id, WaitingPeer, 0, NoReason, 0, now, now, 0, now, 0, 0, 0, 0, 0, false, false, false, {}, {}, {}, {},
         NO_REPORT, NO_REPORTS, NO_CHOICE, map[], map[])
  }

  lemma ResetStarts(n: Node, now: nat)
    requires n.begin == now == n.clock
    ensures Reset(n, 0, now, NoReason) == Begun(n.setup, n.id, now)
  {}

  // ---------------------------------------------------------------- a pump, part by part

  /** The same peer of the same calibration. */
  predicate Like(n: Node, n': Node) {
    n'.setup == n.setup && n'.id == n.id && (|n'.reports| == |n.reports| || |n'.reports| == MAX_PLAYERS)
  }

  function Observed(n: Node, now: nat): (r: Node)
    ensures Like(n, r)
  {
    if n.phase == Failed then n
    else if now < n.clock then n.(phase := Failed)
    else
      var late := n.phase == Measuring && now - n.clock > GAP_US;
      (if late && n.probes > 0 then Retried(n, Interrupted)
       else if late then n.(stabilityStarted := false) else n).(clock := now)
  }

  function Elapsed(now: nat, since: nat): nat { if since <= now then now - since else 0 }

  /** The losses and timeouts that end the calibration. */
  function Watched(n: Node, a: Around): (r: Node)
    ensures Like(n, r)
  {
    var n1 := if n.phase != Committed && a.broken then MadeUnavailable(n, Connection) else n;
    var n2 := if n1.phase != Committed && n1.phase != Unavailable && Elapsed(a.now, n1.begin) >= STARTUP_TIMEOUT_US
      then MadeUnavailable(n1, Timeout) else n1;
    if n2.phase == WaitingPeer && Elapsed(a.now, n2.attemptBegin) >= PEER_WAIT_US then MadeUnavailable(n2, PeerMissing)
    else n2
  }

  /** The timeouts and interruptions that end an attempt. */
  function Checked(n: Node, a: Around): (r: Node)
    ensures Like(n, r)
  {
    Stalled(TimedOut(n, a), a)
  }

  function TimedOut(n: Node, a: Around): Node {
    if (n.phase == Measuring || n.phase == Negotiating) && Elapsed(a.now, n.measurementBegin) >= MEASUREMENT_TIMEOUT_US
    then Retried(n, Timeout) else n
  }

  function Stalled(n: Node, a: Around): Node {
    if n.phase == Measuring && n.probes > 0 && (a.suspended || !a.open || a.recovering)
    then Retried(n, if a.suspended then Hidden else Connection) else n
  }

  /** Only the host begins another attempt, and only so many. */
  function Restarted(n: Node, now: nat): (r: Node)
    ensures Like(n, r)
  {
    if n.phase != Retrying || !n.IsHost() then n
    else if n.attempt >= MAX_RETRIES then MadeUnavailable(n, Exhausted)
    else Reset(n, n.attempt + 1, now, n.reason)
  }

  /** What a peer repeats when it is not calibrating. */
  function Repeated(n: Node, now: nat): (Node, set<Message>) {
    if n.phase == Unavailable && now >= n.nextControl
    then (n.(nextControl := now + RESEND_US), {Send(n, Stop(n.reason))})
    else if n.phase == Retrying && now >= n.nextControl
    then (n.(nextControl := now + RESEND_US), {Send(n, RetryRequest(n.reason))})
    else if n.phase == Committed && n.IsHost() && n.acks + {n.id} != Everyone(n.setup.count)
      && Elapsed(now, n.committedAt) < COMMIT_RESEND_US && now >= n.nextControl
    then (n.(nextControl := now + RESEND_US), {Send(n, Commit(n.choice))})
    else (n, {})
  }

  function Greeted(n: Node, a: Around): (r: (Node, set<Message>))
    ensures Like(n, r.0)
  {
    if a.now < n.nextHello then (n, {}) else
      (n.(nextHello := a.now + RESEND_US),
       (if n.IsHost() && n.attempt > 0 && n.phase == WaitingPeer then {Send(n, Restart(n.reason))} else {})
       + (if a.suspended then {} else {Send(n, Hello)}))
  }

  /** Measuring starts when every peer has said hello, and probing once the links have had time to settle. */
  function Readied(n: Node, a: Around): (r: Node)
    ensures Like(n, r)
  {
    Stabilizing(if n.hellos + {n.id} == Everyone(n.setup.count) && n.phase == WaitingPeer
                then n.(phase := Measuring, measurementBegin := a.now) else n, a)
  }

  function Stabilizing(n: Node, a: Around): Node {
    if n.phase == Measuring && n.probes == 0 && !n.stabilityStarted
    then n.(nextProbe := a.now + STABILIZE_US, stabilityStarted := true) else n
  }

  /** At most one fresh probe a pump, to every other peer. */
  function Probed(n: Node, a: Around): (r: (Node, set<Message>))
    ensures Like(n, r.0)
  {
    if n.phase == Measuring && n.probes < PROBE_COUNT && a.now >= n.nextProbe then
      (n.(probes := n.probes + 1, nextProbe := a.now + INTERVAL_US, lastProbe := a.now,
          sentAt := ProbeTimes(n, a, n.setup.count)),
       ProbesTo(n, n.setup.count))
    else (n, {})
  }

  /** The next probe to each of the first `count` peers. */
  function ProbesTo(n: Node, count: nat): set<Message> {
    if count == 0 then {}
    else if count - 1 == n.id then ProbesTo(n, count - 1)
    else ProbesTo(n, count - 1) + {Send(n, Probe(n.probes + 1, count - 1))}
  }

  /** When each of these probes was sent, if it was. */
  function ProbeTimes(n: Node, a: Around, count: nat): map<(nat, nat), nat> {
    if count == 0 then n.sentAt
    else if count - 1 == n.id || count - 1 !in a.reached then ProbeTimes(n, a, count - 1)
    else ProbeTimes(n, a, count - 1)[(count - 1, n.probes + 1) := a.now]
  }

  /** The end of the measurement freezes the local report, once an attempt, if every link is good enough. */
  function Measured(n: Node, a: Around): (r: Node)
    requires n.id < |n.reports|
    ensures Like(n, r)
  {
    if n.phase == Measuring && n.probes == PROBE_COUNT && Elapsed(a.now, n.lastProbe) >= INTERVAL_US + TAIL_US then
      Frozen(n, WorstLink(Links(n.rtt, n.setup.count), n.id, n.setup.count))
    else n
  }

  function Frozen(n: Node, worst: Option<Report>): (r: Node)
    requires n.id < |n.reports|
    ensures Like(n, r)
  {
    if worst == None then Retried(n, Samples)
    else Reported(n, worst.value).(haveLocal := true, phase := Negotiating, nextControl := 0)
  }

  function Reported(n: Node, r: Report): Node
    requires n.id < |n.reports|
  {
    n.(local := r, reports := n.reports[n.id := r], summaries := n.summaries + {n.id})
  }

  /** Summaries are repeated until all of them are known; then the one choice they determine is negotiated. */
  function Negotiated(n: Node, a: Around): (Node, set<Message>)
    requires n.setup.count <= |n.reports|
  {
    if !n.haveLocal || a.now < n.nextControl then (n, {})
    else if n.summaries != Everyone(n.setup.count)
    then (n.(nextControl := a.now + RESEND_US), {Send(n, Summary(n.local))})
    else Concluded(n.(choice := ChooseAll(n)), a)
  }

  /** The host proposes, the clients accept, and the host commits when every client has accepted. */
  function Concluded(n: Node, a: Around): (Node, set<Message>) {
    var summary, later := {Send(n, Summary(n.local))}, n.(nextControl := a.now + RESEND_US);
    if n.choice.delay > MAX_DELAY then (MadeUnavailable(n, Budget), summary)
    else if n.IsHost() && n.acceptances + {n.id} != Everyone(n.setup.count)
    then (later, summary + {Send(n, Proposal(n.choice))})
    else if n.IsHost() && a.taken
    then (later.(phase := Committed, committedAt := a.now), summary + {Send(n, Commit(n.choice))})
    else if !n.IsHost() && n.accepted then (later, summary + {Send(n, Accept(n.choice))})
    else (later, summary)
  }

  /** Probing, the end of the measurement, and the negotiation. */
  function Calibrated(n: Node, a: Around): (Node, set<Message>)
    requires n.setup.count <= MAX_PLAYERS == |n.reports| && n.id < MAX_PLAYERS
  {
    var (n1, m1) := Probed(Readied(n, a), a);
    var (n2, m2) := Negotiated(Measured(n1, a), a);
    (n2, m1 + m2)
  }

  /** An attempt under way. */
  function Worked(n: Node, a: Around): (Node, set<Message>)
    requires n.setup.count <= MAX_PLAYERS == |n.reports| && n.id < MAX_PLAYERS
  {
    var (n1, m1) := Greeted(n, a);
    if a.suspended || a.recovering then (n1, m1) else
      var (n2, m2) := Calibrated(n1, a);
      (n2, m1 + m2)
  }

  /** A pump once losses, timeouts and restarts are settled. */
  function Continued(n: Node, a: Around): (Node, set<Message>)
    requires n.setup.count <= MAX_PLAYERS == |n.reports| && n.id < MAX_PLAYERS
  {
    if !a.open then (if n.probes == 0 then n.(stabilityStarted := false) else n, {})
    else if n.phase == Unavailable || n.phase == Retrying || n.phase == Committed then Repeated(n, a.now)
    else Worked(n, a)
  }

  /** One pump. */
  function Pumped(n: Node, a: Around): (Node, set<Message>)
    requires n.setup.count <= MAX_PLAYERS == |n.reports| && n.id < MAX_PLAYERS
  {
    var n1 := Observed(n, a.now);
    if n1.phase == Failed then (n1, {})
    else if n1.phase == Idle then (n1.(phase := Failed), {})
    else Continued(Restarted(Checked(Watched(n1, a), a), a.now), a)
  }

  // ---------------------------------------------------------------- a delivery

  predicate Answered(m: Message, n: Node) {
    m.from < n.setup.count && m.from != n.id && m.setup == n.setup
    && ((m.body.Probe? || m.body.Echo?) ==> m.body.target == n.id) && m.attempt <= MAX_RETRIES
    && (m.body.Restart? ==> m.from == HOST)
  }

  function Failing(n: Node): Node { n.(phase := Failed) }

  /** Requests that concern attempts rather than measurements. */
  function Steered(n: Node, m: Message, now: nat): Node {
    match m.body
    case Stop(reason) => if m.attempt < n.attempt || n.phase == Committed then n else MadeUnavailable(n, reason)
    case Restart(reason) =>
      if m.attempt > n.attempt && n.phase != Committed && n.phase != Unavailable then Reset(n, m.attempt, now, reason)
      else n
    case RetryRequest(reason) => if m.attempt == n.attempt && n.IsHost() then Retried(n, reason) else n
    case _ => n
  }

  function Summarized(n: Node, from: nat, r: Report): Node
    requires from < |n.reports|
  {
    if !r.Valid() then Failing(n)
    else if from in n.summaries && n.reports[from] != r then Failing(n)
    else n.(nextControl := if from in n.summaries then n.nextControl else 0, reports := n.reports[from := r],
          summaries := n.summaries + {from})
  }

  /** The first timely echo of a slot that counts is its round trip. */
  function Echoed(n: Node, from: nat, sequence: nat, now: nat): Node {
    var k := (from, sequence);
    if !n.haveLocal && sequence >= WARMUP && k in n.sentAt && k !in n.rtt && 0 < Elapsed(now, n.sentAt[k]) <= LONGEST_US
    then n.(rtt := n.rtt[k := Elapsed(now, n.sentAt[k])]) else n
  }

  /** A decision counts only for a peer that has every summary, and must be the one these determine. */
  function Decided(n: Node, m: Message, now: nat): (Node, set<Message>)
    requires n.setup.count <= |n.reports| && (m.body.Proposal? || m.body.Accept? || m.body.Commit? || m.body.CommitAck?)
  {
    if !n.haveLocal || n.summaries != Everyone(n.setup.count) then (n, {})
    else if m.body.choice != ChooseAll(n) || ChooseAll(n).delay > MAX_DELAY then (Failing(n), {})
    else Ruled(n.(choice := ChooseAll(n)), m, now)
  }

  /** Proposals, acceptances, commits and their acknowledgements, each from whom it may come. */
  function Ruled(n: Node, m: Message, now: nat): (Node, set<Message>) {
    if !n.IsHost() && m.from != HOST && (m.body.Accept? || m.body.CommitAck?) then (n, {})
    else if m.body.Proposal? && !n.IsHost() && m.from == HOST then (n.(accepted := true), {Send(n, Accept(n.choice))})
    else if m.body.Accept? && n.IsHost() then (n.(acceptances := n.acceptances + {m.from}, nextControl := 0), {})
    else if m.body.Commit? && !n.IsHost() && m.from == HOST && n.accepted
    then (n.(phase := Committed, committedAt := now), {Send(n, CommitAck(n.choice))})
    else if m.body.CommitAck? && n.IsHost() && n.phase == Committed then (n.(acks := n.acks + {m.from}), {})
    else (Failing(n), {})
  }

  /** A well-formed packet, by its kind. */
  function Handled(n: Node, m: Message, a: Around): (Node, set<Message>)
    requires n.setup.count <= |n.reports| && m.from < |n.reports|
  {
    if m.body.Stop? || m.body.Restart? || m.body.RetryRequest? then (Steered(n, m, a.now), {})
    else if m.attempt != n.attempt || n.phase == Unavailable || n.phase == Retrying then (n, {})
    else if m.body.Hello? then (n.(hellos := n.hellos + {m.from}), {})
    else if m.body.Probe? || m.body.Echo? then
      if m.body.sequence == 0 || m.body.sequence >= ATTEMPTS then (Failing(n), {})
      else if a.suspended then (Retried(n, Hidden), {})
      else if m.body.Probe? then (n, {Send(n, Echo(m.body.sequence, m.from))})
      else (Echoed(n, m.from, m.body.sequence, a.now), {})
    else if m.body.Summary? then (Summarized(n, m.from, m.body.report), {})
    else Decided(n, m, a.now)
  }

  function Received(n: Node, m: Message, a: Around): (Node, set<Message>)
    requires n.setup.count <= MAX_PLAYERS == |n.reports|
  {
    var n1 := Observed(n, a.now);
    if n1.phase == Failed then (n1, {})
    else if m.setup.sessionId != n.setup.sessionId then (n1, {})
    else if !Answered(m, n1) then (Failing(n1), {})
    else Handled(n1, m, a)
  }
}
