/** Calibrating peers and every packet they ever sent. Packets may be lost, repeated, delayed and reordered;
    attempts may be restarted; still all committed peers agree, and honest peers never accuse each other. */
module AdonisAgreement {
  import opened Options
  import opened AdonisState

  /** The peers, the packets sent so far, and three records that no peer sees: which reports were measured in
      which attempt, who has accepted in which attempt, and the attempt the host committed. */
  datatype World = World(
    setup: Setup, nodes: seq<Node>, soup: set<Message>,
    measured: map<(nat, nat), Report>, accepted: set<(nat, nat)>, committed: Option<nat>)

  ghost predicate AllMeasured(w: World, a: nat) { forall j: nat :: j < w.setup.count ==> (j, a) in w.measured }

  ghost function ReportsOf(w: World, a: nat): (r: seq<Report>)
    requires AllMeasured(w, a)
    ensures |r| == w.setup.count && forall j: nat :: j < w.setup.count ==> r[j] == w.measured[(j, a)]
  {
    seq(w.setup.count, j requires 0 <= j < w.setup.count => w.measured[(j, a)])
  }

  /** The one choice an attempt can lead to. */
  ghost function ChoiceOf(w: World, a: nat): Choice
    requires AllMeasured(w, a)
  {
    Choose(Worst(0, ReportsOf(w, a), w.setup.count), w.setup)
  }

  ghost predicate Agreed(w: World, a: nat, c: Choice) {
    AllMeasured(w, a) && c == ChoiceOf(w, a) && c.delay <= MAX_DELAY
  }

  ghost predicate AllAccepted(w: World, a: nat) { forall j: nat :: 0 < j < w.setup.count ==> (j, a) in w.accepted }

  // ---------------------------------------------------------------- what holds of every peer and packet

  ghost predicate Shaped(n: Node, s: Setup, i: nat) {
    && n.setup == s && n.id == i < s.count && |n.reports| == MAX_PLAYERS && n.attempt <= MAX_RETRIES
    && n.phase != Idle && n.phase != Failed && n.probes <= PROBE_COUNT && Plausible(n.rtt)
  }

  /** What a peer knows of the attempt it is in was measured in that attempt. */
  ghost predicate Knows(w: World, n: Node) {
    && (forall j: nat :: j in n.summaries ==> j < w.setup.count && (j, n.attempt) in w.measured)
    && (forall j: nat :: j in n.summaries && j < |n.reports| ==> n.reports[j] == w.measured[(j, n.attempt)])
    && (n.haveLocal <==> n.id in n.summaries) && (n.haveLocal <==> (n.id, n.attempt) in w.measured)
    && (n.haveLocal && n.id < |n.reports| ==> n.local == n.reports[n.id])
  }

  /** A peer has been in no later attempt. */
  ghost predicate Latest(w: World, n: Node) {
    && (forall a: nat :: (n.id, a) in w.measured ==> a <= n.attempt)
    && (forall a: nat :: (n.id, a) in w.accepted ==> a <= n.attempt)
  }

  ghost predicate Decides(w: World, n: Node) {
    && (n.accepted <==> (n.id, n.attempt) in w.accepted) && (n.accepted ==> n.id != HOST)
    && (n.phase == WaitingPeer || n.phase == Measuring ==> !n.haveLocal)
    && (n.phase == Negotiating ==> n.haveLocal)
    && (n.phase == Committed ==> w.committed == Some(n.attempt) && Agreed(w, n.attempt, n.choice))
    && (n.IsHost() ==> forall j: nat :: j in n.acceptances ==> j < w.setup.count && (j, n.attempt) in w.accepted)
    && (n.IsHost() && w.committed.Some? ==> n.phase == Committed)
  }

  ghost predicate NodeOk(w: World, n: Node, i: nat) {
    Shaped(n, w.setup, i) && Knows(w, n) && Latest(w, n) && Decides(w, n)
  }

  ghost predicate BodyOk(w: World, m: Message) {
    match m.body
    case Hello => true
    case Probe(sequence, target) => 0 < sequence < ATTEMPTS
    case Echo(sequence, target) => 0 < sequence < ATTEMPTS
    case Summary(r) => (m.from, m.attempt) in w.measured && w.measured[(m.from, m.attempt)] == r
    case Proposal(c) => m.from == HOST && Agreed(w, m.attempt, c)
    case Accept(c) => m.from != HOST && Agreed(w, m.attempt, c) && (m.from, m.attempt) in w.accepted
    case Commit(c) => m.from == HOST && Agreed(w, m.attempt, c) && w.committed == Some(m.attempt)
    case CommitAck(c) => m.from != HOST && Agreed(w, m.attempt, c) && w.committed == Some(m.attempt)
    case RetryRequest(reason) => true
    case Restart(reason) => m.from == HOST
    case Stop(reason) => true
  }

  ghost predicate MessageOk(w: World, m: Message) {
    m.setup == w.setup && m.from < w.setup.count && m.attempt <= MAX_RETRIES && BodyOk(w, m)
  }

  ghost predicate RecordsOk(w: World) {
    && w.setup.Valid() && |w.nodes| == w.setup.count
    && (forall k: (nat, nat) :: k in w.measured ==> w.measured[k].Valid())
    && (forall j: nat, a: nat :: (j, a) in w.accepted ==> AllMeasured(w, a) && ChoiceOf(w, a).delay <= MAX_DELAY)
    && (w.committed.Some? ==> AllAccepted(w, w.committed.value))
  }

  ghost predicate WorldOk(w: World) {
    && RecordsOk(w)
    && (forall i: nat :: i < |w.nodes| ==> NodeOk(w, w.nodes[i], i))
    && forall m :: m in w.soup ==> MessageOk(w, m)
  }

  // ---------------------------------------------------------------- one peer moves

  /** The world after peer `i` becomes `n` and sends `sent`. */
  function Moved(w: World, i: nat, n: Node, sent: set<Message>): World
    requires i < |w.nodes|
  {
    w.(nodes := w.nodes[i := n], soup := w.soup + sent,
       measured := if n.haveLocal then w.measured[(i, n.attempt) := n.local] else w.measured,
       accepted := if n.accepted then w.accepted + {(i, n.attempt)} else w.accepted,
       committed := if i == HOST && n.phase == Committed then Some(n.attempt) else w.committed)
  }

  /** What no move of a peer undoes. */
  ghost predicate Keeps(n: Node, n': Node) {
    && n'.setup == n.setup && n'.id == n.id && n.attempt <= n'.attempt
    && (n'.attempt == n.attempt ==> (n.haveLocal ==> n'.haveLocal && n'.local == n.local))
    && (n'.attempt == n.attempt ==> (n.accepted ==> n'.accepted))
    && (n.phase == Committed ==> n'.phase == Committed && n'.attempt == n.attempt)
  }

  /** The records only grow. */
  ghost predicate Extends(w: World, w': World) {
    && w'.setup == w.setup
    && (forall k: (nat, nat) :: k in w.measured ==> k in w'.measured && w'.measured[k] == w.measured[k])
    && (forall k: (nat, nat) :: k in w.accepted ==> k in w'.accepted)
    && (w.committed.Some? ==> w'.committed == w.committed)
  }

  lemma MoveExtends(w: World, i: nat, n: Node, sent: set<Message>)
    requires WorldOk(w) && i < |w.nodes| && Keeps(w.nodes[i], n)
    ensures Extends(w, Moved(w, i, n, sent))
  {
    var before := w.nodes[i];
    assert NodeOk(w, before, i) && NodeOk(w, w.nodes[HOST], HOST);
    if n.haveLocal && (i, n.attempt) in w.measured {
      assert n.attempt == before.attempt;
    }
  }

  lemma AgreedExtends(w: World, w': World, a: nat, c: Choice)
    requires Extends(w, w') && Agreed(w, a, c)
    ensures Agreed(w', a, c)
  {
    assert ReportsOf(w, a) == ReportsOf(w', a);
  }

  lemma MessageExtends(w: World, w': World, m: Message)
    requires Extends(w, w') && MessageOk(w, m)
    ensures MessageOk(w', m)
  {
    if m.body.Proposal? || m.body.Accept? || m.body.Commit? || m.body.CommitAck? {
      AgreedExtends(w, w', m.attempt, m.body.choice);
    }
  }

  /** A peer that did not move is as it was. */
  lemma OtherExtends(w: World, i: nat, n: Node, sent: set<Message>, j: nat)
    requires WorldOk(w) && i < |w.nodes| && j < |w.nodes| && j != i && Keeps(w.nodes[i], n)
    requires Extends(w, Moved(w, i, n, sent))
    ensures NodeOk(Moved(w, i, n, sent), w.nodes[j], j)
  {
    var w', other := Moved(w, i, n, sent), w.nodes[j];
    assert NodeOk(w, other, j) && NodeOk(w, w.nodes[HOST], HOST);
    if other.phase == Committed { AgreedExtends(w, w', other.attempt, other.choice); }
  }

  /** A move that leaves the moving peer and its packets in order leaves everything in order. */
  lemma MoveKeeps(w: World, i: nat, n: Node, sent: set<Message>)
    requires WorldOk(w) && i < |w.nodes| && Keeps(w.nodes[i], n)
    requires RecordsOk(Moved(w, i, n, sent)) && NodeOk(Moved(w, i, n, sent), n, i)
    requires forall m :: m in sent ==> MessageOk(Moved(w, i, n, sent), m)
    ensures WorldOk(Moved(w, i, n, sent)) && Extends(w, Moved(w, i, n, sent))
  {
    var w' := Moved(w, i, n, sent);
    MoveExtends(w, i, n, sent);
    forall j: nat | j < |w'.nodes| ensures NodeOk(w', w'.nodes[j], j) {
      if j != i { OtherExtends(w, i, n, sent, j); }
    }
    forall m | m in w'.soup ensures MessageOk(w', m) {
      if m in w.soup { MessageExtends(w, w', m); }
    }
  }

  /** The same knowledge and decisions; only the phase may give up or start measuring. */
  ghost predicate Same(n: Node, n': Node) {
    && n'.setup == n.setup && n'.id == n.id && n'.attempt == n.attempt && n'.summaries == n.summaries
    && n'.reports == n.reports
    && n'.haveLocal == n.haveLocal && n'.local == n.local && n'.accepted == n.accepted
    && n'.acceptances == n.acceptances
    && n'.choice == n.choice && n'.rtt == n.rtt && (n.probes <= PROBE_COUNT ==> n'.probes <= PROBE_COUNT)
    && (n'.phase == n.phase || (n.phase != Committed && (n'.phase == Retrying || n'.phase == Unavailable))
        || (n.phase == WaitingPeer && n'.phase == Measuring))
  }

  function Placed(w: World, i: nat, n: Node, sent: set<Message>): World
    requires i < |w.nodes|
  {
    w.(nodes := w.nodes[i := n], soup := w.soup + sent)
  }

  lemma SameIsPlaced(w: World, i: nat, n: Node, sent: set<Message>)
    requires WorldOk(w) && i < |w.nodes| && Same(w.nodes[i], n)
    ensures Moved(w, i, n, sent) == Placed(w, i, n, sent)
  {
    var before := w.nodes[i];
    assert NodeOk(w, before, i);
    if n.haveLocal {
      assert w.measured[(i, n.attempt)] == n.local;
      assert w.measured[(i, n.attempt) := n.local] == w.measured;
    }
    if n.accepted { assert w.accepted + {(i, n.attempt)} == w.accepted; }
  }

  lemma PlacedRecords(w: World, i: nat, n: Node, sent: set<Message>)
    requires WorldOk(w) && i < |w.nodes|
    ensures RecordsOk(Placed(w, i, n, sent)) && Extends(w, Placed(w, i, n, sent))
  {
    var w' := Placed(w, i, n, sent);
    forall j: nat, a: nat | (j, a) in w'.accepted ensures AllMeasured(w', a) && ChoiceOf(w', a).delay <= MAX_DELAY {
      assert AllMeasured(w, a) && ReportsOf(w, a) == ReportsOf(w', a);
    }
  }

  lemma SameKeeps(w: World, i: nat, n: Node, sent: set<Message>)
    requires WorldOk(w) && i < |w.nodes| && Same(w.nodes[i], n) && forall m :: m in sent ==> MessageOk(w, m)
    ensures Moved(w, i, n, sent) == Placed(w, i, n, sent) && WorldOk(Placed(w, i, n, sent))
  {
    var w', before := Placed(w, i, n, sent), w.nodes[i];
    SameIsPlaced(w, i, n, sent);
    PlacedRecords(w, i, n, sent);
    assert NodeOk(w, before, i);
    if n.phase == Committed { AgreedExtends(w, w', n.attempt, n.choice); }
    forall m | m in sent ensures MessageOk(w', m) { MessageExtends(w, w', m); }
    MoveKeeps(w, i, n, sent);
  }

  /** Another attempt begins with nothing known; a committed host never begins one. */
  lemma ResetKeeps(w: World, i: nat, attempt: nat, now: nat, reason: Reason, n: Node)
    requires WorldOk(w) && i < |w.nodes| && w.nodes[i].attempt < attempt <= MAX_RETRIES && w.nodes[i].phase != Committed
    requires n == Reset(w.nodes[i], attempt, now, reason)
    ensures Moved(w, i, n, {}) == Placed(w, i, n, {}) && WorldOk(Placed(w, i, n, {}))
  {
    ResetIsFresh(w.nodes[i], attempt, now, reason);
    assert NodeOk(w, w.nodes[i], i);
    PlacedRecords(w, i, n, {});
    MoveKeeps(w, i, n, {});
  }

  lemma ResetIsFresh(before: Node, attempt: nat, now: nat, reason: Reason)
    ensures var n := Reset(before, attempt, now, reason);
      && n.setup == before.setup && n.id == before.id && n.attempt == attempt && n.phase == WaitingPeer && n.probes == 0
      && !n.haveLocal && !n.accepted && n.summaries == {} && n.acceptances == {} && |n.reports| == MAX_PLAYERS
      && n.rtt == map[]
  {}

  // ---------------------------------------------------------------- a pump

  /** Time does not run backwards at any peer. */
  ghost predicate Honest(n: Node, a: Around) { n.clock <= a.now }

  lemma ObservedIsSame(n: Node, now: nat)
    requires n.phase != Failed && n.clock <= now
    ensures Same(n, Observed(n, now)) && Observed(n, now).phase != Failed
      && (n.phase != Idle ==> Observed(n, now).phase != Idle)
  {}

  lemma WatchedIsSame(n: Node, a: Around)
    ensures Same(n, Watched(n, a))
  {}

  lemma CheckedIsSame(n: Node, a: Around)
    ensures Same(n, Checked(n, a))
  {
    var n1 := TimedOut(n, a);
    TimedOutIsSame(n, a);
    StalledIsSame(n1, a);
    SameTwice(n, n1, Stalled(n1, a));
  }

  lemma TimedOutIsSame(n: Node, a: Around)
    ensures Same(n, TimedOut(n, a))
  {}

  lemma StalledIsSame(n: Node, a: Around)
    ensures Same(n, Stalled(n, a))
  {}

  lemma SameTwice(a: Node, b: Node, c: Node)
    requires Same(a, b) && Same(b, c)
    ensures Same(a, c)
  {}

  lemma SettledIsSame(n: Node, a: Around)
    requires n.phase != Failed && n.clock <= a.now
    ensures Same(n, Checked(Watched(Observed(n, a.now), a), a))
    ensures Observed(n, a.now).phase != Failed && (n.phase != Idle ==> Observed(n, a.now).phase != Idle)
  {
    var n1 := Observed(n, a.now);
    var n2 := Watched(n1, a);
    ObservedIsSame(n, a.now);
    WatchedIsSame(n1, a);
    CheckedIsSame(n2, a);
    SameTwice(n, n1, n2);
    SameTwice(n, n2, Checked(n2, a));
  }

  lemma RestartKeeps(w: World, i: nat, now: nat, n: Node)
    requires WorldOk(w) && i < |w.nodes| && n == Restarted(w.nodes[i], now)
    ensures Moved(w, i, n, {}) == Placed(w, i, n, {}) && WorldOk(Placed(w, i, n, {}))
  {
    var before := w.nodes[i];
    if before.phase == Retrying && before.IsHost() && before.attempt < MAX_RETRIES {
      ResetKeeps(w, i, before.attempt + 1, now, before.reason, n);
    } else {
      SameKeeps(w, i, n, {});
    }
  }

  lemma BeginningKeeps(w: World, i: nat, a: Around, n1: Node, n: Node)
    requires WorldOk(w) && i < |w.nodes| && Same(w.nodes[i], n1) && n == Restarted(n1, a.now)
    ensures Moved(w, i, n, {}) == Placed(w, i, n, {}) && WorldOk(Placed(w, i, n, {}))
  {
    SameKeeps(w, i, n1, {});
    RestartKeeps(Placed(w, i, n1, {}), i, a.now, n);
    PlacedThen(w, i, n1, {}, n, {});
    var none: set<Message> := {};
    assert none + none == none;
  }

  lemma RepeatedStays(n: Node, now: nat)
    ensures Same(n, Repeated(n, now).0)
  {}

  lemma RepeatedIsSame(w: World, i: nat, n: Node, now: nat)
    requires NodeOk(w, n, i)
    ensures var (n', sent) := Repeated(n, now);
      Same(n, n') && forall m :: m in sent ==> MessageOk(w, m)
  {
    RepeatedStays(n, now);
  }

  lemma RepeatedKeeps(w: World, i: nat, now: nat)
    requires WorldOk(w) && i < |w.nodes|
    ensures var (n, sent) := Repeated(w.nodes[i], now);
      Moved(w, i, n, sent) == Placed(w, i, n, sent) && WorldOk(Placed(w, i, n, sent))
  {
    var (n, sent) := Repeated(w.nodes[i], now);
    RepeatedIsSame(w, i, w.nodes[i], now);
    SameKeeps(w, i, n, sent);
  }

  lemma GreetedIsSame(w: World, i: nat, n: Node, a: Around)
    requires NodeOk(w, n, i)
    ensures var (n', sent) := Greeted(n, a);
      Same(n, n') && forall m :: m in sent ==> MessageOk(w, m)
  {}

  lemma GreetedKeeps(w: World, i: nat, a: Around)
    requires WorldOk(w) && i < |w.nodes|
    ensures var (n, sent) := Greeted(w.nodes[i], a);
      Moved(w, i, n, sent) == Placed(w, i, n, sent) && WorldOk(Placed(w, i, n, sent))
  {
    var (n, sent) := Greeted(w.nodes[i], a);
    GreetedIsSame(w, i, w.nodes[i], a);
    SameKeeps(w, i, n, sent);
  }

  lemma ReadiedIsSame(n: Node, a: Around)
    ensures Same(n, Readied(n, a))
    ensures Readied(n, a).phase == n.phase || Readied(n, a).phase == Measuring
  {
    var n1 := if n.hellos + {n.id} == Everyone(n.setup.count) && n.phase == WaitingPeer
      then n.(phase := Measuring, measurementBegin := a.now) else n;
    StabilizingIsSame(n1, a);
    SameTwice(n, n1, Readied(n, a));
  }

  lemma StabilizingIsSame(n: Node, a: Around)
    ensures Same(n, Stabilizing(n, a)) && Stabilizing(n, a).phase == n.phase
  {}

  lemma {:induction false} ProbesAreOk(w: World, n: Node, i: nat, count: nat)
    requires NodeOk(w, n, i) && n.probes < PROBE_COUNT
    ensures forall m :: m in ProbesTo(n, count) ==> MessageOk(w, m)
  {
    if count > 0 { ProbesAreOk(w, n, i, count - 1); }
  }

  lemma ProbedIsSame(w: World, i: nat, n: Node, a: Around)
    requires NodeOk(w, n, i)
    ensures var (n', sent) := Probed(n, a);
      Same(n, n') && forall m :: m in sent ==> MessageOk(w, m)
  {
    if n.probes < PROBE_COUNT { ProbesAreOk(w, n, i, n.setup.count); }
  }

  lemma ProbedKeeps(w: World, i: nat, a: Around)
    requires WorldOk(w) && i < |w.nodes|
    ensures var (n, sent) := Probed(w.nodes[i], a);
      Moved(w, i, n, sent) == Placed(w, i, n, sent) && WorldOk(Placed(w, i, n, sent))
  {
    var (n, sent) := Probed(w.nodes[i], a);
    ProbedIsSame(w, i, w.nodes[i], a);
    SameKeeps(w, i, n, sent);
  }

  /** A measurement is published whole, or nothing but the phase changes. */
  lemma MeasuredCases(before: Node, a: Around, n: Node)
    requires before.id < |before.reports| && n == Measured(before, a) && Plausible(before.rtt)
      && 2 <= before.setup.count
    ensures if before.phase == Measuring && n.phase == Negotiating
      then n.local.Valid() && n == Reported(before, n.local).(haveLocal := true, phase := Negotiating, nextControl := 0)
      else Same(before, n)
  {
    PublishedIsValid(before.rtt, before.id, before.setup.count);
  }

  lemma MeasuredKeeps(w: World, i: nat, a: Around)
    requires WorldOk(w) && i < |w.nodes| && i < |w.nodes[i].reports|
    ensures WorldOk(Moved(w, i, Measured(w.nodes[i], a), {}))
  {
    var before, n := w.nodes[i], Measured(w.nodes[i], a);
    NodeIsShaped(w, i);
    assert before.id == i && 2 <= w.setup.count && Plausible(before.rtt);
    MeasuredCases(before, a, n);
    if before.phase == Measuring && n.phase == Negotiating {
      FreezeKeeps(w, i, n, n.local);
    } else {
      SameKeeps(w, i, n, {});
    }
  }

  /** The measurement of an attempt, recorded once. */
  lemma FreezeKeeps(w: World, i: nat, n: Node, r: Report)
    requires WorldOk(w) && i < |w.nodes| && i < |w.nodes[i].reports| && w.nodes[i].phase == Measuring && r.Valid()
    requires n ==
      w.nodes[i].(local := r, reports := w.nodes[i].reports[i := r], summaries := w.nodes[i].summaries + {i},
                              haveLocal := true, phase := Negotiating, nextControl := 0)
    ensures WorldOk(Moved(w, i, n, {}))
  {
    assert NodeOk(w, w.nodes[i], i);
    MoveExtends(w, i, n, {});
    MeasuredRecords(w, i, n);
    MoveKeeps(w, i, n, {});
  }

  /** A round trip is recorded. */
  lemma EchoKeeps(w: World, i: nat, n: Node)
    requires WorldOk(w) && i < |w.nodes| && n == w.nodes[i].(rtt := n.rtt) && Plausible(n.rtt)
    ensures WorldOk(Moved(w, i, n, {}))
  {
    var before, w' := w.nodes[i], Placed(w, i, n, {});
    assert NodeOk(w, before, i);
    PlacedRecords(w, i, n, {});
    if n.phase == Committed { AgreedExtends(w, w', n.attempt, n.choice); }
    if n.haveLocal { assert w.measured[(i, n.attempt) := n.local] == w.measured; }
    if n.accepted { assert w.accepted + {(i, n.attempt)} == w.accepted; }
    assert Moved(w, i, n, {}) == w';
    MoveKeeps(w, i, n, {});
  }

  lemma MeasuredRecords(w: World, i: nat, n: Node)
    requires WorldOk(w) && i < |w.nodes| && Extends(w, Moved(w, i, n, {})) && n.local.Valid()
    requires n.accepted == w.nodes[i].accepted && n.attempt == w.nodes[i].attempt && n.phase != Committed
    ensures RecordsOk(Moved(w, i, n, {}))
  {
    var w' := Moved(w, i, n, {});
    assert NodeOk(w, w.nodes[i], i);
    forall j: nat, b: nat | (j, b) in w'.accepted ensures AllMeasured(w', b) && ChoiceOf(w', b).delay <= MAX_DELAY {
      assert (j, b) in w.accepted;
      assert AllMeasured(w, b) && ReportsOf(w, b) == ReportsOf(w', b);
    }
  }

  // ---------------------------------------------------------------- the one choice of an attempt

  lemma {:induction false} WorstFrom(p95: nat, reports: seq<Report>, n: nat)
    requires n <= |reports|
    ensures Worst(p95, reports, n) == if p95 > Worst(0, reports, n) then p95 else Worst(0, reports, n)
  {
    if n > 0 { WorstFrom(p95, reports, n - 1); }
  }

  lemma {:induction false} WorstOfSame(a: seq<Report>, b: seq<Report>, n: nat)
    requires n <= |a| && n <= |b| && forall j :: 0 <= j < n ==> a[j] == b[j]
    ensures Worst(0, a, n) == Worst(0, b, n)
  {
    if n > 0 { WorstOfSame(a, b, n - 1); }
  }

  /** A peer that has every summary chooses what the attempt's measurements determine, whoever it is. */
  lemma SameChoice(w: World, i: nat)
    requires WorldOk(w) && i < |w.nodes| && w.nodes[i].haveLocal && w.nodes[i].summaries == Everyone(w.setup.count)
    ensures AllMeasured(w, w.nodes[i].attempt) && w.setup.count <= |w.nodes[i].reports|
    ensures w.nodes[i].setup == w.setup && ChooseAll(w.nodes[i]) == ChoiceOf(w, w.nodes[i].attempt)
  {
    var n := w.nodes[i];
    assert NodeOk(w, n, i);
    forall j: nat | j < w.setup.count ensures (j, n.attempt) in w.measured { assert j in n.summaries; }
    var reports := ReportsOf(w, n.attempt);
    forall j: nat | j < w.setup.count ensures n.reports[j] == reports[j] { assert j in n.summaries; }
    WorstOfSame(n.reports, reports, w.setup.count);
    WorstFrom(n.local.p95, n.reports, w.setup.count);
    WorstIsGreatest(0, n.reports, w.setup.count);
  }

  // ---------------------------------------------------------------- negotiating

  /** The same but for the choice, before it is committed. */
  lemma ChoosingKeeps(w: World, i: nat, c: Choice)
    requires WorldOk(w) && i < |w.nodes| && (w.nodes[i].phase == Committed ==> c == w.nodes[i].choice)
    ensures WorldOk(Moved(w, i, w.nodes[i].(choice := c), {}))
    ensures Moved(w, i, w.nodes[i].(choice := c), {}) == Placed(w, i, w.nodes[i].(choice := c), {})
  {
    var before, n := w.nodes[i], w.nodes[i].(choice := c);
    assert NodeOk(w, before, i);
    var w' := Placed(w, i, n, {});
    PlacedRecords(w, i, n, {});
    if n.phase == Committed { AgreedExtends(w, w', n.attempt, n.choice); }
    if n.haveLocal { assert w.measured[(i, n.attempt) := n.local] == w.measured; }
    if n.accepted { assert w.accepted + {(i, n.attempt)} == w.accepted; }
    assert Moved(w, i, n, {}) == w';
    MoveKeeps(w, i, n, {});
  }

  /** The host commits only when every client has accepted the one choice of the attempt. */
  lemma CommitKeeps(w: World, i: nat, n: Node, sent: set<Message>)
    requires WorldOk(w) && i < |w.nodes| && i == HOST && w.nodes[i].phase == Negotiating
    requires w.nodes[i].acceptances + {HOST} == Everyone(w.setup.count)
      && Agreed(w, w.nodes[i].attempt, w.nodes[i].choice)
    requires n == w.nodes[i].(phase := Committed, nextControl := n.nextControl, committedAt := n.committedAt)
    requires forall m :: m in sent ==> MessageOk(w, m) || m == Send(n, Commit(n.choice))
    ensures WorldOk(Moved(w, i, n, sent))
  {
    var before, w' := w.nodes[i], Moved(w, i, n, sent);
    assert NodeOk(w, before, i);
    if n.haveLocal { assert w.measured[(i, n.attempt) := n.local] == w.measured; }
    assert Extends(w, w');
    AgreedExtends(w, w', n.attempt, n.choice);
    forall j: nat | 0 < j < w.setup.count ensures (j, n.attempt) in w'.accepted { assert j in Everyone(w.setup.count); }
    CommitRecords(w, w');
    forall m | m in sent ensures MessageOk(w', m) {
      if MessageOk(w, m) { MessageExtends(w, w', m); }
    }
    MoveKeeps(w, i, n, sent);
  }

  lemma CommitRecords(w: World, w': World)
    requires RecordsOk(w) && Extends(w, w') && w'.measured == w.measured && w'.accepted == w.accepted
      && |w'.nodes| == |w.nodes|
    requires w'.committed.Some? ==> AllAccepted(w', w'.committed.value)
    ensures RecordsOk(w')
  {
    forall j: nat, b: nat | (j, b) in w'.accepted ensures AllMeasured(w', b) && ChoiceOf(w', b).delay <= MAX_DELAY {
      assert AllMeasured(w, b) && ReportsOf(w, b) == ReportsOf(w', b);
    }
  }

  lemma PlacedThen(w: World, i: nat, n1: Node, sent1: set<Message>, n2: Node, sent2: set<Message>)
    requires i < |w.nodes|
    ensures Moved(Placed(w, i, n1, sent1), i, n2, sent2) == Moved(w, i, n2, sent1 + sent2)
    ensures Placed(Placed(w, i, n1, sent1), i, n2, sent2) == Placed(w, i, n2, sent1 + sent2)
  {
    assert w.nodes[i := n1][i := n2] == w.nodes[i := n2];
    assert w.soup + sent1 + sent2 == w.soup + (sent1 + sent2);
  }

  /** A peer that has measured still has when it moves within the attempt. */
  lemma MovedThen(w: World, i: nat, n1: Node, n2: Node, sent: set<Message>)
    requires i < |w.nodes| && n2.attempt == n1.attempt
    requires n1.haveLocal ==> n2.haveLocal && n2.local == n1.local
    requires (n1.accepted ==> n2.accepted) && (n1.phase == Committed ==> n2.phase == Committed)
    ensures Moved(Moved(w, i, n1, {}), i, n2, sent) == Moved(w, i, n2, sent)
  {
    var k := (i, n1.attempt);
    assert w.nodes[i := n1][i := n2] == w.nodes[i := n2];
    assert w.soup + {} + sent == w.soup + sent;
    if n1.haveLocal { assert w.measured[k := n1.local][k := n2.local] == w.measured[k := n2.local]; }
    if n1.accepted { assert w.accepted + {k} + {k} == w.accepted + {k}; }
  }

  lemma NegotiatedKeeps(w: World, i: nat, a: Around)
    requires WorldOk(w) && i < |w.nodes| && (w.nodes[i].haveLocal ==> w.nodes[i].phase == Negotiating)
    requires w.nodes[i].setup.count <= |w.nodes[i].reports|
    ensures var (n, sent) := Negotiated(w.nodes[i], a);
      WorldOk(Moved(w, i, n, sent))
  {
    var before := w.nodes[i];
    assert NodeOk(w, before, i);
    var (n, sent) := Negotiated(before, a);
    if !before.haveLocal || a.now < before.nextControl || before.summaries != Everyone(before.setup.count) {
      SameKeeps(w, i, n, sent);
    } else {
      var chosen := before.(choice := ChooseAll(before));
      SameChoice(w, i);
      ChoosingKeeps(w, i, chosen.choice);
      assert ReportsOf(Placed(w, i, chosen, {}), before.attempt) == ReportsOf(w, before.attempt);
      ConcludedKeeps(Placed(w, i, chosen, {}), i, a);
      PlacedThen(w, i, chosen, {}, n, sent);
      assert {} + sent == sent;
    }
  }

  /** The negotiation of a peer that has chosen. */
  lemma ConcludedKeeps(w: World, i: nat, a: Around)
    requires WorldOk(w) && i < |w.nodes| && w.nodes[i].phase == Negotiating && w.nodes[i].haveLocal
    requires AllMeasured(w, w.nodes[i].attempt) && w.nodes[i].choice == ChoiceOf(w, w.nodes[i].attempt)
    ensures var (n, sent) := Concluded(w.nodes[i], a);
      WorldOk(Moved(w, i, n, sent))
  {
    var before := w.nodes[i];
    assert NodeOk(w, before, i);
    var (n, sent) := Concluded(before, a);
    if n.phase == Committed {
      CommitKeeps(w, i, n, sent);
    } else {
      SameKeeps(w, i, n, sent);
    }
  }

  /** An attempt under way, pumped. */
  lemma WorkedKeeps(w: World, i: nat, a: Around)
    requires WorldOk(w) && i < |w.nodes|
    requires var n := w.nodes[i]; n.phase != Committed && n.phase != Retrying && n.phase != Unavailable
    requires |w.nodes[i].reports| == MAX_PLAYERS && w.nodes[i].setup.count <= MAX_PLAYERS
      && w.nodes[i].id == i < MAX_PLAYERS
    ensures var (n, sent) := Worked(w.nodes[i], a); WorldOk(Moved(w, i, n, sent))
  {
    var (n1, m1) := Greeted(w.nodes[i], a);
    GreetedKeeps(w, i, a);
    if !a.suspended && !a.recovering {
      CalibratedKeeps(Placed(w, i, n1, m1), i, a);
      var (n2, m2) := Calibrated(n1, a);
      PlacedThen(w, i, n1, m1, n2, m2);
    }
  }

  lemma CalibratedKeeps(w: World, i: nat, a: Around)
    requires WorldOk(w) && i < |w.nodes|
    requires var n := w.nodes[i]; n.phase != Committed && n.phase != Retrying && n.phase != Unavailable
    requires |w.nodes[i].reports| == MAX_PLAYERS && w.nodes[i].setup.count <= MAX_PLAYERS
      && w.nodes[i].id == i < MAX_PLAYERS
    ensures var (n, sent) := Calibrated(w.nodes[i], a); WorldOk(Moved(w, i, n, sent))
  {
    var n0 := Readied(w.nodes[i], a);
    ReadiedIsSame(w.nodes[i], a);
    SameKeeps(w, i, n0, {});
    var w0 := Placed(w, i, n0, {});
    var (n1, m1) := Probed(n0, a);
    ProbedKeeps(w0, i, a);
    MeasureAndNegotiate(Placed(w0, i, n1, m1), i, a);
    var (n2, m2) := Negotiated(Measured(n1, a), a);
    PlacedThen(w0, i, n1, m1, n2, m2);
    PlacedThen(w, i, n0, {}, n2, m1 + m2);
    assert {} + (m1 + m2) == m1 + m2;
  }

  lemma NegotiatedStays(n: Node, a: Around)
    requires n.phase != Committed && n.setup.count <= |n.reports|
    ensures var (n2, sent) := Negotiated(n, a);
      n2.attempt == n.attempt && n2.haveLocal == n.haveLocal && n2.local == n.local && n2.accepted == n.accepted
  {}

  lemma MeasureAndNegotiate(w: World, i: nat, a: Around)
    requires WorldOk(w) && i < |w.nodes|
    requires var n := w.nodes[i]; n.phase != Committed && n.phase != Retrying && n.phase != Unavailable
    requires |w.nodes[i].reports| == MAX_PLAYERS && w.nodes[i].setup.count <= MAX_PLAYERS
      && w.nodes[i].id == i < MAX_PLAYERS
    ensures var (n, sent) := Negotiated(Measured(w.nodes[i], a), a); WorldOk(Moved(w, i, n, sent))
  {
    var n1 := Measured(w.nodes[i], a);
    MeasuredKeeps(w, i, a);
    MeasuredReady(w, i, a);
    NegotiateMeasured(w, i, a, n1);
  }

  lemma MeasuredReady(w: World, i: nat, a: Around)
    requires WorldOk(w) && i < |w.nodes| && i < |w.nodes[i].reports|
    requires var n := w.nodes[i]; n.phase != Committed && n.phase != Retrying && n.phase != Unavailable
    ensures var n := Measured(w.nodes[i], a);
      n.phase != Committed && (n.haveLocal ==> n.phase == Negotiating) && |n.reports| == |w.nodes[i].reports|
      && n.setup == w.nodes[i].setup
  {
    assert NodeOk(w, w.nodes[i], i);
  }

  lemma NegotiateMeasured(w: World, i: nat, a: Around, n1: Node)
    requires i < |w.nodes| && WorldOk(Moved(w, i, n1, {}))
    requires n1.phase != Committed && (n1.haveLocal ==> n1.phase == Negotiating) && n1.setup.count <= |n1.reports|
    ensures var (n, sent) := Negotiated(n1, a); WorldOk(Moved(w, i, n, sent))
  {
    var (n, sent) := Negotiated(n1, a);
    NegotiatedKeeps(Moved(w, i, n1, {}), i, a);
    NegotiatedStays(n1, a);
    MovedThen(w, i, n1, n, sent);
  }

  lemma ContinuedKeeps(w: World, i: nat, a: Around)
    requires WorldOk(w) && i < |w.nodes|
    requires |w.nodes[i].reports| == MAX_PLAYERS && w.nodes[i].setup.count <= MAX_PLAYERS
      && w.nodes[i].id == i < MAX_PLAYERS
    ensures var (n, sent) := Continued(w.nodes[i], a); WorldOk(Moved(w, i, n, sent))
  {
    var n := w.nodes[i];
    if !a.open {
      SameKeeps(w, i, Continued(n, a).0, {});
    } else if n.phase == Unavailable || n.phase == Retrying || n.phase == Committed {
      RepeatedKeeps(w, i, a.now);
    } else {
      WorkedKeeps(w, i, a);
    }
  }

  lemma NodeIsShaped(w: World, i: nat)
    requires WorldOk(w) && i < |w.nodes|
    ensures Shaped(w.nodes[i], w.setup, i) && w.setup.Valid()
  {
    assert NodeOk(w, w.nodes[i], i);
  }

  /** A pump keeps everything in order, and fails no honest peer. */
  lemma PumpKeeps(w: World, i: nat, a: Around)
    requires WorldOk(w) && i < |w.nodes| && Honest(w.nodes[i], a) && Shaped(w.nodes[i], w.setup, i) && w.setup.Valid()
    ensures var (n, sent) := Pumped(w.nodes[i], a); WorldOk(Moved(w, i, n, sent))
  {
    var n1 := Checked(Watched(Observed(w.nodes[i], a.now), a), a);
    var n2 := Restarted(n1, a.now);
    SettledIsSame(w.nodes[i], a);
    BeginningKeeps(w, i, a, n1, n2);
    ContinueFrom(w, i, a, n2);
  }

  lemma ContinueFrom(w: World, i: nat, a: Around, n: Node)
    requires i < |w.nodes| && WorldOk(Placed(w, i, n, {}))
    ensures Shaped(n, w.setup, i) && w.setup.Valid()
    ensures var (n', sent) := Continued(n, a); WorldOk(Moved(w, i, n', sent))
  {
    var w' := Placed(w, i, n, {});
    NodeIsShaped(w', i);
    ContinuedKeeps(w', i, a);
    var (n', sent) := Continued(n, a);
    PlacedThen(w, i, n, {}, n', sent);
    assert {} + sent == sent;
  }

  // ---------------------------------------------------------------- a delivery

  lemma SteeredKeeps(w: World, i: nat, m: Message, now: nat)
    requires WorldOk(w) && i < |w.nodes| && MessageOk(w, m) && m.from != i
    ensures WorldOk(Moved(w, i, Steered(w.nodes[i], m, now), {}))
  {
    var n := w.nodes[i];
    NodeIsShaped(w, i);
    if m.body.Restart? && m.attempt > n.attempt && n.phase != Committed && n.phase != Unavailable {
      ResetKeeps(w, i, m.attempt, now, m.body.reason, Steered(n, m, now));
    } else {
      SameKeeps(w, i, Steered(n, m, now), {});
    }
  }

  /** A summary that was measured in this attempt is learned, and contradicts nothing. */
  lemma SummarizedKeeps(w: World, i: nat, from: nat, r: Report)
    requires WorldOk(w) && i < |w.nodes| && from != i && from < w.setup.count
    requires (from, w.nodes[i].attempt) in w.measured && w.measured[(from, w.nodes[i].attempt)] == r
    requires Shaped(w.nodes[i], w.setup, i)
    ensures WorldOk(Moved(w, i, Summarized(w.nodes[i], from, r), {}))
  {
    var before, n := w.nodes[i], Summarized(w.nodes[i], from, r);
    assert NodeOk(w, before, i) && r.Valid();
    var w' := Moved(w, i, n, {});
    if n.haveLocal { assert w.measured[(i, n.attempt) := n.local] == w.measured; }
    if n.accepted { assert w.accepted + {(i, n.attempt)} == w.accepted; }
    assert w' == Placed(w, i, n, {});
    PlacedRecords(w, i, n, {});
    if n.phase == Committed { AgreedExtends(w, w', n.attempt, n.choice); }
    MoveKeeps(w, i, n, {});
  }

  /** A client accepts the one choice of its attempt. */
  lemma AcceptKeeps(w: World, i: nat, n: Node, sent: set<Message>)
    requires WorldOk(w) && i < |w.nodes| && i != HOST && n == w.nodes[i].(accepted := true)
    requires Agreed(w, n.attempt, n.choice) && sent == {Send(n, Accept(n.choice))}
    ensures WorldOk(Moved(w, i, n, sent))
  {
    var before, w' := w.nodes[i], Moved(w, i, n, sent);
    assert NodeOk(w, before, i);
    assert w'.measured == w.measured by {
      if n.haveLocal { assert w.measured[(i, n.attempt) := n.local] == w.measured; }
    }
    assert Extends(w, w');
    AgreedExtends(w, w', n.attempt, n.choice);
    AcceptRecords(w, w', i, n.attempt, n.choice);
    assert Knows(w', n) && Latest(w', n);
    assert Decides(w', n);
    MoveKeeps(w, i, n, sent);
  }

  lemma AcceptRecords(w: World, w': World, i: nat, a: nat, c: Choice)
    requires RecordsOk(w) && Extends(w, w') && w'.measured == w.measured && w'.accepted == w.accepted + {(i, a)}
      && |w'.nodes| == |w.nodes|
    requires w'.committed == w.committed && Agreed(w', a, c)
    ensures RecordsOk(w')
  {
    forall j: nat, b: nat | (j, b) in w'.accepted ensures AllMeasured(w', b) && ChoiceOf(w', b).delay <= MAX_DELAY {
      if (j, b) in w.accepted { assert AllMeasured(w, b) && ReportsOf(w, b) == ReportsOf(w', b); }
    }
  }

  /** The host counts an acceptance that was made, or an acknowledgement. */
  lemma CountKeeps(w: World, i: nat, n: Node)
    requires WorldOk(w) && i < |w.nodes| && i == HOST
    requires n == w.nodes[i].(acceptances := n.acceptances, acks := n.acks, nextControl := n.nextControl)
    requires forall j: nat :: j in n.acceptances ==>
      j in w.nodes[i].acceptances || (j < w.setup.count && (j, n.attempt) in w.accepted)
    ensures WorldOk(Moved(w, i, n, {}))
  {
    var before := w.nodes[i];
    assert NodeOk(w, before, i);
    var w' := Placed(w, i, n, {});
    if n.haveLocal { assert w.measured[(i, n.attempt) := n.local] == w.measured; }
    assert Moved(w, i, n, {}) == w';
    PlacedRecords(w, i, n, {});
    if n.phase == Committed { AgreedExtends(w, w', n.attempt, n.choice); }
    MoveKeeps(w, i, n, {});
  }

  /** A client commits what the host has committed. */
  lemma FollowKeeps(w: World, i: nat, n: Node, sent: set<Message>)
    requires WorldOk(w) && i < |w.nodes| && i != HOST
      && n == w.nodes[i].(phase := Committed, committedAt := n.committedAt)
    requires Agreed(w, n.attempt, n.choice) && w.committed == Some(n.attempt) && n.accepted && n.haveLocal
    requires sent == {Send(n, CommitAck(n.choice))}
    ensures WorldOk(Moved(w, i, n, sent))
  {
    var before := w.nodes[i];
    assert NodeOk(w, before, i);
    var w' := Placed(w, i, n, sent);
    assert w.measured[(i, n.attempt) := n.local] == w.measured;
    assert w.accepted + {(i, n.attempt)} == w.accepted;
    assert Moved(w, i, n, sent) == w';
    PlacedRecords(w, i, n, sent);
    AgreedExtends(w, w', n.attempt, n.choice);
    MoveKeeps(w, i, n, sent);
  }

  lemma RuledKeeps(w: World, i: nat, m: Message, now: nat)
    requires WorldOk(w) && i < |w.nodes| && MessageOk(w, m) && m.from != i && m.attempt == w.nodes[i].attempt
    requires m.body.Proposal? || m.body.Accept? || m.body.Commit? || m.body.CommitAck?
    requires w.nodes[i].haveLocal && Agreed(w, w.nodes[i].attempt, w.nodes[i].choice)
    ensures var (n, sent) := Ruled(w.nodes[i], m, now); WorldOk(Moved(w, i, n, sent))
  {
    var before := w.nodes[i];
    assert NodeOk(w, before, i);
    var (n, sent) := Ruled(before, m, now);
    if i != HOST && m.from != HOST {
      SameKeeps(w, i, n, sent);
    } else if m.body.Proposal? {
      AcceptKeeps(w, i, n, sent);
    } else if m.body.Accept? {
      CountKeeps(w, i, n);
    } else if m.body.Commit? {
      assert AllAccepted(w, before.attempt);
      FollowKeeps(w, i, n, sent);
    } else {
      CountKeeps(w, i, n);
    }
  }

  lemma DecidedKeeps(w: World, i: nat, m: Message, now: nat)
    requires WorldOk(w) && i < |w.nodes| && MessageOk(w, m) && m.from != i && m.attempt == w.nodes[i].attempt
    requires m.body.Proposal? || m.body.Accept? || m.body.Commit? || m.body.CommitAck?
    requires w.nodes[i].setup.count <= |w.nodes[i].reports|
    ensures var (n, sent) := Decided(w.nodes[i], m, now); WorldOk(Moved(w, i, n, sent))
  {
    var before := w.nodes[i];
    NodeIsShaped(w, i);
    if !before.haveLocal || before.summaries != Everyone(before.setup.count) {
      SameKeeps(w, i, before, {});
      return;
    }
    SameChoice(w, i);
    ChoiceIsKept(w, i);
    var chosen := before.(choice := ChooseAll(before));
    ChoosingKeeps(w, i, chosen.choice);
    RuleFrom(w, i, m, now, chosen);
  }

  lemma ChoiceIsKept(w: World, i: nat)
    requires WorldOk(w) && i < |w.nodes| && AllMeasured(w, w.nodes[i].attempt)
    ensures w.nodes[i].phase == Committed ==> w.nodes[i].choice == ChoiceOf(w, w.nodes[i].attempt)
  {
    assert NodeOk(w, w.nodes[i], i);
  }

  lemma RuleFrom(w: World, i: nat, m: Message, now: nat, n: Node)
    requires WorldOk(w) && i < |w.nodes| && WorldOk(Placed(w, i, n, {})) && MessageOk(w, m) && m.from != i
      && m.attempt == n.attempt
    requires m.body.Proposal? || m.body.Accept? || m.body.Commit? || m.body.CommitAck?
    requires n.haveLocal && AllMeasured(w, n.attempt) && n.choice == ChoiceOf(w, n.attempt)
    ensures m.body.choice == n.choice && n.choice.delay <= MAX_DELAY
    ensures var (n', sent) := Ruled(n, m, now); WorldOk(Moved(w, i, n', sent))
  {
    var w' := Placed(w, i, n, {});
    PlacedRecords(w, i, n, {});
    MessageExtends(w, w', m);
    AgreedExtends(w, w', n.attempt, n.choice);
    RuledKeeps(w', i, m, now);
    var (n', sent) := Ruled(n, m, now);
    PlacedThen(w, i, n, {}, n', sent);
    assert {} + sent == sent;
  }

  lemma HandledKeeps(w: World, i: nat, m: Message, a: Around)
    requires WorldOk(w) && i < |w.nodes| && MessageOk(w, m) && m.from != i
    requires w.nodes[i].setup.count <= |w.nodes[i].reports| && m.from < |w.nodes[i].reports|
    ensures var (n, sent) := Handled(w.nodes[i], m, a); WorldOk(Moved(w, i, n, sent))
  {
    var before := w.nodes[i];
    NodeIsShaped(w, i);
    if m.body.Stop? || m.body.Restart? || m.body.RetryRequest? {
      SteeredKeeps(w, i, m, a.now);
    } else if m.attempt != before.attempt || before.phase == Unavailable || before.phase == Retrying {
      SameKeeps(w, i, before, {});
    } else if m.body.Summary? {
      SummarizedKeeps(w, i, m.from, m.body.report);
    } else if m.body.Echo? && Handled(before, m, a).0.rtt != before.rtt {
      EchoKeeps(w, i, Handled(before, m, a).0);
    } else if m.body.Hello? || m.body.Probe? || m.body.Echo? {
      var (n, sent) := Handled(before, m, a);
      SameKeeps(w, i, n, sent);
    } else {
      DecidedKeeps(w, i, m, a.now);
    }
  }

  /** Delivering any packet that was ever sent to whom it was sent keeps everything in order, and fails no
      honest peer. */
  lemma DeliveryKeeps(w: World, i: nat, m: Message, a: Around)
    requires WorldOk(w) && i < |w.nodes| && m in w.soup && Addressed(m, i) && w.nodes[i].clock <= a.now
    requires Shaped(w.nodes[i], w.setup, i) && w.setup.Valid()
    ensures var (n, sent) := Received(w.nodes[i], m, a); WorldOk(Moved(w, i, n, sent))
  {
    var n1 := Observed(w.nodes[i], a.now);
    ObservedIsSame(w.nodes[i], a.now);
    SameKeeps(w, i, n1, {});
    assert MessageOk(w, m);
    HandleFrom(w, i, m, a, n1);
  }

  lemma HandleFrom(w: World, i: nat, m: Message, a: Around, n: Node)
    requires WorldOk(w) && i < |w.nodes| && WorldOk(Placed(w, i, n, {})) && MessageOk(w, m) && m.from != i
    requires w.nodes[i].setup == n.setup && n.setup.count <= |n.reports| && m.from < |n.reports|
    ensures var (n', sent) := Handled(n, m, a); WorldOk(Moved(w, i, n', sent))
  {
    var w' := Placed(w, i, n, {});
    PlacedRecords(w, i, n, {});
    MessageExtends(w, w', m);
    HandledKeeps(w', i, m, a);
    var (n', sent) := Handled(n, m, a);
    PlacedThen(w, i, n, {}, n', sent);
    assert {} + sent == sent;
  }

  /** A packet reaches other peers only: one target if it has one, else any. */
  predicate Addressed(m: Message, i: nat) { m.from != i && ((m.body.Probe? || m.body.Echo?) ==> m.body.target == i) }

  // ---------------------------------------------------------------- runs

  datatype Event = Pump(i: nat, around: Around) | Delivery(i: nat, message: Message, around: Around)

  /** A pump of a peer, or the delivery of any packet sent so far, at a peer whose clock runs forward. */
  ghost predicate Possible(w: World, e: Event) {
    && e.i < |w.nodes| && Honest(w.nodes[e.i], e.around)
    && w.nodes[e.i].setup.count <= MAX_PLAYERS == |w.nodes[e.i].reports| && w.nodes[e.i].id < MAX_PLAYERS
    && (e.Delivery? ==> e.message in w.soup && Addressed(e.message, e.i))
  }

  function After(w: World, e: Event): World
    requires e.i < |w.nodes| && w.nodes[e.i].setup.count <= MAX_PLAYERS == |w.nodes[e.i].reports|
      && w.nodes[e.i].id < MAX_PLAYERS
  {
    var (n, sent) := if e.Pump? then Pumped(w.nodes[e.i], e.around) else Received(w.nodes[e.i], e.message, e.around);
    Moved(w, e.i, n, sent)
  }

  /** Every peer begins the same calibration, at its own time. */
  ghost predicate Starts(w: World) {
    && w.setup.Valid() && |w.nodes| == w.setup.count && w.soup == {} && w.measured == map[] && w.accepted == {}
    && w.committed == None
    && forall i: nat :: i < |w.nodes| ==> w.nodes[i] == Begun(w.setup, i, w.nodes[i].begin)
  }

  lemma StartIsOk(w: World)
    requires Starts(w)
    ensures WorldOk(w)
  {
    forall i: nat | i < |w.nodes| ensures NodeOk(w, w.nodes[i], i) {
      assert w.nodes[i] == Begun(w.setup, i, w.nodes[i].begin);
    }
  }

  lemma EventKeeps(w: World, e: Event)
    requires WorldOk(w) && Possible(w, e)
    ensures WorldOk(After(w, e))
  {
    NodeIsShaped(w, e.i);
    if e.Pump? { PumpKeeps(w, e.i, e.around); } else { DeliveryKeeps(w, e.i, e.message, e.around); }
  }

  ghost predicate Run(w: World, events: seq<Event>, w': World)
    decreases |events|
  {
    if events == [] then w' == w else Possible(w, events[0]) && Run(After(w, events[0]), events[1..], w')
  }

  lemma {:induction false} RunKeeps(w: World, events: seq<Event>, w': World)
    requires WorldOk(w) && Run(w, events, w')
    ensures WorldOk(w')
    decreases |events|
  {
    if events != [] {
      EventKeeps(w, events[0]);
      RunKeeps(After(w, events[0]), events[1..], w');
    }
  }

  lemma CommittedPeer(w: World, i: nat)
    requires WorldOk(w) && i < |w.nodes|
    ensures w.nodes[i].phase != Failed
    ensures w.nodes[i].phase == Committed ==>
      w.committed == Some(w.nodes[i].attempt) && Agreed(w, w.nodes[i].attempt, w.nodes[i].choice)
    ensures HOST < |w.nodes| && (i == HOST && w.committed.Some? ==> w.nodes[i].phase == Committed)
  {
    assert NodeOk(w, w.nodes[i], i);
  }

  lemma AcceptedPeer(w: World, j: nat, a: nat)
    requires WorldOk(w) && 0 < j < |w.nodes| && w.committed == Some(a)
    ensures (j, a) in w.accepted && a <= w.nodes[j].attempt && (w.nodes[j].attempt == a ==> w.nodes[j].accepted)
  {
    assert AllAccepted(w, a);
    assert NodeOk(w, w.nodes[j], j);
  }

  /** Agreement: however packets are lost, repeated, delayed and reordered and attempts restarted, all
      committed peers have the same attempt and the same choice; a committed host had the acceptance of every
      client for that attempt; and no honest peer ever fails, in particular none finds that a choice
      disagrees with the summaries or that a summary has changed. */
  lemma Agreement(w: World, events: seq<Event>, w': World, i: nat, j: nat)
    requires Starts(w) && Run(w, events, w') && i < |w'.nodes| && j < |w'.nodes|
    ensures w'.nodes[i].phase == Committed && w'.nodes[j].phase == Committed ==>
      w'.nodes[i].attempt == w'.nodes[j].attempt && w'.nodes[i].choice == w'.nodes[j].choice
    ensures w'.nodes[HOST].phase == Committed && j != HOST ==>
      var a := w'.nodes[HOST].attempt;
      (j, a) in w'.accepted && a <= w'.nodes[j].attempt && (w'.nodes[j].attempt == a ==> w'.nodes[j].accepted)
    ensures w'.nodes[i].phase == Committed ==> w'.nodes[HOST].phase == Committed
    ensures w'.nodes[i].phase != Failed
  {
    StartIsOk(w);
    RunKeeps(w, events, w');
    CommittedPeer(w', i);
    CommittedPeer(w', j);
    CommittedPeer(w', HOST);
    if w'.committed.Some? && j != HOST { AcceptedPeer(w', j, w'.committed.value); }
  }

  /** What a committed peer chose covers the worst link any peer measured in its attempt. */
  lemma CommittedCoversWorst(w: World, events: seq<Event>, w': World, i: nat, j: nat)
    requires Starts(w) && Run(w, events, w') && i < |w'.nodes| && j < |w'.nodes| && w'.nodes[i].phase == Committed
    ensures (j, w'.nodes[i].attempt) in w'.measured
    ensures w'.nodes[i].choice.fullDelay * 1000000 >= w'.measured[(j, w'.nodes[i].attempt)].p95 / 2 * 60
  {
    StartIsOk(w);
    RunKeeps(w, events, w');
    assert NodeOk(w', w'.nodes[i], i);
    AgreedCovers(w', w'.nodes[i].attempt, w'.nodes[i].choice, j);
  }

  lemma AgreedCovers(w: World, a: nat, c: Choice, j: nat)
    requires w.setup.Valid() && Agreed(w, a, c) && j < w.setup.count
    ensures (j, a) in w.measured && c.fullDelay * 1000000 >= w.measured[(j, a)].p95 / 2 * 60
  {
    var reports := ReportsOf(w, a);
    WorstIsGreatest(0, reports, w.setup.count);
    CoversLess(Worst(0, reports, w.setup.count), reports[j].p95, w.setup);
  }

  lemma CoversLess(worst: nat, p95: nat, s: Setup)
    requires s.Valid() && p95 <= worst
    ensures Choose(worst, s).fullDelay * 1000000 >= p95 / 2 * 60
  {
    ChoiceCovers(worst, s);
  }
}
