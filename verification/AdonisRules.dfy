/** What one call of a calibrating peer comes to: when it gives up, when it starts over, what it sends and what it
    makes of what it receives. */
module AdonisRules {
  import opened Options
  import opened AdonisState

  predicate Peer(n: Node) {
    2 <= n.setup.count <= MAX_PLAYERS == |n.reports| && n.id < n.setup.count
  }

  predicate Busy(n: Node) { n.phase == WaitingPeer || n.phase == Measuring || n.phase == Negotiating }

  // ---------------------------------------------------------------- giving up

  /** Why a calibration ends for good: the connection is lost, ninety seconds have passed, or nobody has come for
      forty-five. */
  function Ended(n: Node, a: Around): Option<Reason> {
    if n.phase == Committed || n.phase == Unavailable then None
    else if a.broken then Some(Connection)
    else if a.now - n.begin >= 90_000_000 then Some(Timeout)
    else if n.phase == WaitingPeer && a.now - n.attemptBegin >= 45_000_000 then Some(PeerMissing)
    else None
  }

  /** A clock that goes back fails the peer and sends nothing. */
  lemma ClockReversed(n: Node, a: Around)
    requires Peer(n) && n.phase != Failed && a.now < n.clock
    ensures Pumped(n, a) == (n.(phase := Failed), {})
  {}

  lemma SeesEnd(n: Node, a: Around) returns (n2: Node)
    requires Peer(n) && n.phase != Idle && n.phase != Failed && n.clock <= a.now && Ended(n, a).Some?
    ensures n2 == Watched(Observed(n, a.now), a) && Observed(n, a.now).phase != Failed
      && Observed(n, a.now).phase != Idle
    ensures Peer(n2) && n2.phase == Unavailable && n2.reason == Ended(n, a).value && n2.nextControl == 0
  {
    var n1 := Observed(n, a.now);
    assert n1.phase == n.phase || n1.phase == Retrying;
    n2 := Watched(n1, a);
  }

  lemma StopsAtOnce(n2: Node, a: Around)
    requires Peer(n2) && n2.phase == Unavailable && n2.nextControl == 0
    ensures var r := Continued(Restarted(Checked(n2, a), a.now), a);
      && r.0.phase == Unavailable && r.0.reason == n2.reason
      && r.1 == (if a.open then {Send(r.0, Stop(n2.reason))} else {})
  {
    assert Checked(n2, a) == n2 && Restarted(n2, a.now) == n2;
  }

  /** The end of a calibration is announced at once. */
  lemma GivesUp(n: Node, a: Around)
    requires Peer(n) && n.phase != Idle && n.phase != Failed && n.clock <= a.now && Ended(n, a).Some?
    ensures var (n', sent) := Pumped(n, a);
      && n'.phase == Unavailable && n'.reason == Ended(n, a).value
      && sent == (if a.open then {Send(n', Stop(n'.reason))} else {})
  {
    var n2 := SeesEnd(n, a);
    StopsAtOnce(n2, a);
  }

  /** Why an attempt ends: the clock jumped or the peer was hidden, cut off or recovering while it was measuring, or
      ten seconds have passed since it began to measure. */
  function Interruption(n: Node, a: Around): Option<Reason> {
    if n.phase == Measuring && n.probes > 0 && a.now - n.clock > 500_000 then Some(Interrupted)
    else if (n.phase == Measuring || n.phase == Negotiating) && a.now - n.measurementBegin >= 10_000_000
    then Some(Timeout)
    else if n.phase == Measuring && n.probes > 0 && (a.suspended || !a.open || a.recovering)
    then Some(if a.suspended then Hidden else Connection)
    else None
  }

  /** The peer after an interruption. */
  function Interrupted1(n: Node, now: nat, why: Reason, steady: bool): Node {
    n.(phase := Retrying, reason := why, nextControl := 0, clock := now, stabilityStarted := steady)
  }

  lemma SeesClock(n: Node, now: nat)
    requires Busy(n) && n.clock <= now
    ensures var late := n.phase == Measuring && now - n.clock > 500_000;
      Observed(n, now)
      == if late && n.probes > 0 then Interrupted1(n, now, Interrupted, n.stabilityStarted)
         else n.(clock := now, stabilityStarted := n.stabilityStarted && !late)
  {}

  lemma StaysOn(n: Node, a: Around)
    requires !a.broken && a.now - n.begin < 90_000_000 && n.phase != Committed && n.phase != Unavailable
    requires n.phase == WaitingPeer ==> a.now - n.attemptBegin < 45_000_000
    ensures Watched(n, a) == n
  {}

  lemma StopsTrying(n: Node, a: Around, why: Reason)
    requires Busy(n) && a.now == n.clock
    requires why == if (n.phase == Measuring || n.phase == Negotiating) && a.now - n.measurementBegin >= 10_000_000
      then Timeout else if a.suspended then Hidden else Connection
    requires why != Timeout ==> n.phase == Measuring && n.probes > 0 && (a.suspended || !a.open || a.recovering)
    ensures Checked(n, a) == Interrupted1(n, n.clock, why, n.stabilityStarted)
  {}

  lemma ChecksOut(n: Node, a: Around) returns (steady: bool)
    requires Peer(n) && Busy(n) && n.clock <= a.now && Ended(n, a) == None && Interruption(n, a).Some?
    ensures Checked(Watched(Observed(n, a.now), a), a) == Interrupted1(n, a.now, Interruption(n, a).value, steady)
  {
    var n1 := Observed(n, a.now);
    SeesClock(n, a.now);
    StaysOn(n1, a);
    steady := n1.stabilityStarted;
    if n1.phase != Retrying { StopsTrying(n1, a, Interruption(n, a).value); } else { assert Checked(n1, a) == n1; }
  }

  /** A client asks the host for another attempt. */
  lemma ClientAsksAgain(n: Node, a: Around)
    requires Peer(n) && Busy(n) && n.clock <= a.now && Ended(n, a) == None && Interruption(n, a).Some? && n.id != HOST
    ensures var (n', sent) := Pumped(n, a);
      && n'.phase == Retrying && n'.reason == Interruption(n, a).value && n'.attempt == n.attempt
      && sent == (if a.open then {Send(n', RetryRequest(n'.reason))} else {})
      && (a.open ==> n'.nextControl == a.now + 200_000)
  {
    var steady := ChecksOut(n, a);
    var c := Interrupted1(n, a.now, Interruption(n, a).value, steady);
    assert Restarted(c, a.now) == c;
    assert Pumped(n, a) == Continued(c, a);
  }

  /** The host begins another one with nothing known, at most three times. */
  lemma HostStartsOver(n: Node, a: Around)
    requires Peer(n) && Busy(n) && n.clock <= a.now && Ended(n, a) == None && Interruption(n, a).Some? && n.id == HOST
    ensures var (n', sent) := Pumped(n, a);
      if n.attempt >= 3 then
        && n'.phase == Unavailable && n'.reason == Exhausted
        && sent == (if a.open then {Send(n', Stop(Exhausted))} else {})
      else
        && n'.attempt == n.attempt + 1 && n'.reason == Interruption(n, a).value && n'.attemptBegin == a.now
        && !n'.haveLocal && !n'.accepted && n'.hellos == n'.summaries == n'.acceptances == n'.acks == {}
        && n'.rtt == map[] && n'.sentAt == map[] && n'.reports == NO_REPORTS && n'.choice == NO_CHOICE
        && (a.open ==> Send(n', Restart(n'.reason)) in sent)
  {
    var steady := ChecksOut(n, a);
    HostGoesOn(n, Interrupted1(n, a.now, Interruption(n, a).value, steady), a, Pumped(n, a));
  }

  lemma HostGoesOn(n: Node, c: Node, a: Around, r: (Node, set<Message>))
    requires Peer(c) && c.id == HOST && c.phase == Retrying && c.attempt == n.attempt
    requires r == Continued(Restarted(c, a.now), a)
    ensures if n.attempt >= 3 then
        && r.0.phase == Unavailable && r.0.reason == Exhausted
        && r.1 == (if a.open then {Send(r.0, Stop(Exhausted))} else {})
      else
        && r.0.attempt == n.attempt + 1 && r.0.reason == c.reason && r.0.attemptBegin == a.now
        && !r.0.haveLocal && !r.0.accepted && r.0.hellos == r.0.summaries == r.0.acceptances == r.0.acks == {}
        && r.0.rtt == map[] && r.0.sentAt == map[] && r.0.reports == NO_REPORTS && r.0.choice == NO_CHOICE
        && (a.open ==> Send(r.0, Restart(r.0.reason)) in r.1)
  {
    if n.attempt < 3 { StartsOver(c, a); }
  }

  lemma StartsOver(c: Node, a: Around)
    requires Peer(c) && c.id == HOST && c.attempt < 3
    ensures var n := Reset(c, c.attempt + 1, a.now, c.reason);
      var r := Continued(n, a);
      && r.0 == n.(nextHello := r.0.nextHello)
      && (a.open ==> Send(n, Restart(n.reason)) in r.1)
  {
    var n := Reset(c, c.attempt + 1, a.now, c.reason);
    if a.open {
      var (g, m) := Greeted(n, a);
      assert Send(n, Restart(n.reason)) in m;
      AloneWaits(g, a);
    }
  }

  /** With nobody there yet, an attempt only greets. */
  lemma AloneWaits(n: Node, a: Around)
    requires Peer(n) && n.hellos == {} && n.phase == WaitingPeer && !n.haveLocal && n.probes == 0
    ensures Calibrated(n, a) == (n, {})
  {
    AloneIsNotAll(n.id, n.setup.count);
    assert {} + {n.id} == {n.id};
    assert Readied(n, a) == n;
    var none: set<Message> := {};
    assert none + none == none;
  }

  // ---------------------------------------------------------------- a call with nothing wrong

  /** Nothing has been lost or interrupted, and nothing is overdue. */
  predicate Quiet(n: Node, a: Around) {
    && Busy(n) && n.clock <= a.now && Ended(n, a) == None && a.open && !a.suspended && !a.recovering
    && (n.phase == Measuring ==> a.now - n.clock <= 500_000)
    && (n.phase == Measuring || n.phase == Negotiating ==> a.now - n.measurementBegin < 10_000_000)
  }

  lemma QuietWorks(n: Node, a: Around)
    requires Peer(n) && Quiet(n, a)
    ensures Pumped(n, a) == Worked(n.(clock := a.now), a)
  {
    SeesClock(n, a.now);
    var n1 := n.(clock := a.now);
    StaysOn(n1, a);
    assert Checked(n1, a) == n1 && Restarted(n1, a.now) == n1;
  }

  /** What is sent in a quiet call: a greeting when it is due, and what the attempt has come to. */
  lemma QuietSends(n: Node, a: Around) returns (g: Node)
    requires Peer(n) && Quiet(n, a)
    ensures g == n.(clock := a.now, nextHello := if n.nextHello <= a.now then a.now + 200_000 else n.nextHello)
    ensures Pumped(n, a).0 == Calibrated(g, a).0
    ensures Calibrated(g, a).1 <= Pumped(n, a).1
    ensures forall m :: m in Pumped(n, a).1 ==>
      m in Calibrated(g, a).1 || m == Send(n, Hello) || (m == Send(n, Restart(n.reason)) && n.id == HOST)
    ensures n.nextHello <= a.now ==> Send(n, Hello) in Pumped(n, a).1
  {
    QuietWorks(n, a);
    g := Greeted(n.(clock := a.now), a).0;
  }

  /** Measuring begins when everyone has greeted, and the first probe waits until the links have settled for a
      second. */
  lemma MeasuringBegins(n: Node, a: Around)
    requires Peer(n) && Quiet(n, a) && n.phase == WaitingPeer && n.probes == 0 && !n.haveLocal && !n.stabilityStarted
    ensures var (n', sent) := Pumped(n, a);
      if n.hellos + {n.id} == Everyone(n.setup.count) then
        n' == n.(clock := a.now, nextHello := n'.nextHello, phase := Measuring, measurementBegin := a.now,
                 nextProbe := a.now + 1_000_000, stabilityStarted := true)
      else n' == n.(clock := a.now, nextHello := n'.nextHello)
    ensures n.nextHello <= a.now ==> Send(n, Hello) in Pumped(n, a).1
  {
    var g := QuietSends(n, a);
  }

  /** A probe goes to every other peer exactly when the last one is sixteen milliseconds old, up to 129 of them, and
      is on record for those that could be reached. */
  lemma ProbesWhenDue(n: Node, a: Around, t: nat, k: nat)
    requires Peer(n) && Quiet(n, a) && n.phase == Measuring && (n.probes > 0 || n.stabilityStarted) && !n.haveLocal
      && n.probes < 129
    requires t < n.setup.count && t != n.id
    ensures var (n', sent) := Pumped(n, a);
      && (Send(n, Probe(k, t)) in sent) == (n.nextProbe <= a.now && k == n.probes + 1)
      && n'.probes == (if n.nextProbe <= a.now then n.probes + 1 else n.probes)
      && (n.nextProbe <= a.now ==> n'.nextProbe == a.now + 16_000 && n'.lastProbe == a.now)
      && (n.nextProbe <= a.now && t in a.reached ==>
            (t, n.probes + 1) in n'.sentAt && n'.sentAt[(t, n.probes + 1)] == a.now)
      && n' == n.(clock := a.now, nextHello := n'.nextHello, probes := n'.probes, nextProbe := n'.nextProbe,
                  lastProbe := n'.lastProbe, sentAt := n'.sentAt)
  {
    var g, p, m := ProbesIn(n, a);
    ProbedExactly(g, a, t, k, p, m);
  }

  lemma ProbesIn(n: Node, a: Around) returns (g: Node, p: Node, m: set<Message>)
    requires Peer(n) && Quiet(n, a) && n.phase == Measuring && (n.probes > 0 || n.stabilityStarted) && !n.haveLocal
      && n.probes < 129
    ensures g == n.(clock := a.now, nextHello := g.nextHello) && (p, m) == Probed(g, a) && Pumped(n, a).0 == p
    ensures m <= Pumped(n, a).1 && forall x :: x in Pumped(n, a).1 && x.body.Probe? ==> x in m
  {
    g := QuietSends(n, a);
    assert Readied(g, a) == g;
    p, m := Probed(g, a).0, Probed(g, a).1;
    if p.probes < 129 { assert Measured(p, a) == p; } else { TailRuns(p, a); }
  }

  /** The last probe has only just been sent. */
  lemma TailRuns(p: Node, a: Around)
    requires Peer(p) && p.lastProbe == a.now && !p.haveLocal
    ensures Measured(p, a) == p && Negotiated(p, a) == (p, {})
  {}

  lemma ProbedExactly(g: Node, a: Around, t: nat, k: nat, p: Node, m: set<Message>)
    requires g.phase == Measuring && g.probes < 129 && t < g.setup.count && t != g.id && (p, m) == Probed(g, a)
    ensures (Send(g, Probe(k, t)) in m) == (g.nextProbe <= a.now && k == g.probes + 1)
    ensures if g.nextProbe <= a.now then
        p == g.(probes := g.probes + 1, nextProbe := a.now + 16_000, lastProbe := a.now, sentAt := p.sentAt)
      else p == g
    ensures g.nextProbe <= a.now && t in a.reached ==>
      (t, g.probes + 1) in p.sentAt && p.sentAt[(t, g.probes + 1)] == a.now
  {
    ProbesAre(g, g.setup.count, t, k);
    TimesAre(g, a, g.setup.count, t);
  }

  lemma {:induction false} ProbesAre(n: Node, count: nat, t: nat, k: nat)
    requires t != n.id
    ensures (Send(n, Probe(k, t)) in ProbesTo(n, count)) == (t < count && k == n.probes + 1)
    ensures forall m :: m in ProbesTo(n, count) ==> m.body.Probe?
  {
    if count > 0 { ProbesAre(n, count - 1, t, k); }
  }

  lemma {:induction false} TimesAre(n: Node, a: Around, count: nat, t: nat)
    requires t != n.id
    ensures t < count && t in a.reached ==>
      (t, n.probes + 1) in ProbeTimes(n, a, count) && ProbeTimes(n, a, count)[(t, n.probes + 1)] == a.now
    decreases count
  {
    if count > 0 { TimesAre(n, a, count - 1, t); }
  }

  // ---------------------------------------------------------------- the end of the measurement

  /** The slots that count, of one link. */
  lemma {:induction false} SlotsExactly(rtt: map<(nat, nat), nat>, peer: nat, from: nat)
    requires from <= ATTEMPTS
    ensures |Slots(rtt, peer, from)| == |set k: nat | from <= k < ATTEMPTS && (peer, k) in rtt|
    ensures forall x: nat :: (x in Slots(rtt, peer, from))
                     == exists k: nat :: from <= k < ATTEMPTS && (peer, k) in rtt && rtt[(peer, k)] == x
    decreases ATTEMPTS - from
  {
    if from == ATTEMPTS {
      assert (set k: nat | from <= k < ATTEMPTS && (peer, k) in rtt) == {};
      return;
    }
    SlotsExactly(rtt, peer, from + 1);
    var later := set k: nat | from + 1 <= k < ATTEMPTS && (peer, k) in rtt;
    var here: set<nat> := if (peer, from) in rtt then {from} else {};
    assert (set k: nat | from <= k < ATTEMPTS && (peer, k) in rtt) == later + here;
    assert Slots(rtt, peer, from) == (if (peer, from) in rtt then [rtt[(peer, from)]] else [])
        + Slots(rtt, peer, from + 1);
  }

  /** A measurement fails exactly when some link has fewer than 96 of its 120 samples; otherwise the report is that
      of the link with the greatest percentile. */
  lemma {:induction false} WorstLinkExactly(links: seq<Trips>, id: nat, n: nat)
    requires n <= |links|
    ensures (WorstLink(links, id, n) == None) == exists p: nat :: p < n && p != id && |links[p]| < 96
    ensures WorstLink(links, id, n).Some? ==>
      var r := WorstLink(links, id, n).value;
      && (forall p: nat :: p < n && p != id ==> LinkReport(links[p]).p95 <= r.p95)
      && (r == NO_REPORT || exists p: nat :: p < n && p != id && r == LinkReport(links[p]))
  {
    if n > 0 { WorstLinkExactly(links, id, n - 1); }
  }

  /** The report of a link from its sorted round trips: their number, the least, the greatest, and a value at the
      position that has 95 in 100 of the others at or below it, averaged with the next one in an even number. */
  lemma ReportsLink(v: Trips)
    requires Sorted(v) && ENOUGH <= |v|
    ensures var r, at := LinkReport(v), (|v| - 1) * 95 / 100;
      && r.received == |v| && r.lost == 120 - |v| && r.least == v[0] && r.most == v[|v| - 1]
      && at + 1 < |v| && (at + 1) * 100 > (|v| - 1) * 95 >= at * 100 && v[at] <= r.p95 <= v[at + 1]
      && (|v| % 2 == 1 ==> r.p95 == v[at]) && (|v| % 2 == 0 ==> r.p95 == (v[at] + v[at + 1]) / 2)
  {}

  lemma MeasuredIn(n: Node, a: Around) returns (g: Node)
    requires Peer(n) && Quiet(n, a) && n.phase == Measuring && n.probes == 129 && !n.haveLocal
    ensures g == n.(clock := a.now, nextHello := g.nextHello)
    ensures Pumped(n, a).0 == Negotiated(Measured(g, a), a).0
    ensures Negotiated(Measured(g, a), a).1 <= Pumped(n, a).1
  {
    g := QuietSends(n, a);
    assert Readied(g, a) == g && Probed(g, a) == (g, {});
  }

  lemma FrozenIs(g: Node, a: Around, worst: Option<Report>)
    requires Peer(g) && g.phase == Measuring && g.probes == 129 && !g.haveLocal
    requires worst == WorstLink(Links(g.rtt, g.setup.count), g.id, g.setup.count)
    ensures Measured(g, a)
      == if g.lastProbe <= a.now && a.now - g.lastProbe >= 216_000 then
           if worst == None then g.(phase := Retrying, reason := Samples, nextControl := 0)
           else g.(haveLocal := true, phase := Negotiating, nextControl := 0, local := worst.value,
                   reports := g.reports[g.id := worst.value], summaries := g.summaries + {g.id})
         else g
  {}

  lemma PublishesAtOnce(g: Node, a: Around, q: (Node, set<Message>))
    requires Peer(g) && g.haveLocal && g.nextControl == 0 && q == Negotiated(g, a)
    ensures Send(g, Summary(g.local)) in q.1
    ensures q.0.haveLocal && q.0.local == g.local && q.0.reports == g.reports && q.0.summaries == g.summaries
    ensures g.summaries != Everyone(g.setup.count) ==> q.0 == g.(nextControl := a.now + 200_000)
  {}

  /** The peer with its report, which it is about to publish. */
  function Informed(n: Node, now: nat, nextHello: nat, r: Report): Node
    requires n.id < |n.reports|
  {
    n.(clock := now, nextHello := nextHello, haveLocal := true, phase := Negotiating, nextControl := 0, local := r,
       reports := n.reports[n.id := r], summaries := n.summaries + {n.id})
  }

  lemma MeasuredOut(n: Node, a: Around, r: Report) returns (q: (Node, set<Message>), at: nat)
    requires Peer(n) && Quiet(n, a) && n.phase == Measuring && n.probes == 129 && !n.haveLocal
    requires Some(r) == WorstLink(Links(n.rtt, n.setup.count), n.id, n.setup.count)
    requires n.lastProbe <= a.now && a.now - n.lastProbe >= 216_000
    ensures q == Negotiated(Informed(n, a.now, at, r), a)
    ensures Pumped(n, a).0 == q.0 && q.1 <= Pumped(n, a).1
  {
    var g := MeasuredIn(n, a);
    at := g.nextHello;
    FrozenIs(g, a, Some(r));
    assert Measured(g, a) == Informed(n, a.now, at, r);
    q := Negotiated(Measured(g, a), a);
  }

  lemma Publishes(n: Node, a: Around, r: Report, n': Node, sent: set<Message>)
    requires Peer(n) && Quiet(n, a) && n.phase == Measuring && n.probes == 129 && !n.haveLocal
    requires Some(r) == WorstLink(Links(n.rtt, n.setup.count), n.id, n.setup.count)
    requires n.lastProbe <= a.now && a.now - n.lastProbe >= 216_000 && (n', sent) == Pumped(n, a)
    ensures n'.haveLocal && n'.local == r && n'.reports == n.reports[n.id := r]
      && n'.summaries == n.summaries + {n.id} && Send(n, Summary(r)) in sent
    ensures n.summaries == {} ==> n' == Informed(n, a.now, n'.nextHello, r).(nextControl := a.now + 200_000)
  {
    var q, at := MeasuredOut(n, a, r);
    PublishesAtOnce(Informed(n, a.now, at, r), a, q);
    AloneIsNotAll(n.id, n.setup.count);
    assert {} + {n.id} == {n.id};
  }

  /** The measurement ends a while after the last probe: with a bad link another attempt is wanted, otherwise the
      peer has its report and publishes it. */
  lemma MeasurementEnds(n: Node, a: Around, worst: Option<Report>, n': Node, sent: set<Message>)
    requires Peer(n) && Quiet(n, a) && n.phase == Measuring && n.probes == 129 && !n.haveLocal
    requires worst == WorstLink(Links(n.rtt, n.setup.count), n.id, n.setup.count) && (n', sent) == Pumped(n, a)
    ensures n.lastProbe <= a.now && a.now - n.lastProbe >= 216_000 && worst.Some? && n.summaries == {} ==>
      n' == Informed(n, a.now, n'.nextHello, worst.value).(nextControl := a.now + 200_000)
    ensures if n.lastProbe <= a.now && a.now - n.lastProbe >= 216_000 then
        if worst == None then n'.phase == Retrying && n'.reason == Samples && !n'.haveLocal
        else
          && n'.haveLocal && n'.local == worst.value && n'.reports == n.reports[n.id := worst.value]
          && n'.summaries == n.summaries + {n.id} && Send(n, Summary(worst.value)) in sent
      else !n'.haveLocal && n'.phase == Measuring
  {
    if n.lastProbe <= a.now && a.now - n.lastProbe >= 216_000 && worst.Some? {
      Publishes(n, a, worst.value, n', sent);
    } else {
      var g := MeasuredIn(n, a);
      FrozenIs(g, a, worst);
    }
  }

  lemma AloneIsNotAll(id: nat, count: nat)
    requires count >= 2
    ensures {id} != Everyone(count)
  {
    assert 0 in Everyone(count) && 1 in Everyone(count);
  }

  // ---------------------------------------------------------------- the negotiation

  lemma NegotiatesIn(n: Node, a: Around) returns (g: Node)
    requires Peer(n) && Quiet(n, a) && n.phase == Negotiating && n.haveLocal && n.probes == 129
    ensures g == n.(clock := a.now, nextHello := g.nextHello)
    ensures Pumped(n, a).0 == Negotiated(g, a).0 && Negotiated(g, a).1 <= Pumped(n, a).1
    ensures forall m :: m in Pumped(n, a).1 ==> m in Negotiated(g, a).1 || m.body.Hello? || m.body.Restart?
  {
    g := QuietSends(n, a);
    assert Readied(g, a) == g && Probed(g, a) == (g, {}) && Measured(g, a) == g;
    var none: set<Message> := {};
    assert none + Negotiated(g, a).1 == Negotiated(g, a).1;
  }

  /** Until it has every summary, a peer repeats its own. */
  lemma SummaryIsRepeated(n: Node, a: Around)
    requires Peer(n) && Quiet(n, a) && n.phase == Negotiating && n.haveLocal && n.probes == 129
    requires n.summaries != Everyone(n.setup.count)
    ensures var (n', sent) := Pumped(n, a);
      && (Send(n, Summary(n.local)) in sent) == (n.nextControl <= a.now)
      && n'.phase == Negotiating
      && n'.nextControl == (if n.nextControl <= a.now then a.now + 200_000 else n.nextControl)
  {
    var g := NegotiatesIn(n, a);
  }

  /** With every summary, the choice is made; one that is too long ends the calibration. Then the host proposes until
      every client has accepted, and commits as soon as the transport takes it; a client that has accepted says so
      again. */
  lemma Concludes(n: Node, a: Around)
    requires Peer(n) && Quiet(n, a) && n.phase == Negotiating && n.haveLocal && n.probes == 129
    requires n.summaries == Everyone(n.setup.count) && n.nextControl <= a.now
    ensures var (n', sent), c, all := Pumped(n, a), ChooseAll(n), n.acceptances + {n.id} == Everyone(n.setup.count);
      && n'.choice == c && Send(n, Summary(n.local)) in sent
      && (n'.phase == Unavailable) == (c.delay > 9) && (c.delay > 9 ==> n'.reason == Budget)
      && (n'.phase == Committed) == (c.delay <= 9 && n.id == HOST && all && a.taken)
      && (n'.phase == Committed ==> n'.committedAt == a.now)
      && (forall d :: Send(n, Commit(d)) in sent <==> d == c && n'.phase == Committed)
      && (forall d :: Send(n, Proposal(d)) in sent <==> d == c && c.delay <= 9 && n.id == HOST && !all)
      && (forall d :: Send(n, Accept(d)) in sent <==> d == c && c.delay <= 9 && n.id != HOST && n.accepted)
      && (c.delay <= 9 ==>
            n' == n.(clock := a.now, nextHello := n'.nextHello, choice := c, nextControl := a.now + 200_000,
                     phase := n'.phase, committedAt := n'.committedAt))
  {
    var g := NegotiatesIn(n, a);
    assert ChooseAll(g) == ChooseAll(n);
    ConcludedExactly(g, a, ChooseAll(n), Negotiated(g, a));
  }

  lemma ConcludedExactly(g: Node, a: Around, c: Choice, q: (Node, set<Message>))
    requires Peer(g) && g.phase == Negotiating && g.haveLocal && g.summaries == Everyone(g.setup.count)
    requires g.nextControl <= a.now && c == ChooseAll(g) && q == Negotiated(g, a)
    ensures var (n', sent), all := q, g.acceptances + {g.id} == Everyone(g.setup.count);
      && n'.choice == c && Send(g, Summary(g.local)) in sent
      && (n'.phase == Unavailable) == (c.delay > 9) && (c.delay > 9 ==> n'.reason == Budget)
      && (n'.phase == Committed) == (c.delay <= 9 && g.id == HOST && all && a.taken)
      && (n'.phase == Committed ==> n'.committedAt == a.now)
      && (forall d :: Send(g, Commit(d)) in sent <==> d == c && n'.phase == Committed)
      && (forall d :: Send(g, Proposal(d)) in sent <==> d == c && c.delay <= 9 && g.id == HOST && !all)
      && (forall d :: Send(g, Accept(d)) in sent <==> d == c && c.delay <= 9 && g.id != HOST && g.accepted)
      && (c.delay <= 9 ==>
            n' == g.(choice := c, nextControl := a.now + 200_000, phase := n'.phase, committedAt := n'.committedAt))
  {}

  // ---------------------------------------------------------------- repeating

  predicate Repeats(n: Node, now: nat, m: Message) {
    if n.phase == Unavailable then m == Send(n, Stop(n.reason))
    else if n.phase == Retrying then m == Send(n, RetryRequest(n.reason))
    else
      && m == Send(n, Commit(n.choice)) && n.id == HOST && n.acks + {n.id} != Everyone(n.setup.count)
      && now - n.committedAt < 5_000_000
  }

  /** What a peer that is not calibrating repeats, every two hundred milliseconds while the transport is open: a
      failed one that it has stopped, a client that it wants another attempt, and the host its commit for five
      seconds until everyone has acknowledged it. */
  lemma RepeatsWhenDue(n: Node, a: Around, m: Message)
    requires Peer(n) && n.clock <= a.now
    requires n.phase == Unavailable || n.phase == Committed
      || (n.phase == Retrying && n.id != HOST && Ended(n, a) == None)
    ensures var (n', sent) := Pumped(n, a);
      && n' == n.(clock := a.now, nextControl := n'.nextControl, stabilityStarted := n'.stabilityStarted)
      && (m in sent) == (a.open && n.nextControl <= a.now && Repeats(n, a.now, m))
      && (m in sent ==> n'.nextControl == a.now + 200_000)
  {
    var n1 := n.(clock := a.now);
    assert Observed(n, a.now) == n1;
    assert Watched(n1, a) == n1 && Checked(n1, a) == n1 && Restarted(n1, a.now) == n1;
    assert Pumped(n, a) == Continued(n1, a);
  }

  // ---------------------------------------------------------------- what is received

  /** A packet for this peer, at a moment when the clock has not jumped. */
  predicate Heard(n: Node, m: Message, a: Around) {
    && n.phase != Failed && n.clock <= a.now && (n.phase == Measuring ==> a.now - n.clock <= 500_000)
    && m.setup == n.setup && m.from < n.setup.count && m.from != n.id && m.attempt <= 3
    && (m.body.Probe? || m.body.Echo? ==> m.body.target == n.id) && (m.body.Restart? ==> m.from == HOST)
  }

  lemma HeardIsHandled(n: Node, m: Message, a: Around)
    requires Peer(n) && Heard(n, m, a)
    ensures Received(n, m, a) == Handled(n.(clock := a.now), m, a)
  {
    assert Observed(n, a.now) == n.(clock := a.now);
  }

  /** A packet of this attempt, to a peer that takes part in it. */
  predicate Timely(n: Node, m: Message) { m.attempt == n.attempt && n.phase != Unavailable && n.phase != Retrying }

  /** Greetings are noted, probes answered with what they asked, and the first timely echo of a slot that counts is
      its round trip. */
  lemma ProbesAreAnswered(n: Node, m: Message, a: Around)
    requires Peer(n) && Heard(n, m, a) && Timely(n, m) && !a.suspended
    requires m.body.Hello? || ((m.body.Probe? || m.body.Echo?) && 0 < m.body.sequence < 130)
    ensures var (n', sent) := Received(n, m, a);
      match m.body
      case Hello => n' == n.(clock := a.now, hellos := n.hellos + {m.from}) && sent == {}
      case Probe(k, _) => n' == n.(clock := a.now) && sent == {Send(n, Echo(k, m.from))}
      case Echo(k, _) =>
        var counts := && !n.haveLocal && k >= 10 && (m.from, k) in n.sentAt && (m.from, k) !in n.rtt
                      && 0 < a.now - n.sentAt[(m.from, k)] <= 1_000_000;
        && sent == {} && n' == n.(clock := a.now, rtt := n'.rtt)
        && n'.rtt.Keys == (if counts then n.rtt.Keys + {(m.from, k)} else n.rtt.Keys)
        && (counts ==> n'.rtt[(m.from, k)] == a.now - n.sentAt[(m.from, k)])
        && (forall j :: j in n.rtt ==> n'.rtt[j] == n.rtt[j])
      case _ => true
  {
    HeardIsHandled(n, m, a);
  }

  /** A well-formed summary is stored once; a malformed or a changed one fails the peer. */
  lemma SummariesAreStored(n: Node, m: Message, a: Around)
    requires Peer(n) && Heard(n, m, a) && Timely(n, m) && m.body.Summary?
    ensures var (n', sent), r := Received(n, m, a), m.body.report;
      && sent == {}
      && (n'.phase == Failed) == (!r.Valid() || (m.from in n.summaries && n.reports[m.from] != r))
      && (n'.phase != Failed ==>
            n' == n.(clock := a.now, reports := n.reports[m.from := r], summaries := n.summaries + {m.from},
                     nextControl := if m.from in n.summaries then n.nextControl else 0))
  {
    HeardIsHandled(n, m, a);
  }

  predicate Decision(b: Body) { b.Proposal? || b.Accept? || b.Commit? || b.CommitAck? }

  /** A decision waits for every summary, must be the one they determine, and has its effect: a proposal of the host
      is accepted, an acceptance and an acknowledgement are noted by the host, and a commit of the host commits a
      client that has accepted. */
  lemma DecisionsCount(n: Node, m: Message, a: Around)
    requires Peer(n) && Heard(n, m, a) && Timely(n, m) && Decision(m.body)
    requires n.haveLocal && n.summaries == Everyone(n.setup.count)
    ensures var (n', sent), c := Received(n, m, a), ChooseAll(n);
      if m.body.choice != c || c.delay > 9 then n'.phase == Failed && sent == {}
      else if n.id == HOST && m.body.Accept? then
        n' == n.(clock := a.now, choice := c, acceptances := n.acceptances + {m.from}, nextControl := 0) && sent == {}
      else if n.id == HOST && m.body.CommitAck? && n.phase == Committed then
        n' == n.(clock := a.now, choice := c, acks := n.acks + {m.from}) && sent == {}
      else if n.id != HOST && m.from == HOST && m.body.Proposal? then
        n' == n.(clock := a.now, choice := c, accepted := true) && sent == {Send(n, Accept(c))}
      else if n.id != HOST && m.from == HOST && m.body.Commit? && n.accepted then
        n' == n.(clock := a.now, choice := c, phase := Committed, committedAt := a.now)
        && sent == {Send(n, CommitAck(c))}
      else if n.id != HOST && m.from != HOST && (m.body.Accept? || m.body.CommitAck?) then
        n' == n.(clock := a.now, choice := c) && sent == {}
      else n'.phase == Failed && sent == {}
  {
    HeardIsHandled(n, m, a);
    assert ChooseAll(n.(clock := a.now)) == ChooseAll(n);
  }

  /** Another peer's stop ends the calibration unless it is of an older attempt or already committed; the host's
      restart begins its attempt; a request for another attempt is heard by the host. */
  lemma SteeringCounts(n: Node, m: Message, a: Around)
    requires Peer(n) && Heard(n, m, a)
    ensures m.body.Stop? && n.phase != Unavailable ==>
      (Received(n, m, a).0.phase == Unavailable) == (n.attempt <= m.attempt && n.phase != Committed)
    ensures m.body.Stop? && n.phase != Unavailable && n.attempt <= m.attempt && n.phase != Committed ==>
      Received(n, m, a).0.reason == m.body.reason
    ensures m.body.Restart? ==>
      (Received(n, m, a).0.attempt != n.attempt)
      == (n.attempt < m.attempt && n.phase != Committed && n.phase != Unavailable)
    ensures m.body.Restart? && Received(n, m, a).0.attempt != n.attempt ==>
      Received(n, m, a).0 == Reset(n.(clock := a.now), m.attempt, a.now, m.body.reason)
    ensures m.body.RetryRequest? && Busy(n) ==>
      (Received(n, m, a).0.phase == Retrying) == (m.attempt == n.attempt && n.id == HOST)
  {
    HeardIsHandled(n, m, a);
  }
}
