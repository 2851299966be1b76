/** The calibration of one peer before frame zero. A pump and a delivery are proved against `Pumped` and
    `Received`; the packets of one call are returned as a set. */
module AdonisStartups {
  import opened Options
  import opened AdonisState

  const NO_SETUP := Setup(0, 0, 0, 0, Delay, 0, None)

  class AdonisStartup {
    var setup: Setup
    var id: nat
    var phase: Phase
    var attempt: nat
    var reason: Reason
    var probes: nat
    var begin: nat
    var attemptBegin: nat
    var measurementBegin: nat
    var clock: nat
    var nextHello: nat
    var nextControl: nat
    var nextProbe: nat
    var lastProbe: nat
    var committedAt: nat
    var haveLocal: bool
    var accepted: bool
    var stabilityStarted: bool
    var hellos: set<nat>
    var summaries: set<nat>
    var acceptances: set<nat>
    var acks: set<nat>
    var local: Report
    var reports: seq<Report>
    var choice: Choice
    var sentAt: map<(nat, nat), nat>
    var rtt: map<(nat, nat), nat>

    ghost function State(): Node
      reads this
    {
      Node(setup, id, phase, attempt, reason, probes, begin, attemptBegin, measurementBegin, clock, nextHello,
          nextControl,
           nextProbe, lastProbe, committedAt, haveLocal, accepted, stabilityStarted, hellos, summaries,
            acceptances, acks,
           local, reports, choice, sentAt, rtt)
    }

    predicate Valid()
      reads this
    {
      setup.count <= MAX_PLAYERS == |reports| && id < MAX_PLAYERS
    }

    constructor ()
      ensures Valid() && phase == Idle
    {
      setup, id, phase, attempt, reason, probes := NO_SETUP, 0, Idle, 0, NoReason, 0;
      begin, attemptBegin, measurementBegin, clock := 0, 0, 0, 0;
      nextHello, nextControl, nextProbe, lastProbe, committedAt := 0, 0, 0, 0, 0;
      haveLocal, accepted, stabilityStarted := false, false, false;
      hellos, summaries, acceptances, acks := {}, {}, {}, {};
      local, reports, choice, sentAt, rtt := NO_REPORT, NO_REPORTS, NO_CHOICE, map[], map[];
    }

    /** Starts the calibration of player `player`, unless it is misconfigured. */
    method Begin(session: nat, abi: nat, seed: nat, count: nat, player: nat, mode: Mode, requested: Option<nat>,
        reserve: nat, now: nat)
      returns (ok: bool)
      requires Valid()
      modifies this
      ensures Valid()
      ensures ok == (session != 0 && abi != 0 && 2 <= count <= MAX_PLAYERS && player < count && 1 <= reserve <= 2
                     && (requested.Some? ==> requested.value <= MAX_DELAY))
      ensures var s := Setup(session, abi, seed, count, mode, if mode == Hybrid then reserve else 0, requested);
        if ok then s.Valid() && State() == Begun(s, player, now) else phase == Failed
    {
      if session == 0 || abi == 0 || count < 2 || count > MAX_PLAYERS || player >= count || reserve < 1 || reserve > 2
        || (requested.Some? && requested.value > MAX_DELAY) {
        phase := Failed;
        return false;
      }
      Adopt(Setup(session, abi, seed, count, mode, if mode == Hybrid then reserve else 0, requested), player, now);
      ResetStarts(State(), now);
      ResetAttempt(0, now, NoReason);
      ok := true;
    }

    method Adopt(s: Setup, player: nat, now: nat)
      modifies this`setup, this`id, this`begin, this`clock
      ensures State() == old(State()).(setup := s, id := player, begin := now, clock := now)
    {
      ghost var adopted := State().(setup := s, id := player, begin := now, clock := now);
      setup, id, begin, clock := s, player, now, now;
      assert State() == adopted;
    }

    // -------------------------------------------------------------- attempts

    method Retry(why: Reason)
      modifies this`reason, this`phase, this`nextControl
      ensures State() == Retried(old(State()), why)
    {
      if phase == Committed || phase == Unavailable || phase == Retrying { return; }
      reason, phase, nextControl := why, Retrying, 0;
    }

    method MakeUnavailable(why: Reason)
      modifies this`reason, this`phase, this`nextControl
      ensures State() == MadeUnavailable(old(State()), why)
    {
      if phase == Unavailable { return; }
      reason, phase, nextControl := why, Unavailable, 0;
    }

    method ResetAttempt(next: nat, now: nat, why: Reason)
      modifies this
      ensures State() == Reset(old(State()), next, now, why)
    {
      Enter(next, now, why);
      ClearMasks();
      ClearFlags();
      ClearDeadlines();
      ClearTimes();
      ClearReports();
      ClearSamples();
    }

    method Enter(next: nat, now: nat, why: Reason)
      modifies this
      ensures State() == Entered(old(State()), next, now, why)
    {
      ghost var entered := Entered(State(), next, now, why);
      attempt, reason, attemptBegin, phase := next, why, now, WaitingPeer;
      assert State() == entered;
    }

    method ClearMasks()
      modifies this
      ensures State() == MasksCleared(old(State()))
    {
      ghost var cleared := MasksCleared(State());
      hellos, summaries, acceptances, acks := {}, {}, {}, {};
      assert State() == cleared;
    }

    method ClearFlags()
      modifies this
      ensures State() == FlagsCleared(old(State()))
    {
      ghost var cleared := FlagsCleared(State());
      probes, haveLocal, accepted, stabilityStarted := 0, false, false, false;
      assert State() == cleared;
    }

    method ClearDeadlines()
      modifies this
      ensures State() == DeadlinesCleared(old(State()))
    {
      nextHello, nextControl, nextProbe := 0, 0, 0;
    }

    method ClearTimes()
      modifies this
      ensures State() == TimesCleared(old(State()))
    {
      lastProbe, measurementBegin, committedAt := 0, 0, 0;
    }

    method ClearReports()
      modifies this
      ensures State() == ReportsCleared(old(State()))
    {
      local, reports, choice := NO_REPORT, NO_REPORTS, NO_CHOICE;
    }

    method ClearSamples()
      modifies this
      ensures State() == SamplesCleared(old(State()))
    {
      sentAt, rtt := map[], map[];
    }

    method ObserveClock(now: nat)
      modifies this
      ensures State() == Observed(old(State()), now)
    {
      if phase == Failed { return; }
      if now < clock {
        phase := Failed;
        return;
      }
      if phase == Measuring && now - clock > GAP_US {
        if probes > 0 { Retry(Interrupted); } else { stabilityStarted := false; }
      }
      clock := now;
    }

    method Watch(a: Around)
      modifies this
      ensures State() == Watched(old(State()), a)
    {
      if phase != Committed && a.broken { MakeUnavailable(Connection); }
      if phase != Committed && phase != Unavailable && Elapsed(a.now, begin) >= STARTUP_TIMEOUT_US {
        MakeUnavailable(Timeout);
      }
      if phase == WaitingPeer && Elapsed(a.now, attemptBegin) >= PEER_WAIT_US { MakeUnavailable(PeerMissing); }
    }

    method Check(a: Around)
      modifies this
      ensures State() == Checked(old(State()), a)
    {
      if (phase == Measuring || phase == Negotiating) && Elapsed(a.now, measurementBegin) >= MEASUREMENT_TIMEOUT_US {
        Retry(Timeout);
      }
      if phase == Measuring && probes > 0 && (a.suspended || !a.open || a.recovering) {
        Retry(if a.suspended then Hidden else Connection);
      }
    }

    method RestartIfHost(now: nat)
      modifies this
      ensures State() == Restarted(old(State()), now)
    {
      if phase == Retrying && id == HOST {
        if attempt >= MAX_RETRIES { MakeUnavailable(Exhausted); } else { ResetAttempt(attempt + 1, now, reason); }
      }
    }

    // -------------------------------------------------------------- a pump

    function Packet(body: Body): (m: Message)
      reads this
      ensures m == AdonisState.Send(State(), body)
    {
      Message(setup, id, attempt, body)
    }

    method Repeat(now: nat) returns (sent: set<Message>)
      modifies this`nextControl
      ensures (State(), sent) == Repeated(old(State()), now)
    {
      sent := {};
      if now < nextControl { return; }
      if phase == Unavailable {
        sent, nextControl := {Packet(Stop(reason))}, now + RESEND_US;
      } else if phase == Retrying {
        sent, nextControl := {Packet(RetryRequest(reason))}, now + RESEND_US;
      } else if phase == Committed && id == HOST && acks + {id} != Everyone(setup.count)
        && Elapsed(now, committedAt) < COMMIT_RESEND_US {
        sent, nextControl := {Packet(Commit(choice))}, now + RESEND_US;
      }
    }

    method Greet(a: Around) returns (sent: set<Message>)
      modifies this`nextHello
      ensures (State(), sent) == Greeted(old(State()), a)
    {
      sent := {};
      if a.now < nextHello { return; }
      var restart: set<Message>, hello: set<Message> := {}, {};
      if id == HOST && attempt > 0 && phase == WaitingPeer { restart := {Packet(Restart(reason))}; }
      if !a.suspended { hello := {Packet(Hello)}; }
      sent, nextHello := restart + hello, a.now + RESEND_US;
    }

    method Ready(a: Around)
      modifies this
      ensures State() == Readied(old(State()), a)
    {
      if hellos + {id} == Everyone(setup.count) && phase == WaitingPeer { phase, measurementBegin := Measuring, a.now; }
      Stabilize(a);
    }

    method Stabilize(a: Around)
      modifies this
      ensures State() == Stabilizing(old(State()), a)
    {
      if phase == Measuring && probes == 0 && !stabilityStarted {
        nextProbe, stabilityStarted := a.now + STABILIZE_US, true;
      }
    }

    method ProbePeers(a: Around) returns (sent: set<Message>)
      modifies this
      ensures (State(), sent) == Probed(old(State()), a)
    {
      sent := {};
      if phase != Measuring || probes >= PROBE_COUNT || a.now < nextProbe { return; }
      var times: map<(nat, nat), nat>;
      sent, times := SendProbes(a);
      NoteProbe(times, a.now);
    }

    method NoteProbe(times: map<(nat, nat), nat>, now: nat)
      modifies this`sentAt, this`probes, this`nextProbe, this`lastProbe
      ensures State() ==
        old(State()).(probes := old(probes) + 1, nextProbe := now + INTERVAL_US, lastProbe := now, sentAt := times)
    {
      ghost var noted :=
        State().(probes := probes + 1, nextProbe := now + INTERVAL_US, lastProbe := now, sentAt := times);
      sentAt, probes, nextProbe, lastProbe := times, probes + 1, now + INTERVAL_US, now;
      assert State() == noted;
    }

    /** One probe to every other peer, and when each was sent. */
    method SendProbes(a: Around) returns (sent: set<Message>, times: map<(nat, nat), nat>)
      ensures sent == ProbesTo(State(), setup.count) && times == ProbeTimes(State(), a, setup.count)
    {
      sent, times := {}, sentAt;
      var peer := 0;
      while peer < setup.count
        invariant 0 <= peer <= setup.count && sent == ProbesTo(State(), peer) && times == ProbeTimes(State(), a, peer)
      {
        if peer != id {
          sent := sent + {Packet(Probe(probes + 1, peer))};
          if peer in a.reached { times := times[(peer, probes + 1) := a.now]; }
        }
        peer := peer + 1;
      }
    }

    /** The worst link, or nothing if one of them lost too many samples. */
    static method MeasureLinks(links: seq<Trips>, player: nat) returns (worst: Option<Report>)
      ensures worst == WorstLink(links, player, |links|)
    {
      var peer := 0;
      worst := Some(NO_REPORT);
      while peer < |links|
        invariant 0 <= peer <= |links| && worst == WorstLink(links, player, peer) && worst.Some?
      {
        if peer != player {
          worst := MeasureLink(links[peer], worst.value);
          if worst == None {
            LostIsLost(links, player, peer + 1);
            return;
          }
        }
        peer := peer + 1;
      }
    }

    static method MeasureLink(link: Trips, report: Report) returns (worst: Option<Report>)
      ensures worst == Worse(report, link)
    {
      if |link| < ENOUGH { return None; }
      var here := LinkReport(link);
      worst := Some(if here.p95 > report.p95 then here else report);
    }

    static lemma {:induction false} LostIsLost(links: seq<Trips>, player: nat, n: nat)
      requires n <= |links| && WorstLink(links, player, n) == None
      ensures WorstLink(links, player, |links|) == None
      decreases |links| - n
    {
      if n < |links| { LostIsLost(links, player, n + 1); }
    }

    method Measure(a: Around)
      requires Valid()
      modifies this
      ensures Valid() && State() == Measured(old(State()), a)
    {
      if phase != Measuring || probes != PROBE_COUNT || Elapsed(a.now, lastProbe) < INTERVAL_US + TAIL_US { return; }
      var worst := MeasureLinks(Links(rtt, setup.count), id);
      Freeze(worst);
    }

    method Freeze(worst: Option<Report>)
      requires Valid()
      modifies this
      ensures Valid() && State() == Frozen(old(State()), worst)
    {
      if worst == None {
        Retry(Samples);
        return;
      }
      Publish(worst.value);
      haveLocal, phase, nextControl := true, Negotiating, 0;
    }

    method Publish(r: Report)
      requires Valid()
      modifies this
      ensures State() == Reported(old(State()), r)
    {
      local, reports, summaries := r, reports[id := r], summaries + {id};
    }

    method SelectChoice() returns (c: Choice)
      requires Valid()
      ensures c == ChooseAll(State())
    {
      var worst, peer := local.p95, 0;
      while peer < setup.count
        invariant 0 <= peer <= setup.count && worst == Worst(local.p95, reports, peer)
      {
        if reports[peer].p95 > worst { worst := reports[peer].p95; }
        peer := peer + 1;
      }
      c := Choose(worst, setup);
    }

    method Negotiate(a: Around) returns (sent: set<Message>)
      requires Valid()
      modifies this
      ensures Valid() && (State(), sent) == Negotiated(old(State()), a)
    {
      sent := {};
      if !haveLocal || a.now < nextControl { return; }
      if summaries != Everyone(setup.count) {
        sent, nextControl := {Packet(Summary(local))}, a.now + RESEND_US;
        return;
      }
      choice := SelectChoice();
      sent := Conclude(a);
    }

    method Conclude(a: Around) returns (sent: set<Message>)
      requires Valid()
      modifies this
      ensures Valid() && (State(), sent) == Concluded(old(State()), a)
    {
      sent := {Packet(Summary(local))};
      if choice.delay > MAX_DELAY {
        MakeUnavailable(Budget);
        return;
      }
      if id == HOST {
        if acceptances + {id} != Everyone(setup.count) {
          sent := sent + {Packet(Proposal(choice))};
        } else if a.taken {
          sent := sent + {Packet(Commit(choice))};
          phase, committedAt := Committed, a.now;
        }
      } else if accepted {
        sent := sent + {Packet(Accept(choice))};
      }
      nextControl := a.now + RESEND_US;
    }

    method Work(a: Around) returns (sent: set<Message>)
      requires Valid()
      modifies this
      ensures Valid() && (State(), sent) == Worked(old(State()), a)
    {
      sent := Greet(a);
      if a.suspended || a.recovering { return; }
      var calibrating := Calibrate(a);
      sent := sent + calibrating;
    }

    method Calibrate(a: Around) returns (sent: set<Message>)
      requires Valid()
      modifies this
      ensures Valid() && (State(), sent) == Calibrated(old(State()), a)
    {
      Ready(a);
      sent := ProbePeers(a);
      Measure(a);
      var negotiating := Negotiate(a);
      sent := sent + negotiating;
    }

    method Tick(a: Around) returns (ok: bool, sent: set<Message>)
      requires Valid()
      modifies this
      ensures Valid() && ok == (phase != Failed) && (State(), sent) == Pumped(old(State()), a)
    {
      sent := {};
      ObserveClock(a.now);
      if phase == Failed { return false, {}; }
      if phase == Idle {
        phase := Failed;
        return false, {};
      }
      Watch(a);
      Check(a);
      RestartIfHost(a.now);
      sent := Continue(a);
      ok := phase != Failed;
    }

    method Continue(a: Around) returns (sent: set<Message>)
      requires Valid()
      modifies this
      ensures Valid() && (State(), sent) == Continued(old(State()), a)
    {
      if !a.open {
        if probes == 0 { stabilityStarted := false; }
        return {};
      }
      if phase == Unavailable || phase == Retrying || phase == Committed {
        sent := Repeat(a.now);
      } else {
        sent := Work(a);
      }
    }

    // -------------------------------------------------------------- a delivery

    method Steer(m: Message, now: nat)
      modifies this
      ensures State() == Steered(old(State()), m, now)
    {
      match m.body {
        case Stop(why) =>
          if m.attempt >= attempt && phase != Committed { MakeUnavailable(why); }
        case Restart(why) =>
          if m.attempt > attempt && phase != Committed && phase != Unavailable { ResetAttempt(m.attempt, now, why); }
        case RetryRequest(why) =>
          if m.attempt == attempt && id == HOST { Retry(why); }
        case _ =>
      }
    }

    method Summarize(from: nat, r: Report)
      requires Valid() && from < MAX_PLAYERS
      modifies this
      ensures Valid() && State() == Summarized(old(State()), from, r)
    {
      if !r.Valid() || (from in summaries && reports[from] != r) {
        phase := Failed;
        return;
      }
      if from !in summaries { nextControl := 0; }
      reports, summaries := reports[from := r], summaries + {from};
    }

    method Decide(m: Message, now: nat) returns (sent: set<Message>)
      requires Valid() && (m.body.Proposal? || m.body.Accept? || m.body.Commit? || m.body.CommitAck?)
      modifies this
      ensures Valid() && (State(), sent) == Decided(old(State()), m, now)
    {
      sent := {};
      if !haveLocal || summaries != Everyone(setup.count) { return; }
      var expected := SelectChoice();
      if m.body.choice != expected || expected.delay > MAX_DELAY {
        phase := Failed;
        return;
      }
      choice := expected;
      sent := Rule(m, now);
    }

    method Rule(m: Message, now: nat) returns (sent: set<Message>)
      modifies this
      ensures (State(), sent) == Ruled(old(State()), m, now) && reports == old(reports)
    {
      sent := {};
      if id != HOST && m.from != HOST && (m.body.Accept? || m.body.CommitAck?) { return; }
      if m.body.Proposal? && id != HOST && m.from == HOST {
        accepted, sent := true, {Packet(Accept(choice))};
      } else if m.body.Accept? && id == HOST {
        CountAcceptance(m.from);
      } else if m.body.Commit? && id != HOST && m.from == HOST && accepted {
        sent := {Packet(CommitAck(choice))};
        Follow(now);
      } else if m.body.CommitAck? && id == HOST && phase == Committed {
        acks := acks + {m.from};
      } else {
        phase := Failed;
      }
    }

    method CountAcceptance(from: nat)
      modifies this`acceptances, this`nextControl
      ensures State() == old(State()).(acceptances := old(acceptances) + {from}, nextControl := 0)
    {
      acceptances, nextControl := acceptances + {from}, 0;
    }

    method Follow(now: nat)
      modifies this`phase, this`committedAt
      ensures State() == old(State()).(phase := Committed, committedAt := now)
    {
      phase, committedAt := Committed, now;
    }

    method Handle(m: Message, a: Around) returns (sent: set<Message>)
      requires Valid() && m.from < MAX_PLAYERS
      modifies this
      ensures Valid() && (State(), sent) == Handled(old(State()), m, a)
    {
      sent := {};
      if m.body.Stop? || m.body.Restart? || m.body.RetryRequest? {
        Steer(m, a.now);
      } else if m.attempt != attempt || phase == Unavailable || phase == Retrying {
        return;
      } else if m.body.Hello? {
        hellos := hellos + {m.from};
      } else if m.body.Probe? || m.body.Echo? {
        sent := AnswerProbe(m, a);
      } else if m.body.Summary? {
        Summarize(m.from, m.body.report);
      } else {
        sent := Decide(m, a.now);
      }
    }

    method AnswerProbe(m: Message, a: Around) returns (sent: set<Message>)
      requires Valid() && m.from < MAX_PLAYERS && (m.body.Probe? || m.body.Echo?)
      requires m.attempt == attempt && phase != Unavailable && phase != Retrying
      modifies this
      ensures Valid() && (State(), sent) == Handled(old(State()), m, a)
    {
      sent := {};
      if m.body.sequence == 0 || m.body.sequence >= ATTEMPTS {
        phase := Failed;
      } else if a.suspended {
        Retry(Hidden);
      } else if m.body.Probe? {
        sent := {Packet(Echo(m.body.sequence, m.from))};
      } else {
        var slot := (m.from, m.body.sequence);
        if !haveLocal && m.body.sequence >= WARMUP && slot in sentAt && slot !in rtt
          && 0 < Elapsed(a.now, sentAt[slot]) <= LONGEST_US {
          rtt := rtt[slot := Elapsed(a.now, sentAt[slot])];
        }
      }
    }

    method Receive(m: Message, a: Around) returns (ok: bool, sent: set<Message>)
      requires Valid()
      modifies this
      ensures Valid() && ok == (phase != Failed) && (State(), sent) == Received(old(State()), m, a)
    {
      sent := {};
      ObserveClock(a.now);
      if phase == Failed { return false, {}; }
      if m.setup.sessionId != setup.sessionId { return true, {}; }
      if m.from >= setup.count || m.from == id || m.setup != setup
        || ((m.body.Probe? || m.body.Echo?) && m.body.target != id)
        || m.attempt > MAX_RETRIES || (m.body.Restart? && m.from != HOST) {
        phase := Failed;
        return false, {};
      }
      sent := Handle(m, a);
      ok := phase != Failed;
    }
  }
}
