/** The sending half of a session channel. Everything handed to the transport is returned in `out`; the
    transport's own answers only feed counters, which are not modelled. */
module SessionChannels {
  import opened InputLane
  import opened CoreState
  import PeerProtocol
  import opened ChannelState
  import opened Folding
  import opened RollbackCores
  import opened Options

  /** The core stands at this value. */
  ghost predicate Stands(core: RollbackCore, c: Core)
    reads core, core.inputs, core.used
  {
    forall u: int :: Folded(CoreMark, u) ==> core.Valid() && core.State() == c
  }

  class SessionChannel {
    var active: bool
    var failure: Failure
    var deferredInput: bool
    var latestCapture: int
    var peers: seq<Peer>
    var nextInput: nat
    var forceInputs: bool
    var sessionId: nat
    var playerCount: nat
    var localPlayer: nat
    var policy: Policy
    var lastClock: Option<nat>
    var previous: Previous

    ghost function Data(): ChannelData
      reads this
    {
      Channel(active, failure, deferredInput, latestCapture, peers, nextInput, forceInputs, sessionId, playerCount,
          localPlayer,
              policy, lastClock, previous)
    }

    ghost predicate Valid()
      reads this
    {
      Data().Shaped()
    }

    ghost function State(): Channel
      requires Valid()
      reads this
    {
      Data()
    }

    constructor ()
      ensures Valid() && State() == CLOSED
    {
      active, failure, deferredInput, latestCapture := false, NoFailure, false, NONE;
      peers := [NO_PEER, NO_PEER, NO_PEER];
      nextInput, forceInputs, sessionId, playerCount, localPlayer := 0, false, 0, 0, 0;
      policy, lastClock, previous := Policy(false, 32, 250), None, NO_PREVIOUS;
    }

    method Fail(reason: Failure)
      requires Valid()
      modifies this`failure
      ensures Valid() && State() == Failed(old(State()), reason)
    {
      if failure == NoFailure { failure := reason; }
    }

    method ObserveClock(nowMs: nat) returns (ok: bool)
      requires Valid()
      modifies this`failure, this`lastClock
      ensures Valid() && Clocked(old(State()), nowMs) == Step(State(), [], ok)
    {
      if lastClock.Some? && nowMs < lastClock.value {
        Fail(ClockReversed);
        return false;
      }
      lastClock := Some(nowMs);
      return true;
    }

    /** Sends every peer its packet, or postpones the send until the next capture. */
    method SendInputs(core: RollbackCore, open: bool, backpressured: bool, nowMs: nat, force: bool,
        deferOrdinaryInput: bool)
      returns (ok: bool, out: seq<Outgoing>)
      requires Valid() && core.Valid() && State().Serves(core.State())
      modifies this
      ensures Valid()
        && ChannelState.SendInputs(old(State()), core.State(), open, backpressured, nowMs, force, deferOrdinaryInput)
        == Step(State(), out, ok)
    {
      ghost var before, c := State(), core.State();
      ok, out := true, [];
      if !active || !open || latestCapture == NONE || (!(force || deferredInput) && nowMs < nextInput) { return; }
      var canDefer := false;
      if deferOrdinaryInput && !deferredInput && !backpressured && !policy.adonisPhase {
        canDefer := CanDefer(core, nowMs, c);
      }
      assert canDefer == Postpones(before, c, nowMs, backpressured, deferOrdinaryInput);
      if canDefer {
        Postpone(core, nowMs, c);
        return;
      }
      ok, out := SendNow(core, backpressured, nowMs, c);
    }

    method SendNow(core: RollbackCore, backpressured: bool, nowMs: nat, ghost c: Core)
      returns (ok: bool, out: seq<Outgoing>)
      requires Valid() && Stands(core, c) && State().Serves(c) && latestCapture != NONE
      modifies this`deferredInput, this`peers, this`failure, this`nextInput, this`forceInputs
      ensures Valid() && SentNow(old(State()).(deferred := false), c, backpressured, nowMs) == Step(State(), out, ok)
    {
      deferredInput := false;
      ok, out := SendAll(core, backpressured, nowMs, c);
      if ok { Rearm(nowMs); }
    }

    method Rearm(nowMs: nat)
      requires Valid()
      modifies this`nextInput, this`forceInputs
      ensures Valid()
        && State() == old(State()).(nextInput := nowMs + policy.inputResendMs, forceInputs := false)
    {
      nextInput, forceInputs := nowMs + policy.inputResendMs, false;
    }

    method CanDefer(core: RollbackCore, nowMs: nat, ghost c: Core) returns (yes: bool)
      requires Valid() && Stands(core, c) && State().Serves(c) && latestCapture != NONE
      ensures yes == AllMayWait(State(), c, nowMs)
    {
      assert Folded(CoreMark, 0);
      yes := true;
      var latest := latestCapture + core.config.inputDelay;
      var peer := 0;
      while peer < playerCount
        invariant peer <= playerCount
        invariant yes == forall p :: 0 <= p < peer && p != localPlayer ==> PeerMayWait(State(), c, p, nowMs)
      {
        if peer != localPlayer {
          var frontier := core.peerAckOfLocal[peer];
          var outstanding :=
          if frontier == NONE then latest + 1 else if latest > frontier then latest - frontier else 0;
          var waits := outstanding < MAX_WINDOW &&
            !(frontier == peers[peer].repairFrontier && nowMs - peers[peer].lastRepair >= policy.repairIntervalMs);
          assert waits == PeerMayWait(State(), c, peer, nowMs);
          yes := yes && waits;
        }
        peer := peer + 1;
      }
    }

    method Postpone(core: RollbackCore, nowMs: nat, ghost c: Core)
      requires Valid() && Stands(core, c)
      modifies this`peers, this`deferredInput
      ensures Valid() && State() == Waiting(old(State()), c, nowMs)
    {
      assert Folded(CoreMark, 0);
      var peer := 0;
      while peer < playerCount
        invariant peer <= playerCount && |peers| == MAX_PLAYERS
        invariant forall p :: 0 <= p < MAX_PLAYERS ==>
          (peers[p] == if p < peer && p != localPlayer then Observed(old(peers)[p], core.peerAckOfLocal[p], nowMs)
                       else old(peers)[p])
      {
        if peer != localPlayer {
          var frontier := core.peerAckOfLocal[peer];
          if frontier != peers[peer].repairFrontier {
            peers := peers[peer := peers[peer].(repairFrontier := frontier, lastRepair := nowMs)];
          }
        }
        peer := peer + 1;
      }
      deferredInput := true;
      assert peers == Waiting(old(State()), c, nowMs).peers;
    }

    method SendAll(core: RollbackCore, backpressured: bool, nowMs: nat, ghost c: Core)
      returns (ok: bool, out: seq<Outgoing>)
      requires Valid() && Stands(core, c) && State().Serves(c) && latestCapture != NONE
      modifies this`peers, this`failure
      ensures Valid()
        && Step(State(), out, ok) ==
           SendFrom(old(State()), PacketsFor(old(State()), c), c.peerAck, 0, nowMs, backpressured)
    {
      ghost var before := State();
      ghost var packets := PacketsFor(before, c);
      ghost var all := SendFrom(before, packets, c.peerAck, 0, nowMs, backpressured);
      SendBegins(before, packets, c.peerAck, nowMs, backpressured, all);
      out := [];
      var peer := 0;
      while peer < playerCount
        invariant Valid() && peer <= playerCount
        invariant Underway(before, packets, c.peerAck, nowMs, backpressured, all, peer, State(), out)
      {
        if peer != localPlayer {
          ok, out := SendTurn(core, peer, backpressured, nowMs, c, before, packets, all, out);
          if !ok { return; }
        } else {
          SendSkips(before, packets, c.peerAck, nowMs, backpressured, all, peer, State(), out);
        }
        peer := peer + 1;
      }
      SendEnds(before, packets, c.peerAck, nowMs, backpressured, all, State(), out);
      ok := true;
    }

    method SendTurn(core: RollbackCore, peer: nat, backpressured: bool, nowMs: nat, ghost c: Core,
        ghost before: Channel, ghost packets: seq<PacketData>, ghost all: Step, earlier: seq<Outgoing>)
      returns (ok: bool, out: seq<Outgoing>)
      requires Valid() && Stands(core, c) && before.Serves(c) && before.latestCapture != NONE
        && packets == PacketsFor(before, c)
      requires peer < playerCount && peer != localPlayer
      requires Underway(before, packets, c.peerAck, nowMs, backpressured, all, peer, State(), earlier)
      modifies this`peers, this`failure
      ensures Valid() && if ok
        then Underway(before, packets, c.peerAck, nowMs, backpressured, all, peer + 1, State(), out)
        else all == Step(State(), out, false)
    {
      assert Folded(SendMark, 0);
      ghost var now := State();
      var packet, frontier := CurrentPacket(core, peer, before, c);
      ok, out := SendPacket(peer, packet, frontier, backpressured, nowMs);
      TurnCompletes(before, packets, c.peerAck, nowMs, backpressured, all, peer, now, earlier, Step(State(), out, ok));
      out := earlier + out;
    }

    method CurrentPacket(core: RollbackCore, peer: nat, ghost before: Channel, ghost c: Core)
      returns (packet: PacketData, frontier: int)
      requires Valid() && Stands(core, c) && before.Serves(c) && before.latestCapture != NONE
        && peer < MAX_PLAYERS
      requires latestCapture == before.latestCapture && peers[peer] == before.peers[peer]
      ensures packet == PacketFor(before, c, peer) && frontier == c.peerAck[peer]
    {
      assert Folded(CoreMark, 0);
      assert Latest(before, c) == latestCapture + core.config.inputDelay;
      packet := core.BuildInputPacket(peer, latestCapture + core.config.inputDelay, Bump(peers[peer].sent),
          peers[peer].received);
      assert packet == Built(c, peer, Latest(before, c), Bump(before.peers[peer].sent), before.peers[peer].received);
      frontier := core.peerAckOfLocal[peer];
      packet := packet.(senderFrame := core.lastSimulatedFrame + 1);
      if peers[peer].frame != NONE {
        packet := packet.(frameAdvantage := Clamp(packet.senderFrame - peers[peer].frame));
      }
    }

    method SendPacket(peer: nat, packet: PacketData, frontier: int, backpressured: bool, nowMs: nat)
      returns (ok: bool, out: seq<Outgoing>)
      requires Valid() && peer < MAX_PLAYERS
      modifies this`peers, this`failure
      ensures Valid() && Step(State(), out, ok) == SendOne(old(State()), packet, frontier, peer, nowMs, backpressured)
    {
      var record := peers[peer].(sent := Bump(peers[peer].sent));
      if !Encodable(packet) {
        peers := peers[peer := record];
        Fail(InvalidCapture);
        return false, [];
      }
      out := [];
      if !backpressured { out := [Outgoing(peer, packet, Ordinary)]; }
      if frontier != record.repairFrontier { record := record.(repairFrontier := frontier, lastRepair := nowMs); }
      if (packet.inputs != [] || record.needsAck) && nowMs - record.lastRepair >= policy.repairIntervalMs {
        out := out + [Outgoing(peer, packet, Repair)];
        record := record.(lastRepair := nowMs);
      }
      peers := peers[peer := record];
      ok := true;
    }

    /** What was postponed is sent, even when a later step fails. */
    method FlushDeferredInputs(core: RollbackCore, open: bool, backpressured: bool, nowMs: nat)
      returns (ok: bool, out: seq<Outgoing>)
      requires Valid() && core.Valid() && State().Serves(core.State())
      modifies this
      ensures Valid() && Flushed(old(State()), core.State(), open, backpressured, nowMs) == Step(State(), out, ok)
    {
      if !deferredInput { return true, []; }
      deferredInput := false;
      var clocked := ObserveClock(nowMs);
      if !clocked { return false, []; }
      ok, out := SendInputs(core, open, backpressured, nowMs, true, false);
    }

    method LocalCaptured(core: RollbackCore, captureFrame: nat, open: bool, backpressured: bool, nowMs: nat)
      returns (ok: bool, out: seq<Outgoing>)
      requires Valid() && core.Valid() && State().Serves(core.State()) && captureFrame < LIMIT
      modifies this
      ensures Valid()
        && Noted(old(State()), core.State(), captureFrame, open, backpressured, nowMs) == Step(State(), out, ok)
    {
      if failure != NoFailure { return false, []; }
      var captured := HasLocalCapture(core, captureFrame);
      if !active || !captured || (latestCapture != NONE && captureFrame < latestCapture) {
        Fail(InvalidCapture);
        return false, [];
      }
      var clocked := ObserveClock(nowMs);
      if !clocked { return false, []; }
      ok, out := FlushFor(core, captureFrame, open, backpressured, nowMs);
      if !ok { return; }
      ok, out := Announce(core, captureFrame, open, backpressured, nowMs, out);
    }

    method FlushFor(core: RollbackCore, captureFrame: nat, open: bool, backpressured: bool, nowMs: nat)
      returns (ok: bool, out: seq<Outgoing>)
      requires Valid() && core.Valid() && State().Serves(core.State())
      modifies this
      ensures Valid()
        && FlushedFor(old(State()), core.State(), captureFrame, open, backpressured, nowMs) == Step(State(), out, ok)
    {
      ok, out := true, [];
      if deferredInput && latestCapture != captureFrame && captureFrame != latestCapture + 1 {
        ok, out := FlushDeferredInputs(core, open, backpressured, nowMs);
      }
    }

    method Announce(core: RollbackCore, captureFrame: nat, open: bool, backpressured: bool, nowMs: nat,
        earlier: seq<Outgoing>)
      returns (ok: bool, out: seq<Outgoing>)
      requires Valid() && core.Valid() && State().Serves(core.State()) && captureFrame < LIMIT
        && HasCapture(core.State(), captureFrame)
      modifies this
      ensures Valid()
        && Announced(old(State()), core.State(), captureFrame, open, backpressured, nowMs, earlier) ==
           Step(State(), out, ok)
    {
      var isNew := latestCapture != captureFrame;
      latestCapture := captureFrame;
      ok, out := SendInputs(core, open, backpressured, nowMs, isNew, false);
      out := earlier + out;
    }

    method HasLocalCapture(core: RollbackCore, captureFrame: nat) returns (yes: bool)
      requires core.Valid() && captureFrame < LIMIT
      ensures yes == HasCapture(core.State(), captureFrame)
    {
      if !core.configured || captureFrame >= LIMIT - core.config.inputDelay { return false; }
      var slot;
      yes, slot := core.FindInputSlot(core.config.localPlayer, captureFrame + core.config.inputDelay);
    }

    // ------------------------------------------------------------ retirement

    /** The two frontier minima reach the terminal frame exactly when every peer has settled. */
    method CanRetire(core: RollbackCore, terminalFrame: nat) returns (yes: bool)
      requires Valid() && core.Valid() && State().Serves(core.State())
      ensures yes == Retires(State(), core.State(), terminalFrame)
    {
      var confirmed := core.ConfirmedThroughAllRemotes();
      var acknowledged := core.AcknowledgedLocalThroughAllRemotes();
      LowestReaches(core.confirmedThrough, localPlayer, playerCount, 0, NONE, terminalFrame);
      LowestReaches(core.peerAckOfLocal, localPlayer, playerCount, 0, NONE, terminalFrame);
      assert (forall p :: 0 <= p < playerCount && p != localPlayer ==>
                            PeerProtocol.Settled(core.State(), terminalFrame, p))
        == (terminalFrame <= confirmed && terminalFrame <= acknowledged) by {
        if terminalFrame <= confirmed && terminalFrame <= acknowledged {
          forall p | 0 <= p < playerCount && p != localPlayer
            ensures PeerProtocol.Settled(core.State(), terminalFrame, p)
          {}
        }
        if forall p :: 0 <= p < playerCount && p != localPlayer ==>
                         PeerProtocol.Settled(core.State(), terminalFrame, p) {
          forall p | 0 <= p < playerCount && p != localPlayer
            ensures terminalFrame <= core.confirmedThrough[p] && terminalFrame <= core.peerAckOfLocal[p]
          {
            assert PeerProtocol.Settled(core.State(), terminalFrame, p);
          }
        }
      }
      yes := active && failure == NoFailure && core.lastSimulatedFrame == terminalFrame && core.rollbackFrame == NONE &&
        confirmed != NONE && confirmed >= terminalFrame && acknowledged != NONE && acknowledged >= terminalFrame;
    }

    method Retire(core: RollbackCore, terminalFrame: nat, open: bool, nowMs: nat) returns (ok: bool, out: seq<Outgoing>)
      requires Valid() && core.Valid() && State().Serves(core.State()) && terminalFrame < LIMIT
      modifies this
      ensures Valid() && Retired(old(State()), core.State(), terminalFrame, open, nowMs) == Step(State(), out, ok)
    {
      var retires := CanRetire(core, terminalFrame);
      if !retires { return false, []; }
      var clocked := ObserveClock(nowMs);
      if !clocked { return false, []; }
      if previous.session != 0 {
        Fail(InvalidRetirement);
        return false, [];
      }
      CacheAnswers(terminalFrame, core.State());
      Deactivate(nowMs);
      ok, out := SendRetired(open, nowMs);
    }

    method Deactivate(nowMs: nat)
      requires Valid()
      modifies this`active, this`deferredInput, this`previous
      ensures Valid() && State() ==
        old(State()).(active := false, deferred := false, previous := old(previous).(nextSend := nowMs))
    {
      previous := previous.(nextSend := nowMs);
      active, deferredInput := false, false;
    }

    method CacheAnswers(terminalFrame: nat, ghost c: Core)
      requires Valid() && State().Serves(c) && terminalFrame < LIMIT
      modifies this`peers, this`previous
      ensures Valid() && State() == Cached(old(State()), c, terminalFrame)
    {
      var peer, acks := 0, previous.acks;
      while peer < playerCount
        invariant peer <= playerCount && |peers| == |acks| == MAX_PLAYERS && previous == old(previous)
        invariant forall p :: 0 <= p < MAX_PLAYERS ==>
          (peers[p] == if p < peer && p != localPlayer then old(peers)[p].(sent := Bump(old(peers)[p].sent))
                       else old(peers)[p])
        invariant forall p :: 0 <= p < MAX_PLAYERS ==>
          (acks[p] == if p < peer && p != localPlayer
            then PeerProtocol.TerminalAck(c, terminalFrame, Bump(old(peers)[p].sent), old(peers)[p].received)
            else old(previous).acks[p])
      {
        if peer != localPlayer {
          peers := peers[peer := peers[peer].(sent := Bump(peers[peer].sent))];
          acks := acks[peer := InputPacket(
            sessionId, peers[peer].sent, peers[peer].received, terminalFrame, terminalFrame, NONE, terminalFrame + 1,
            0, localPlayer, playerCount, [])];
        }
        peer := peer + 1;
      }
      ghost var after := peers;
      var needed := seq(MAX_PLAYERS, p requires 0 <= p < MAX_PLAYERS => false);
      peer := 0;
      while peer < playerCount
        invariant peer <= playerCount && |needed| == MAX_PLAYERS && previous == old(previous) && peers == after
        invariant forall p :: 0 <= p < MAX_PLAYERS ==> needed[p] == (p < peer && p != localPlayer)
      {
        needed := needed[peer := peer != localPlayer];
        peer := peer + 1;
      }
      previous := Previous(sessionId, playerCount, localPlayer, needed, acks, previous.nextSend);
      ghost var cached := Cached(old(State()), c, terminalFrame);
      assert peers == cached.peers && acks == cached.previous.acks && needed == cached.previous.needed;
    }

    /** Answers every peer that has not yet begun the next session. */
    method SendRetired(open: bool, nowMs: nat) returns (ok: bool, out: seq<Outgoing>)
      requires Valid()
      modifies this`previous
      ensures Valid() && SentRetired(old(State()), open, nowMs) == Step(State(), out, ok)
    {
      ok, out := true, [];
      if previous.session == 0 { return; }
      if !previous.needed[0] && !previous.needed[1] && !previous.needed[2] {
        previous := previous.(session := 0, acks := NO_ACKS);
        return;
      }
      if nowMs < previous.nextSend || !open { return; }
      out := Answers();
      if out == [] { previous := previous.(session := 0, acks := NO_ACKS); }
      previous := previous.(nextSend := nowMs + policy.inputResendMs);
    }

    method Answers() returns (out: seq<Outgoing>)
      requires Valid()
      ensures out == AnswersFrom(previous, 0)
    {
      var peer, cached := 0, previous;
      out := [];
      while peer < cached.count
        invariant peer <= cached.count && out + AnswersFrom(cached, peer) == AnswersFrom(cached, 0)
      {
        if peer != cached.local && cached.needed[peer] {
          MoveOver(out, Outgoing(peer, cached.acks[peer], Repair), AnswersFrom(cached, peer + 1));
          out := out + [Outgoing(peer, cached.acks[peer], Repair)];
        }
        peer := peer + 1;
      }
    }

    /** A peer's first packet of the next session. */
    method PeerBegan(peer: nat)
      requires Valid() && peer < MAX_PLAYERS
      modifies this`previous
      ensures Valid() && State() == MovedOn(old(State()), peer)
    {
      if previous.session != 0 { previous := previous.(needed := previous.needed[peer := false]); }
    }
  }
}
