/** The sending half of a session channel as a value: postponing a send, sending to every peer, and the
    cached answers of a retired session. */
module ChannelState {
  import opened InputLane
  import opened CoreState
  import opened CoreRun
  import opened PeerProtocol
  import opened Options
  import opened Folding

  datatype Failure = NoFailure | InvalidConfiguration | Transport | InvalidCapture | InvalidRetirement | ClockReversed

  datatype Lane = Ordinary | Repair

  datatype Outgoing = Outgoing(to: nat, packet: PacketData, lane: Lane)

  datatype Policy = Policy(adonisPhase: bool, inputResendMs: nat, repairIntervalMs: nat)

  /** What the channel knows of one peer. */
  datatype Peer = Peer(sent: nat, received: nat, frame: int, repairFrontier: int, lastRepair: nat, needsAck: bool)

  /** The answers of a retired session, until each peer has moved on. */
  datatype Previous = Previous(session: nat, count: nat, local: nat, needed: seq<bool>, acks: seq<PacketData>,
      nextSend: nat)

  const NO_ACKS: seq<PacketData> := [NO_PACKET, NO_PACKET, NO_PACKET]
  const NO_PREVIOUS := Previous(0, 0, 0, [false, false, false], NO_ACKS, 0)

  datatype ChannelData = Channel(
    active: bool, failure: Failure, deferred: bool, latestCapture: int, peers: seq<Peer>, nextInput: nat,
    forceInputs: bool,
    sessionId: nat, playerCount: nat, localPlayer: nat, policy: Policy, lastClock: Option<nat>, previous: Previous)
  {
    predicate Shaped() {
      && |peers| == MAX_PLAYERS && |previous.needed| == MAX_PLAYERS && |previous.acks| == MAX_PLAYERS
      && localPlayer < MAX_PLAYERS && playerCount <= MAX_PLAYERS && previous.count <= MAX_PLAYERS
      && NONE <= latestCapture < LIMIT
    }

    /** The core the channel was begun with. */
    predicate Serves(c: Core)
      requires Shaped()
    {
      && c.configured && c.config.playerCount == playerCount && c.config.localPlayer == localPlayer
      && c.config.sessionId == sessionId
      && (0 <= latestCapture ==> LocalFrameForCapture(c, latestCapture) != NONE)
    }
  }

  const NO_PEER := Peer(0, 0, NONE, NONE, 0, false)
  const CLOSED: ChannelData :=
    Channel(false, NoFailure, false, NONE, [NO_PEER, NO_PEER, NO_PEER], 0, false, 0, 0, 0,
            Policy(false, 32, 250), None, NO_PREVIOUS)

  type Channel = ch: ChannelData | ch.Shaped() witness CLOSED

  function Failed(ch: Channel, failure: Failure): Channel {
    if ch.failure == NoFailure then ch.(failure := failure) else ch
  }

  /** The next 32-bit sequence number. */
  function Bump(sequence: nat): (next: nat)
    ensures sequence < 0x1_0000_0000 ==> next == (sequence + 1) % 0x1_0000_0000
  {
    if sequence >= 0xFFFF_FFFF then 0 else sequence + 1
  }

  function Latest(ch: Channel, c: Core): nat
    requires ch.Serves(c) && ch.latestCapture != NONE
  {
    LocalFrameForCapture(c, ch.latestCapture)
  }

  // ---------------------------------------------------------------- postponing

  function Outstanding(latest: nat, frontier: int): int { if latest > frontier then latest - frontier else 0 }

  /** One peer does not mind if the send waits: a new capture cannot push out its oldest sample, and no
      repair is due. */
  predicate PeerMayWait(ch: Channel, c: Core, peer: nat, now: nat)
    requires ch.Serves(c) && ch.latestCapture != NONE && peer < MAX_PLAYERS
  {
    && Outstanding(Latest(ch, c), c.peerAck[peer]) < MAX_WINDOW
    && !(c.peerAck[peer] == ch.peers[peer].repairFrontier
         && now - ch.peers[peer].lastRepair >= ch.policy.repairIntervalMs)
  }

  predicate Postpones(ch: Channel, c: Core, now: nat, backpressured: bool, deferOrdinaryInput: bool)
    requires ch.Serves(c) && ch.latestCapture != NONE
  {
    && deferOrdinaryInput && !ch.deferred && !backpressured && !ch.policy.adonisPhase
    && AllMayWait(ch, c, now)
  }

  predicate AllMayWait(ch: Channel, c: Core, now: nat)
    requires ch.Serves(c) && ch.latestCapture != NONE
  {
    forall p :: 0 <= p < ch.playerCount && p != ch.localPlayer ==> PeerMayWait(ch, c, p, now)
  }

  function Observed(peer: Peer, frontier: int, now: nat): Peer {
    if frontier != peer.repairFrontier then peer.(repairFrontier := frontier, lastRepair := now) else peer
  }

  function Waiting(ch: Channel, c: Core, now: nat): Channel {
    ch.(deferred := true, peers := seq(MAX_PLAYERS, p requires 0 <= p < MAX_PLAYERS =>
      if p < ch.playerCount && p != ch.localPlayer then Observed(ch.peers[p], c.peerAck[p], now) else ch.peers[p]))
  }

  // ---------------------------------------------------------------- sending

  function Clamp(x: int): int { if x < -32768 then -32768 else if x > 32767 then 32767 else x }

  predicate Encodable(p: PacketData) {
    && 2 <= p.playerCount <= MAX_PLAYERS && p.senderPlayer < p.playerCount && |p.inputs| <= MAX_WINDOW
    && (p.inputs == [] || p.Consistent()) && forall k :: 0 <= k < |p.inputs| ==> p.inputs[k].Valid()
  }

  /** The packet the channel sends to a peer now. */
  function PacketFor(ch: Channel, c: Core, peer: nat): PacketData
    requires ch.Serves(c) && ch.latestCapture != NONE && peer < MAX_PLAYERS
  {
    var p := Built(c, peer, Latest(ch, c), Bump(ch.peers[peer].sent), ch.peers[peer].received);
    p.(senderFrame := c.last + 1,
       frameAdvantage :=
         if ch.peers[peer].frame == NONE then p.frameAdvantage else Clamp(c.last + 1 - ch.peers[peer].frame))
  }

  /** Every packet says where its sender is and how far ahead of the peer, within sixteen bits, and carries the
      next sequence number and the newest one received. */
  lemma PacketHeads(ch: Channel, c: Core, peer: nat)
    requires ch.Serves(c) && ch.latestCapture != NONE && c.Remote(peer)
    ensures var p, ahead := PacketFor(ch, c, peer), c.last + 1 - ch.peers[peer].frame;
      && p.senderFrame == c.last + 1 && p.ackFrame == c.lanes[peer].confirmed
      && p.sequence == Bump(ch.peers[peer].sent) && p.ackSequence == ch.peers[peer].received
      && -32768 <= p.frameAdvantage <= 32767
      && (ch.peers[peer].frame == NONE ==> p.frameAdvantage == 0)
      && (ch.peers[peer].frame != NONE && -32768 <= ahead <= 32767 ==> p.frameAdvantage == ahead)
      && (ch.peers[peer].frame != NONE && ahead > 32767 ==> p.frameAdvantage == 32767)
      && (ch.peers[peer].frame != NONE && ahead < -32768 ==> p.frameAdvantage == -32768)
  {}

  datatype Step = Step(channel: Channel, out: seq<Outgoing>, ok: bool)

  predicate RepairDue(peer: Peer, packet: PacketData, now: nat, interval: nat) {
    (packet.inputs != [] || peer.needsAck) && now - peer.lastRepair >= interval
  }

  /** One peer's turn: the ordinary packet unless blocked, and a reliable copy of it when its tail has
      been stalled for long enough. */
  function SendOne(ch: Channel, packet: PacketData, frontier: int, peer: nat, now: nat, backpressured: bool): Step
    requires peer < MAX_PLAYERS
  {
    var bumped := ch.peers[peer].(sent := Bump(ch.peers[peer].sent));
    if !Encodable(packet) then Step(Failed(ch.(peers := ch.peers[peer := bumped]), InvalidCapture), [], false) else
      var ordinary := if backpressured then [] else [Outgoing(peer, packet, Ordinary)];
      var seen := Observed(bumped, frontier, now);
      if RepairDue(seen, packet, now, ch.policy.repairIntervalMs) then
        Step(ch.(peers := ch.peers[peer := seen.(lastRepair := now)]), ordinary + [Outgoing(peer, packet, Repair)],
            true)
      else Step(ch.(peers := ch.peers[peer := seen]), ordinary, true)
  }

  function SendFrom(ch: Channel, packets: seq<PacketData>, acks: seq<int>, peer: nat, now: nat,
      backpressured: bool): (s: Step)
    requires |packets| == |acks| == MAX_PLAYERS && peer <= ch.playerCount
    ensures s.channel == ch.(peers := s.channel.peers, failure := s.channel.failure)
    decreases ch.playerCount - peer
  {
    if peer == ch.playerCount then Step(ch, [], true)
    else if peer == ch.localPlayer then SendFrom(ch, packets, acks, peer + 1, now, backpressured)
    else
      var one := SendOne(ch, packets[peer], acks[peer], peer, now, backpressured);
      if !one.ok then one else
        var rest := SendFrom(one.channel, packets, acks, peer + 1, now, backpressured);
        Step(rest.channel, one.out + rest.out, rest.ok)
  }

  function PacketsFor(ch: Channel, c: Core): (r: seq<PacketData>)
    requires ch.Serves(c) && ch.latestCapture != NONE
    ensures |r| == MAX_PLAYERS && forall p :: 0 <= p < MAX_PLAYERS ==> r[p] == PacketFor(ch, c, p)
  {
    seq(MAX_PLAYERS, p requires 0 <= p < MAX_PLAYERS => PacketFor(ch, c, p))
  }

  function SentNow(ch: Channel, c: Core, backpressured: bool, now: nat): Step
    requires ch.Serves(c) && ch.latestCapture != NONE
  {
    var all := SendFrom(ch, PacketsFor(ch, c), c.peerAck, 0, now, backpressured);
    if !all.ok then all
    else all.(channel := all.channel.(nextInput := now + ch.policy.inputResendMs, forceInputs := false))
  }

  function SendInputs(ch: Channel, c: Core, open: bool, backpressured: bool, now: nat, force: bool,
      deferOrdinaryInput: bool): Step
    requires ch.Serves(c)
  {
    if Idle(ch, open, now, force) then Step(ch, [], true)
    else if Postpones(ch, c, now, backpressured, deferOrdinaryInput) then Step(Waiting(ch, c, now), [], true)
    else SentNow(ch.(deferred := false), c, backpressured, now)
  }

  predicate Idle(ch: Channel, open: bool, now: nat, force: bool) {
    !ch.active || !open || ch.latestCapture == NONE || (!force && !ch.deferred && now < ch.nextInput)
  }

  /** A send to every peer, from a channel `before` it, in which the peers from `peer` on have not had their
      turn: what is still to be sent completes `out` to `all`. */
  ghost predicate Underway(before: Channel, packets: seq<PacketData>, acks: seq<int>, now: nat, backpressured: bool,
      all: Step, peer: nat, ch: Channel, out: seq<Outgoing>)
    requires |packets| == |acks| == MAX_PLAYERS && peer <= ch.playerCount
  {
    forall u: int :: Folded(SendMark, u) ==>
      && ch == before.(peers := ch.peers, failure := ch.failure)
      && (forall p :: peer <= p < MAX_PLAYERS ==> ch.peers[p] == before.peers[p])
      && Completes(all, out, SendFrom(ch, packets, acks, peer, now, backpressured))
  }

  ghost predicate Completes(all: Step, out: seq<Outgoing>, rest: Step) {
    all == Step(rest.channel, out + rest.out, rest.ok)
  }

  lemma SendBegins(before: Channel, packets: seq<PacketData>, acks: seq<int>, now: nat, backpressured: bool, all: Step)
    requires |packets| == |acks| == MAX_PLAYERS && all == SendFrom(before, packets, acks, 0, now, backpressured)
    ensures Underway(before, packets, acks, now, backpressured, all, 0, before, [])
  {
    assert [] + all.out == all.out;
  }

  lemma SendSkips(before: Channel, packets: seq<PacketData>, acks: seq<int>, now: nat, backpressured: bool, all: Step,
      peer: nat, ch: Channel, out: seq<Outgoing>)
    requires |packets| == |acks| == MAX_PLAYERS && peer < ch.playerCount && peer == ch.localPlayer
    requires Underway(before, packets, acks, now, backpressured, all, peer, ch, out)
    ensures Underway(before, packets, acks, now, backpressured, all, peer + 1, ch, out)
  {
    assert Folded(SendMark, 0);
  }

  lemma SendEnds(before: Channel, packets: seq<PacketData>, acks: seq<int>, now: nat, backpressured: bool, all: Step,
      ch: Channel, out: seq<Outgoing>)
    requires |packets| == |acks| == MAX_PLAYERS
    requires Underway(before, packets, acks, now, backpressured, all, ch.playerCount, ch, out)
    ensures all == Step(ch, out, true)
  {
    assert Folded(SendMark, 0);
    assert out + [] == out;
  }

  lemma TurnCompletes(before: Channel, packets: seq<PacketData>, acks: seq<int>, now: nat, backpressured: bool,
      all: Step, peer: nat, ch: Channel, out: seq<Outgoing>, one: Step)
    requires |packets| == |acks| == MAX_PLAYERS && peer < ch.playerCount && peer != ch.localPlayer
    requires Underway(before, packets, acks, now, backpressured, all, peer, ch, out)
    requires one == SendOne(ch, packets[peer], acks[peer], peer, now, backpressured)
    ensures one.channel.playerCount == ch.playerCount && one.channel.localPlayer == ch.localPlayer
    ensures if one.ok
      then Underway(before, packets, acks, now, backpressured, all, peer + 1, one.channel, out + one.out)
      else all == Step(one.channel, out + one.out, false)
  {
    assert Folded(SendMark, 0);
    if one.ok {
      var rest := SendFrom(one.channel, packets, acks, peer + 1, now, backpressured);
      assert out + (one.out + rest.out) == (out + one.out) + rest.out;
    }
  }

  // ---------------------------------------------------------------- what postponing keeps

  lemma TurnNumber(ch: Channel, packet: PacketData, frontier: int, peer: nat, now: nat, backpressured: bool, p: nat)
    requires peer < MAX_PLAYERS && p < MAX_PLAYERS
    ensures var s := SendOne(ch, packet, frontier, peer, now, backpressured).channel;
      && s.peers[p].sent == (if p == peer then Bump(ch.peers[p].sent) else ch.peers[p].sent)
      && s.playerCount == ch.playerCount && s.localPlayer == ch.localPlayer
  {}

  /** A send to all peers uses exactly one sequence number for each. */
  lemma {:induction false} OneNumberEach(ch: Channel, packets: seq<PacketData>, acks: seq<int>, peer: nat, now: nat,
      backpressured: bool, p: nat)
    requires |packets| == |acks| == MAX_PLAYERS && peer <= ch.playerCount && p < MAX_PLAYERS
    ensures var s := SendFrom(ch, packets, acks, peer, now, backpressured);
      s.ok ==> s.channel.peers[p].sent == SentThrough(ch, peer, p)
    decreases ch.playerCount - peer
  {
    if peer < ch.playerCount {
      if peer == ch.localPlayer {
        OneNumberEach(ch, packets, acks, peer + 1, now, backpressured, p);
      } else {
        var one := SendOne(ch, packets[peer], acks[peer], peer, now, backpressured);
        TurnNumber(ch, packets[peer], acks[peer], peer, now, backpressured, p);
        if one.ok { OneNumberEach(one.channel, packets, acks, peer + 1, now, backpressured, p); }
      }
    }
  }

  /** The sequence number of peer `p` once every peer from `peer` on has had its turn. */
  function SentThrough(ch: Channel, peer: nat, p: nat): nat
    requires p < MAX_PLAYERS
  {
    if peer <= p < ch.playerCount && p != ch.localPlayer then Bump(ch.peers[p].sent) else ch.peers[p].sent
  }

  /** Everything handed to the transport is the packet of its addressee. */
  lemma {:induction false} SendsItsPackets(ch: Channel, packets: seq<PacketData>, acks: seq<int>, peer: nat, now: nat,
      backpressured: bool, e: nat)
    requires |packets| == |acks| == MAX_PLAYERS && peer <= ch.playerCount
    requires e < |SendFrom(ch, packets, acks, peer, now, backpressured).out|
    ensures var o := SendFrom(ch, packets, acks, peer, now, backpressured).out[e];
      peer <= o.to < ch.playerCount && o.to != ch.localPlayer && o.packet == packets[o.to]
    decreases ch.playerCount - peer
  {
    if peer == ch.localPlayer {
      SendsItsPackets(ch, packets, acks, peer + 1, now, backpressured, e);
    } else {
      var one := SendOne(ch, packets[peer], acks[peer], peer, now, backpressured);
      if |one.out| <= e { SendsItsPackets(one.channel, packets, acks, peer + 1, now, backpressured, e - |one.out|); }
    }
  }

  /** A send is postponed without building a packet or using a sequence number, and never while one is
      already postponed; a real send ends the postponement and uses exactly one number for each peer. */
  lemma PostponedOnce(ch: Channel, c: Core, open: bool, backpressured: bool, now: nat, force: bool, defer: bool, p: nat)
    requires ch.Serves(c) && p < MAX_PLAYERS
    ensures var s := SendInputs(ch, c, open, backpressured, now, force, defer);
      && (s.channel.deferred && !ch.deferred ==> s.out == [])
      && (s.ok && s.out != [] ==> s.channel.peers[p].sent == SentThrough(ch, 0, p) && !s.channel.deferred)
      && (s.channel.deferred ==> s.channel.peers[p].sent == ch.peers[p].sent)
      && (ch.deferred && ch.active && open && ch.latestCapture != NONE ==> !s.channel.deferred)
      && s.channel.Serves(c)
  {
    if ch.latestCapture != NONE {
      OneNumberEach(ch.(deferred := false), PacketsFor(ch.(deferred := false), c), c.peerAck, 0, now, backpressured, p);
    }
  }

  /** What the replacing packet is, for one peer: the postponed inputs and the new one behind them, under the
      number the postponed packet would have had. */
  ghost predicate Replaces(sent: PacketData, postponed: PacketData, input: FrameInput) {
    forall u: int :: Folded(ReplaceMark, u) ==>
      && sent == postponed.(inputs := postponed.inputs + [input], latestFrame := postponed.latestFrame + 1,
                            firstInputFrame := sent.firstInputFrame, senderFrame := sent.senderFrame,
                            frameAdvantage := sent.frameAdvantage)
      && (postponed.inputs != [] ==> sent.firstInputFrame == postponed.firstInputFrame)
      && |sent.inputs| <= MAX_WINDOW && sent.Consistent()
  }

  /** What building fills in whatever the inputs. */
  predicate Headed(p: PacketData, c: Core, peer: nat, s: nat, a: nat)
    requires peer < MAX_PLAYERS
  {
    && p.sessionId == c.config.sessionId && p.sequence == s && p.ackSequence == a
    && p.ackFrame == c.lanes[peer].confirmed
    && p.senderPlayer == c.config.localPlayer && p.playerCount == c.config.playerCount
  }

  /** A packet of the samples from `first` to `latest`, if there are any. */
  predicate Filled(p: PacketData, samples: seq<FrameInput>, first: nat, latest: nat) {
    && p.inputs == samples && p.latestFrame == latest
    && p.firstInputFrame == if samples == [] then NONE else first
  }

  lemma BuiltIsFilled(c: Core, peer: nat, latest: nat, s: nat, a: nat, first: nat, samples: seq<FrameInput>,
      p: PacketData)
    requires c.Remote(peer) && latest < LIMIT && p == Built(c, peer, latest, s, a)
    requires c.peerAck[peer] + 1 == first <= latest + 1 <= first + MAX_WINDOW && latest < MAX_WINDOW + first
    requires samples == Samples(c.Local().ring, first, latest, MAX_WINDOW) && |samples| == latest + 1 - first
    ensures Headed(p, c, peer, s, a) && Filled(p, samples, first, latest)
  {
    assert FirstUnacknowledged(c, peer, latest) == first;
  }

  lemma FilledReplaces(sent: PacketData, postponed: PacketData, c: Core, c': Core, peer: nat, s: nat, a: nat,
      samples: seq<FrameInput>, first: nat, latest: nat, input: FrameInput)
    requires peer < MAX_PLAYERS && Headed(postponed, c, peer, s, a) && Headed(sent, c', peer, s, a)
    requires c'.config == c.config && c'.lanes[peer].confirmed == c.lanes[peer].confirmed
    requires Filled(postponed, samples, first, latest) && Filled(sent, samples + [input], first, latest + 1)
    requires |samples| == latest + 1 - first < MAX_WINDOW
    ensures Replaces(sent, postponed, input)
  {}

  /** The core after its next capture: the newest known local inputs stay where they are, with the new one
      behind them, and nothing else changes. */
  ghost predicate Followed(c: Core, c': Core, input: FrameInput) {
    forall u: int :: Folded(CaptureMark, u) ==>
      && c'.config == c.config && c'.configured == c.configured && c'.peerAck == c.peerAck
      && (forall p :: 0 <= p < MAX_PLAYERS && p != c.config.localPlayer ==> c'.lanes[p] == c.lanes[p])
      && (forall f: nat :: c.Local().confirmed - MAX_WINDOW < f <= c.Local().confirmed ==>
            SameKnown(c.Local().ring, c'.Local().ring, f))
      && 0 <= c.Local().confirmed && Finds(c'.Local().ring, c.Local().confirmed + 1)
      && c'.Local().ring[(c.Local().confirmed + 1) % RING].input == input
  }

  /** A postponed packet, and the packet that replaces it after the next capture, for one peer. */
  lemma DeferralLosesNothing(c: Core, c': Core, input: FrameInput, peer: nat, latest: nat, s: nat, a: nat,
      postponed: PacketData, sent: PacketData)
    requires Followed(c, c', input) && c.Remote(peer) && latest == c.Local().confirmed < LIMIT - 1
    requires NONE <= c.peerAck[peer] <= latest && Outstanding(latest, c.peerAck[peer]) < MAX_WINDOW
    requires postponed == Built(c, peer, latest, s, a) && sent == Built(c', peer, latest + 1, s, a)
    ensures Replaces(sent, postponed, input)
  {
    var first, samples := FilledPair(c, c', input, peer, latest, s, a, postponed, sent);
    FilledReplaces(sent, postponed, c, c', peer, s, a, samples, first, latest, input);
  }

  lemma FilledPair(c: Core, c': Core, input: FrameInput, peer: nat, latest: nat, s: nat, a: nat,
      postponed: PacketData, sent: PacketData) returns (first: nat, samples: seq<FrameInput>)
    requires Followed(c, c', input) && c.Remote(peer) && latest == c.Local().confirmed < LIMIT - 1
    requires NONE <= c.peerAck[peer] <= latest && Outstanding(latest, c.peerAck[peer]) < MAX_WINDOW
    requires postponed == Built(c, peer, latest, s, a) && sent == Built(c', peer, latest + 1, s, a)
    ensures Headed(postponed, c, peer, s, a) && Headed(sent, c', peer, s, a) && c'.config == c.config
      && c'.lanes[peer].confirmed == c.lanes[peer].confirmed
    ensures Filled(postponed, samples, first, latest) && Filled(sent, samples + [input], first, latest + 1)
      && |samples| == latest + 1 - first < MAX_WINDOW
  {
    first := c.peerAck[peer] + 1;
    var more: seq<FrameInput>;
    samples, more := FollowedTail(c, c', input, peer, first, latest);
    BuiltIsFilled(c, peer, latest, s, a, first, samples, postponed);
    BuiltIsFilled(c', peer, latest + 1, s, a, first, more, sent);
  }

  lemma FollowedTail(c: Core, c': Core, input: FrameInput, peer: nat, first: nat, latest: nat)
      returns (samples: seq<FrameInput>, more: seq<FrameInput>)
    requires Followed(c, c', input) && c.Remote(peer) && latest == c.Local().confirmed
    requires first <= latest + 1 < first + MAX_WINDOW
    ensures c'.config == c.config && c'.configured == c.configured && c'.peerAck == c.peerAck
      && c'.lanes[peer] == c.lanes[peer]
    ensures samples == Samples(c.Local().ring, first, latest, MAX_WINDOW)
      && more == Samples(c'.Local().ring, first, latest + 1, MAX_WINDOW)
    ensures more == samples + [input] && |samples| == latest + 1 - first
  {
    assert Folded(CaptureMark, 0);
    samples := Samples(c.Local().ring, first, latest, MAX_WINDOW);
    more := Samples(c'.Local().ring, first, latest + 1, MAX_WINDOW);
    SamplesGrow(c.Local().ring, c'.Local().ring, first, latest, MAX_WINDOW, input);
  }

  lemma CaptureFollows(n: Node, m: Node, capture: nat, input: FrameInput)
    requires NodeOk(n) && MayCapture(n, capture + 1) && m == Captured(n, capture + 1, input)
    requires LocalFrameForCapture(n.core, capture) == n.core.Local().confirmed && 0 <= n.core.Local().confirmed
    requires LocalFrameForCapture(n.core, capture + 1) != NONE
    ensures Followed(n.core, m.core, input)
  {
    var local, latest: nat := n.core.config.localPlayer, n.core.Local().confirmed;
    OwnLane(n);
    CaptureNext(n, capture + 1, input);
    OwnLane(m);
    TailsAgree(n.core.Local().ring, n.logs[local], m.core.Local().ring, m.logs[local],
        if latest < MAX_WINDOW then 0 else latest + 1 - MAX_WINDOW, latest, input);
  }

  /** Rewinding and simulating before the capture make no difference. */
  lemma FollowedSince(c: Core, between: Core, c': Core, input: FrameInput)
    requires SameInputs(c, between) && Followed(between, c', input)
    ensures Followed(c, c', input)
  {
    assert Folded(CaptureMark, 0);
  }

  lemma OwnLane(n: Node)
    requires NodeOk(n)
    ensures LaneOk(n.core.Local(), n.logs[n.core.config.localPlayer], n.core.Local().confirmed + 1 - RING)
    ensures n.core.Local().confirmed + 1 !in n.logs[n.core.config.localPlayer]
  {
    Unfolded(n);
    LaneHeld(n, n.core.config.localPlayer);
  }

  predicate SameKnown(ring: Frames, ring': Frames, f: nat)
    requires |ring| == |ring'| == RING
  {
    Finds(ring, f) && Finds(ring', f) && ring[f % RING].input == ring'[f % RING].input
  }

  lemma TailsAgree(ring: Frames, log: Log, ring': Frames, log': Log, first: nat, latest: nat, input: FrameInput)
    requires LaneOk(InputLane.Lane(ring, latest), log, latest + 1 - RING) && latest < first + MAX_WINDOW
    requires LaneOk(InputLane.Lane(ring', latest + 1), log', latest + 2 - RING) && log' == log[latest + 1 := input]
    ensures forall f: nat :: first <= f <= latest ==> SameKnown(ring, ring', f)
    ensures Finds(ring', latest + 1) && ring'[(latest + 1) % RING].input == input
  {
    forall f: nat | first <= f <= latest ensures SameKnown(ring, ring', f) {
      RetainedIsFound(ring, log, latest + 1 - RING, f);
      RetainedIsFound(ring', log', latest + 2 - RING, f);
    }
    RetainedIsFound(ring', log', latest + 2 - RING, latest + 1);
  }

  /** One more capture: the same tail and the new input behind it. */
  lemma {:induction false} SamplesGrow(ring: Frames, ring': Frames, first: nat, latest: nat, count: nat,
      input: FrameInput)
    requires |ring| == |ring'| == RING && first <= latest + 1 && latest + 2 - first <= count
    requires forall f: nat :: first <= f <= latest ==> SameKnown(ring, ring', f)
    requires Finds(ring', latest + 1) && ring'[(latest + 1) % RING].input == input
    ensures Samples(ring', first, latest + 1, count) == Samples(ring, first, latest, count) + [input]
    ensures |Samples(ring, first, latest, count)| == latest + 1 - first
    decreases count
  {
    if first <= latest {
      assert SameKnown(ring, ring', first);
      SamplesGrow(ring, ring', first + 1, latest, count - 1, input);
    }
  }

  // ---------------------------------------------------------------- captures

  function Clocked(ch: Channel, now: nat): Step {
    if ch.lastClock.Some? && now < ch.lastClock.value then Step(Failed(ch, ClockReversed), [], false)
    else Step(ch.(lastClock := Some(now)), [], true)
  }

  predicate HasCapture(c: Core, capture: nat) {
    LocalFrameForCapture(c, capture) != NONE && Finds(c.Local().ring, LocalFrameForCapture(c, capture))
  }

  /** Sends what was postponed, whatever happens afterwards. */
  function Flushed(ch: Channel, c: Core, open: bool, backpressured: bool, now: nat): Step
    requires ch.Serves(c)
  {
    if !ch.deferred then Step(ch, [], true) else
      var clocked := Clocked(ch.(deferred := false), now);
      if !clocked.ok then clocked else SendInputs(clocked.channel, c, open, backpressured, now, true, false)
  }

  lemma FlushedServes(ch: Channel, c: Core, open: bool, backpressured: bool, now: nat)
    requires ch.Serves(c)
    ensures var f := Flushed(ch, c, open, backpressured, now).channel;
      f.Serves(c) && f.latestCapture == ch.latestCapture
  {
    if ch.deferred {
      SendKeepsSession(Clocked(ch.(deferred := false), now).channel, c, open, backpressured, now, true, false);
    }
  }

  lemma SendKeepsSession(ch: Channel, c: Core, open: bool, backpressured: bool, now: nat, force: bool, defer: bool)
    requires ch.Serves(c)
    ensures var s := SendInputs(ch, c, open, backpressured, now, force, defer).channel;
      s.Serves(c) && s.latestCapture == ch.latestCapture && s.previous == ch.previous
  {
  }

  predicate Announces(ch: Channel, c: Core, capture: nat) {
    ch.active && HasCapture(c, capture) && (ch.latestCapture == NONE || ch.latestCapture <= capture)
  }

  /** Before a capture that is not the next one, what was postponed is sent. */
  function FlushedFor(ch: Channel, c: Core, capture: nat, open: bool, backpressured: bool, now: nat): (s: Step)
    requires ch.Serves(c)
    ensures s.channel.Serves(c) && s.channel.latestCapture == ch.latestCapture
  {
    FlushedServes(ch, c, open, backpressured, now);
    if ch.deferred && ch.latestCapture != capture && capture != ch.latestCapture + 1
    then Flushed(ch, c, open, backpressured, now)
    else Step(ch, [], true)
  }

  function Announced(ch: Channel, c: Core, capture: nat, open: bool, backpressured: bool, now: nat,
      earlier: seq<Outgoing>): Step
    requires ch.Serves(c) && HasCapture(c, capture) && capture < LIMIT
  {
    var sent := SendInputs(ch.(latestCapture := capture), c, open, backpressured, now, ch.latestCapture != capture,
        false);
    Step(sent.channel, earlier + sent.out, sent.ok)
  }

  /** A capture replaces a postponed send only when it is the next one. */
  function Noted(ch: Channel, c: Core, capture: nat, open: bool, backpressured: bool, now: nat): Step
    requires ch.Serves(c) && capture < LIMIT
  {
    if ch.failure != NoFailure then Step(ch, [], false)
    else if !Announces(ch, c, capture) then Step(Failed(ch, InvalidCapture), [], false)
    else if !Clocked(ch, now).ok then Clocked(ch, now)
    else
      var flushed := FlushedFor(Clocked(ch, now).channel, c, capture, open, backpressured, now);
      if !flushed.ok then flushed else Announced(flushed.channel, c, capture, open, backpressured, now, flushed.out)
  }

  // ---------------------------------------------------------------- a postponed send, from end to end

  /** The packets for one peer, on one lane, among everything handed to the transport. */
  function PacketsTo(out: seq<Outgoing>, p: nat, lane: Lane): seq<PacketData> {
    if out == [] then []
    else (if out[0].to == p && out[0].lane == lane then [out[0].packet] else []) + PacketsTo(out[1..], p, lane)
  }

  function OrdinaryTo(out: seq<Outgoing>, p: nat): seq<PacketData> { PacketsTo(out, p, Ordinary) }

  lemma {:induction false} PacketsToBoth(a: seq<Outgoing>, b: seq<Outgoing>, p: nat, lane: Lane)
    ensures PacketsTo(a + b, p, lane) == PacketsTo(a, p, lane) + PacketsTo(b, p, lane)
  {
    if a == [] {
      assert a + b == b;
    } else {
      assert (a + b)[1..] == a[1..] + b;
      PacketsToBoth(a[1..], b, p, lane);
    }
  }

  /** How long a peer's oldest unacknowledged input has been stalled: since its last repair or its frontier's last
      change, which may be now. */
  function Stalled(peer: Peer, frontier: int, now: nat): int {
    if frontier == peer.repairFrontier then now - peer.lastRepair else 0
  }

  /** Which lanes a peer's packet goes on: the ordinary one unless it is blocked, and the repair lane, blocked or
      not, when there is something to repair and it has been stalled for long enough. */
  predicate Goes(lane: Lane, peer: Peer, packet: PacketData, frontier: int, now: nat, backpressured: bool,
      interval: nat)
  {
    match lane
    case Ordinary => !backpressured
    case Repair => (packet.inputs != [] || peer.needsAck) && interval <= Stalled(peer, frontier, now)
  }

  /** What a turn leaves on record. */
  function TurnTaken(peer: Peer, packet: PacketData, frontier: int, now: nat, interval: nat): Peer {
    var again := frontier != peer.repairFrontier || Goes(Repair, peer, packet, frontier, now, false, interval);
    peer.(sent := Bump(peer.sent), repairFrontier := frontier, lastRepair := if again then now else peer.lastRepair)
  }

  lemma TurnGoes(ch: Channel, packet: PacketData, frontier: int, peer: nat, now: nat, backpressured: bool, p: nat,
      lane: Lane)
    requires peer < MAX_PLAYERS && SendOne(ch, packet, frontier, peer, now, backpressured).ok
    ensures var one, interval := SendOne(ch, packet, frontier, peer, now, backpressured), ch.policy.repairIntervalMs;
      && PacketsTo(one.out, p, lane)
         == (if p == peer && Goes(lane, ch.peers[peer], packet, frontier, now, backpressured, interval) then [packet]
             else [])
      && one.channel == ch.(peers := ch.peers[peer := TurnTaken(ch.peers[peer], packet, frontier, now, interval)])
  {
    var ordinary := if backpressured then [] else [Outgoing(peer, packet, Ordinary)];
    PacketsToOne(Outgoing(peer, packet, Ordinary), p, lane);
    PacketsToOne(Outgoing(peer, packet, Repair), p, lane);
    PacketsToBoth(ordinary, [Outgoing(peer, packet, Repair)], p, lane);
  }

  lemma PacketsToOne(o: Outgoing, p: nat, lane: Lane)
    ensures PacketsTo([o], p, lane) == if o.to == p && o.lane == lane then [o.packet] else []
  {
    assert [o][1..] == [];
  }

  /** A send to all peers hands the transport, for each and on each lane, at most one packet, its own, and leaves
      the turn on record. */
  lemma {:induction false} EachOnce(ch: Channel, packets: seq<PacketData>, acks: seq<int>, peer: nat, now: nat,
      backpressured: bool, p: nat, lane: Lane, all: Step)
    requires |packets| == |acks| == MAX_PLAYERS && peer <= ch.playerCount && p < MAX_PLAYERS
    requires all == SendFrom(ch, packets, acks, peer, now, backpressured) && all.ok
    ensures var turn, interval := peer <= p < ch.playerCount && p != ch.localPlayer, ch.policy.repairIntervalMs;
      && PacketsTo(all.out, p, lane)
         == (if turn && Goes(lane, ch.peers[p], packets[p], acks[p], now, backpressured, interval) then [packets[p]]
             else [])
      && all.channel.peers[p]
         == (if turn then TurnTaken(ch.peers[p], packets[p], acks[p], now, interval) else ch.peers[p])
    decreases ch.playerCount - peer
  {
    if peer < ch.playerCount {
      if peer == ch.localPlayer {
        EachOnce(ch, packets, acks, peer + 1, now, backpressured, p, lane, all);
      } else {
        var one, rest := FirstTurn(ch, packets, acks, peer, now, backpressured, p, lane, all);
        EachOnce(one.channel, packets, acks, peer + 1, now, backpressured, p, lane, rest);
        PacketsToBoth(one.out, rest.out, p, lane);
      }
    }
  }

  lemma FirstTurn(ch: Channel, packets: seq<PacketData>, acks: seq<int>, peer: nat, now: nat, backpressured: bool,
      p: nat, lane: Lane, all: Step)
      returns (one: Step, rest: Step)
    requires |packets| == |acks| == MAX_PLAYERS && peer < ch.playerCount && peer != ch.localPlayer && p < MAX_PLAYERS
    requires all == SendFrom(ch, packets, acks, peer, now, backpressured) && all.ok
    ensures var interval := ch.policy.repairIntervalMs;
      && one.channel
         == ch.(peers := ch.peers[peer := TurnTaken(ch.peers[peer], packets[peer], acks[peer], now, interval)])
      && PacketsTo(one.out, p, lane)
         == (if p == peer && Goes(lane, ch.peers[peer], packets[peer], acks[peer], now, backpressured, interval)
             then [packets[peer]] else [])
    ensures rest == SendFrom(one.channel, packets, acks, peer + 1, now, backpressured) && rest.ok
    ensures all.out == one.out + rest.out && all.channel == rest.channel
  {
    one := SendOne(ch, packets[peer], acks[peer], peer, now, backpressured);
    rest := SendFrom(one.channel, packets, acks, peer + 1, now, backpressured);
    TurnGoes(ch, packets[peer], acks[peer], peer, now, backpressured, p, lane);
  }

  lemma {:induction false} SendSucceeds(ch: Channel, packets: seq<PacketData>, acks: seq<int>, peer: nat, now: nat,
      backpressured: bool)
    requires |packets| == |acks| == MAX_PLAYERS && peer <= ch.playerCount
    requires forall p :: peer <= p < ch.playerCount && p != ch.localPlayer ==> Encodable(packets[p])
    ensures SendFrom(ch, packets, acks, peer, now, backpressured).ok
    decreases ch.playerCount - peer
  {
    if peer < ch.playerCount {
      if peer == ch.localPlayer {
        SendSucceeds(ch, packets, acks, peer + 1, now, backpressured);
      } else {
        var one := SendOne(ch, packets[peer], acks[peer], peer, now, backpressured);
        SendSucceeds(one.channel, packets, acks, peer + 1, now, backpressured);
      }
    }
  }

  /** The channels build the same packets: nothing that a packet is made of differs. */
  predicate SameSending(ch: Channel, ch': Channel) {
    && ch'.latestCapture == ch.latestCapture && ch'.localPlayer == ch.localPlayer && ch'.playerCount == ch.playerCount
    && ch'.sessionId == ch.sessionId
    && forall p :: 0 <= p < MAX_PLAYERS ==>
         ch'.peers[p].sent == ch.peers[p].sent && ch'.peers[p].received == ch.peers[p].received
         && ch'.peers[p].frame == ch.peers[p].frame
  }

  /** An actual send: one ordinary packet to every peer, the one that was owed. */
  lemma SendsWhatIsOwed(ch: Channel, owed: Channel, c: Core, now: nat, p: nat)
    requires ch.Serves(c) && owed.Serves(c) && ch.latestCapture != NONE && SameSending(ch, owed) && ch.active
      && p < MAX_PLAYERS
    requires SendInputs(ch, c, true, false, now, true, false).ok
    ensures OrdinaryTo(SendInputs(ch, c, true, false, now, true, false).out, p)
      == if p < ch.playerCount && p != ch.localPlayer then [PacketFor(owed, c, p)] else []
  {
    var sending := ch.(deferred := false);
    EachOnce(sending, PacketsFor(sending, c), c.peerAck, 0, now, false, p, Ordinary,
        SendFrom(sending, PacketsFor(sending, c), c.peerAck, 0, now, false));
    assert PacketFor(sending, c, p) == PacketFor(owed, c, p);
  }

  lemma WaitingOwes(ch: Channel, c: Core, now: nat)
    requires ch.Serves(c)
    ensures Waiting(ch, c, now).Serves(c) && SameSending(Waiting(ch, c, now), ch)
  {}

  /** Flushing a postponed send sends the packet that was postponed. */
  lemma FlushSendsPostponed(ch: Channel, c: Core, now: nat, now': nat, p: nat)
    requires ch.Serves(c) && ch.latestCapture != NONE && ch.active && p < MAX_PLAYERS
    requires Flushed(Waiting(ch, c, now), c, true, false, now').ok
    ensures OrdinaryTo(Flushed(Waiting(ch, c, now), c, true, false, now').out, p)
      == if p < ch.playerCount && p != ch.localPlayer then [PacketFor(ch, c, p)] else []
  {
    WaitingOwes(ch, c, now);
    SendsWhatIsOwed(Clocked(Waiting(ch, c, now).(deferred := false), now').channel, ch, c, now', p);
  }

  /** So does a capture that is not the next one, before anything else. */
  lemma JumpFlushes(d: Channel, c: Core, capture: nat, now: nat)
    requires d.Serves(c) && d.deferred && d.latestCapture != NONE && capture != d.latestCapture
      && capture != d.latestCapture + 1 && capture < LIMIT
    requires Noted(d, c, capture, true, false, now).ok
    ensures Flushed(d, c, true, false, now).ok
      && Flushed(d, c, true, false, now).out <= Noted(d, c, capture, true, false, now).out
  {
    assert Clocked(Clocked(d, now).channel.(deferred := false), now) == Clocked(d.(deferred := false), now);
  }

  /** What a send that is not postponed does to the channel and hands to a peer. */
  lemma SentNowGives(ch: Channel, c: Core, backpressured: bool, now: nat, p: nat, lane: Lane)
    requires ch.Serves(c) && ch.latestCapture != NONE && p < MAX_PLAYERS
    requires forall q: nat :: q < ch.playerCount && q != ch.localPlayer ==> Encodable(PacketFor(ch, c, q))
    ensures var s, interval := SentNow(ch, c, backpressured, now), ch.policy.repairIntervalMs;
      && s.ok && s.channel.nextInput == now + ch.policy.inputResendMs && s.channel.deferred == ch.deferred
      && PacketsTo(s.out, p, lane)
         == (if p < ch.playerCount && p != ch.localPlayer
                && Goes(lane, ch.peers[p], PacketFor(ch, c, p), c.peerAck[p], now, backpressured, interval)
             then [PacketFor(ch, c, p)] else [])
  {
    var packets := PacketsFor(ch, c);
    SendSucceeds(ch, packets, c.peerAck, 0, now, backpressured);
    EachOnce(ch, packets, c.peerAck, 0, now, backpressured, p, lane,
        SendFrom(ch, packets, c.peerAck, 0, now, backpressured));
  }

  /** The resend timer: an unforced send that is neither postponed nor owed sends again exactly when the interval
      since the last send is over, sets the next one, and hands each peer its own packet on each lane it goes on,
      once. Before that it does nothing. */
  lemma ResendsWhenDue(ch: Channel, c: Core, backpressured: bool, now: nat, defer: bool, p: nat, lane: Lane)
    requires ch.Serves(c) && ch.active && ch.latestCapture != NONE && !ch.deferred && p < MAX_PLAYERS
    requires !Postpones(ch, c, now, backpressured, defer)
    requires forall q: nat :: q < ch.playerCount && q != ch.localPlayer ==> Encodable(PacketFor(ch, c, q))
    ensures var s := SendInputs(ch, c, true, backpressured, now, false, defer);
      && s.ok && !s.channel.deferred
      && (ch.nextInput <= now ==> s.channel.nextInput == now + ch.policy.inputResendMs)
      && (now < ch.nextInput ==> s.channel == ch && s.out == [])
      && PacketsTo(s.out, p, lane)
         == (if ch.nextInput <= now && p < ch.playerCount && p != ch.localPlayer
                && Goes(lane, ch.peers[p], PacketFor(ch, c, p), c.peerAck[p], now, backpressured,
                        ch.policy.repairIntervalMs)
             then [PacketFor(ch, c, p)] else [])
  {
    assert ch.(deferred := false) == ch;
    SentNowGives(ch, c, backpressured, now, p, lane);
  }

  /** A send is postponed exactly when the title allows it and every peer can wait: the next capture pushes nothing
      unacknowledged out of its packet, and its repair is not due. So postponing holds back no repair. */
  lemma PostponedExactly(ch: Channel, c: Core, open: bool, backpressured: bool, now: nat, force: bool, defer: bool)
    requires ch.Serves(c)
    ensures var s := SendInputs(ch, c, open, backpressured, now, force, defer);
      (s.channel.deferred && !ch.deferred)
      == (&& ch.active && open && ch.latestCapture != NONE && !ch.deferred && (force || ch.nextInput <= now)
          && defer && !backpressured && !ch.policy.adonisPhase
          && forall q: nat :: q < ch.playerCount && q != ch.localPlayer ==>
               && Latest(ch, c) - c.peerAck[q] < MAX_WINDOW
               && (c.peerAck[q] == ch.peers[q].repairFrontier ==>
                     now - ch.peers[q].lastRepair < ch.policy.repairIntervalMs))
    ensures var s := SendInputs(ch, c, open, backpressured, now, force, defer);
      s.channel.deferred && !ch.deferred ==>
        && s.ok && s.out == [] && s.channel == ch.(deferred := true, peers := s.channel.peers)
        && forall q: nat :: q < MAX_PLAYERS ==> Noticed(ch, c, now, q, s.channel.peers[q])
  {
    if ch.latestCapture != NONE {
      assert SentNow(ch.(deferred := false), c, backpressured, now).channel.deferred == false;
      if ch.active && open && !ch.deferred && (force || ch.nextInput <= now) { WaitsExactly(ch, c, now); }
    }
  }

  /** A peer whose frontier has moved is noticed, so that its repair is due later. */
  predicate Noticed(ch: Channel, c: Core, now: nat, q: nat, after: Peer)
    requires q < MAX_PLAYERS
  {
    var moved := q < ch.playerCount && q != ch.localPlayer && c.peerAck[q] != ch.peers[q].repairFrontier;
    after == if moved then ch.peers[q].(repairFrontier := c.peerAck[q], lastRepair := now) else ch.peers[q]
  }

  lemma WaitsExactly(ch: Channel, c: Core, now: nat)
    requires ch.Serves(c) && ch.latestCapture != NONE
    ensures AllMayWait(ch, c, now) == forall q: nat :: q < ch.playerCount && q != ch.localPlayer ==>
               && Latest(ch, c) - c.peerAck[q] < MAX_WINDOW
               && (c.peerAck[q] == ch.peers[q].repairFrontier ==>
                     now - ch.peers[q].lastRepair < ch.policy.repairIntervalMs)
  {
    if AllMayWait(ch, c, now) {
      forall q: nat | q < ch.playerCount && q != ch.localPlayer
        ensures Latest(ch, c) - c.peerAck[q] < MAX_WINDOW
        ensures c.peerAck[q] == ch.peers[q].repairFrontier ==>
          now - ch.peers[q].lastRepair < ch.policy.repairIntervalMs
      {
        assert PeerMayWait(ch, c, q, now);
      }
    }
  }

  /** A capture notice that is refused: the session is not under way, the capture has no input, or it goes back; or
      the clock goes back. Nothing is sent and the channel has failed. */
  lemma NotedRefuses(ch: Channel, c: Core, capture: nat, open: bool, backpressured: bool, now: nat)
    requires ch.Serves(c) && capture < LIMIT && ch.failure == NoFailure
    requires !ch.active || !HasCapture(c, capture) || capture < ch.latestCapture
      || (ch.lastClock.Some? && now < ch.lastClock.value)
    ensures var s := Noted(ch, c, capture, open, backpressured, now);
      && !s.ok && s.out == []
      && s.channel == ch.(failure :=
           if !ch.active || !HasCapture(c, capture) || capture < ch.latestCapture then InvalidCapture
           else ClockReversed)
  {}

  /** A new capture is sent at once, whatever the timer says, and restarts it; a repeated one only when the timer
      is over. */
  lemma CaptureIsSent(ch: Channel, c: Core, capture: nat, backpressured: bool, now: nat, p: nat, lane: Lane)
    requires ch.Serves(c) && ch.failure == NoFailure && ch.active && !ch.deferred && p < MAX_PLAYERS
    requires HasCapture(c, capture) && ch.latestCapture <= capture < LIMIT
    requires ch.lastClock.Some? ==> ch.lastClock.value <= now
    requires var d := Notified(ch, capture, now);
      d.Serves(c) && forall q: nat :: q < ch.playerCount && q != ch.localPlayer ==>
      Encodable(PacketFor(d, c, q))
    ensures var s, d := Noted(ch, c, capture, true, backpressured, now), Notified(ch, capture, now);
      var due := ch.latestCapture < capture || ch.nextInput <= now;
      && s.ok && s.channel.latestCapture == capture && s.channel.lastClock == Some(now)
      && s.channel.nextInput == (if due then now + ch.policy.inputResendMs else ch.nextInput)
      && PacketsTo(s.out, p, lane)
         == (if due && p < ch.playerCount && p != ch.localPlayer
                && Goes(lane, ch.peers[p], PacketFor(d, c, p), c.peerAck[p], now, backpressured,
                        ch.policy.repairIntervalMs)
             then [PacketFor(d, c, p)] else [])
  {
    var d := Notified(ch, capture, now);
    assert d.(deferred := false) == d;
    SentNowGives(d, c, backpressured, now, p, lane);
    var sent := SendInputs(d, c, true, backpressured, now, ch.latestCapture != capture, false);
    assert [] + sent.out == sent.out;
  }

  /** A flush with the clock going back fails and sends nothing; without a postponed send it does nothing. */
  lemma FlushRefuses(ch: Channel, c: Core, open: bool, backpressured: bool, now: nat)
    requires ch.Serves(c)
    ensures !ch.deferred ==> Flushed(ch, c, open, backpressured, now) == Step(ch, [], true)
    ensures ch.deferred && ch.lastClock.Some? && now < ch.lastClock.value ==>
      Flushed(ch, c, open, backpressured, now) == Step(Failed(ch.(deferred := false), ClockReversed), [], false)
  {}

  /** The channel of a peer whose newest capture it has announced. */
  ghost predicate Current(w: World, i: nat, ch: Channel)
    requires i < |w.nodes|
  {
    && ch.Serves(w.nodes[i].core) && ch.active && ch.failure == NoFailure && 0 <= ch.latestCapture < LIMIT - 1
    && LocalFrameForCapture(w.nodes[i].core, ch.latestCapture) == w.nodes[i].core.Local().confirmed
  }

  /** The facts about one peer that let its packet wait for the next capture. */
  lemma WaitIsSafe(w: World, i: nat, ch: Channel, now: nat, p: nat)
    requires WorldOk(w) && i < |w.nodes| && Current(w, i, ch) && AllMayWait(ch, w.nodes[i].core, now)
    requires p < ch.playerCount && p != ch.localPlayer
    ensures NodeOk(w.nodes[i]) && MayWait(w.nodes[i].core, ch, p)
  {
    assert Member(w.nodes[i], i, |w.nodes|, w.nodes[0].core.config.sessionId);
    HeldIsOwn(w, i, p);
    assert PeerMayWait(ch, w.nodes[i].core, p, now);
  }

  /** Only the sender's frame and advantage are added to what the core builds. */
  lemma PacketIsBuilt(ch: Channel, c: Core, peer: nat, latest: nat, s: nat, a: nat, built: PacketData, p: PacketData)
    requires ch.Serves(c) && ch.latestCapture != NONE && peer < MAX_PLAYERS && latest == Latest(ch, c)
    requires s == Bump(ch.peers[peer].sent) && a == ch.peers[peer].received
    requires built == Built(c, peer, latest, s, a) && p == PacketFor(ch, c, peer)
    ensures p == built.(senderFrame := p.senderFrame, frameAdvantage := p.frameAdvantage)
  {}

  lemma FramedReplaces(sent: PacketData, postponed: PacketData, input: FrameInput, sent': PacketData,
      postponed': PacketData)
    requires Replaces(sent, postponed, input)
    requires sent' == sent.(senderFrame := sent'.senderFrame, frameAdvantage := sent'.frameAdvantage)
    requires postponed' ==
      postponed.(senderFrame := postponed'.senderFrame, frameAdvantage := postponed'.frameAdvantage)
    ensures Replaces(sent', postponed', input)
  {
    assert Folded(ReplaceMark, 0);
  }

  /** A capture leaves the postponed inputs where they are. */
  predicate MayWait(c: Core, ch: Channel, p: nat) {
    && ch.Serves(c) && 0 <= ch.latestCapture < LIMIT - 1 && c.Remote(p) && 0 <= c.Local().confirmed
    && LocalFrameForCapture(c, ch.latestCapture) == c.Local().confirmed
    && NONE <= c.peerAck[p] <= c.Local().confirmed
    && Outstanding(c.Local().confirmed, c.peerAck[p]) < MAX_WINDOW
  }

  lemma SentIsBuilt(ch: Channel, ch': Channel, c: Core, p: nat, latest: nat, s: nat, a: nat, built: PacketData,
      sent: PacketData)
    requires 0 <= ch.latestCapture < LIMIT - 1 && ch'.Serves(c) && p < MAX_PLAYERS && latest < LIMIT
    requires SameSending(ch.(latestCapture := ch.latestCapture + 1), ch')
    requires LocalFrameForCapture(c, ch.latestCapture + 1) == latest
    requires s == Bump(ch.peers[p].sent) && a == ch.peers[p].received
    requires built == Built(c, p, latest, s, a) && sent == PacketFor(ch', c, p)
    ensures sent == built.(senderFrame := sent.senderFrame, frameAdvantage := sent.frameAdvantage)
  {
    PacketIsBuilt(ch', c, p, latest, s, a, built, sent);
  }

  /** The two packets as the core builds them. */
  lemma BuiltReplaces(c: Core, c': Core, ch: Channel, input: FrameInput, p: nat, latest: nat, s: nat, a: nat)
      returns (postponed: PacketData, sent: PacketData)
    requires Followed(c, c', input) && MayWait(c, ch, p) && latest == c.Local().confirmed < LIMIT - 1
    ensures postponed == Built(c, p, latest, s, a) && sent == Built(c', p, latest + 1, s, a)
    ensures Replaces(sent, postponed, input)
  {
    postponed, sent := Built(c, p, latest, s, a), Built(c', p, latest + 1, s, a);
    DeferralLosesNothing(c, c', input, p, latest, s, a, postponed, sent);
  }

  /** The same of the packets as the session frames them. */
  lemma FramedPair(c: Core, c': Core, ch: Channel, ch': Channel, input: FrameInput, p: nat, latest: nat, s: nat,
      a: nat, postponed: PacketData, sent: PacketData, postponed': PacketData, sent': PacketData)
    requires ch.Serves(c) && ch'.Serves(c') && p < MAX_PLAYERS && 0 <= ch.latestCapture < LIMIT - 1
    requires LocalFrameForCapture(c, ch.latestCapture) == latest < LIMIT - 1
      && LocalFrameForCapture(c', ch.latestCapture + 1) == latest + 1
    requires SameSending(ch.(latestCapture := ch.latestCapture + 1), ch')
    requires s == Bump(ch.peers[p].sent) && a == ch.peers[p].received
    requires postponed == Built(c, p, latest, s, a) && sent == Built(c', p, latest + 1, s, a)
    requires postponed' == PacketFor(ch, c, p) && sent' == PacketFor(ch', c', p) && Replaces(sent, postponed, input)
    ensures Replaces(sent', postponed', input)
  {
    PacketIsBuilt(ch, c, p, latest, s, a, postponed, postponed');
    SentIsBuilt(ch, ch', c', p, latest + 1, s, a, sent, sent');
    FramedReplaces(sent, postponed, input, sent', postponed');
  }

  lemma PacketReplaces(c: Core, c': Core, ch: Channel, ch': Channel, input: FrameInput, p: nat,
      postponed: PacketData, sent: PacketData)
    requires Followed(c, c', input) && MayWait(c, ch, p) && ch'.Serves(c')
    requires LocalFrameForCapture(c', ch.latestCapture + 1) == c.Local().confirmed + 1 < LIMIT
    requires SameSending(ch.(latestCapture := ch.latestCapture + 1), ch')
    requires postponed == PacketFor(ch, c, p) && sent == PacketFor(ch', c', p)
    ensures Replaces(sent, postponed, input)
  {
    var s, a, latest: nat := Bump(ch.peers[p].sent), ch.peers[p].received, c.Local().confirmed;
    var postponed', sent' := BuiltReplaces(c, c', ch, input, p, latest, s, a);
    FramedPair(c, c', ch, ch', input, p, latest, s, a, postponed', sent', postponed, sent);
  }

  /** What an honest peer would send now can be encoded. */
  lemma PostponedEncodes(w: World, i: nat, ch: Channel, p: nat)
    requires WorldOk(w) && i < |w.nodes| && Current(w, i, ch) && p < ch.playerCount && p != ch.localPlayer
    ensures Encodable(PacketFor(ch, w.nodes[i].core, p))
  {
    var n := w.nodes[i];
    assert Member(n, i, |w.nodes|, w.nodes[0].core.config.sessionId);
    HeldIsOwn(w, i, p);
    SendIsHonest(w, i, p, n.core.Local().confirmed, Bump(ch.peers[p].sent), ch.peers[p].received);
    HonestEncodes(w,
        Letter(p, Built(n.core, p, n.core.Local().confirmed, Bump(ch.peers[p].sent), ch.peers[p].received)));
  }

  /** A lost packet is sent again: in every reachable state the resend timer of an honest peer hands every other
      peer, on the ordinary lane, its newest packet each time the interval is over. */
  lemma LostIsResent(w: World, i: nat, ch: Channel, now: nat, p: nat)
    requires WorldOk(w) && i < |w.nodes| && Current(w, i, ch) && !ch.deferred && p < ch.playerCount
      && p != ch.localPlayer
    ensures var s := SendInputs(ch, w.nodes[i].core, true, false, now, false, false);
      && s.ok && OrdinaryTo(s.out, p) == (if ch.nextInput <= now then [PacketFor(ch, w.nodes[i].core, p)] else [])
  {
    forall q: nat | q < ch.playerCount && q != ch.localPlayer ensures Encodable(PacketFor(ch, w.nodes[i].core, q)) {
      PostponedEncodes(w, i, ch, q);
    }
    ResendsWhenDue(ch, w.nodes[i].core, false, now, false, p, Ordinary);
  }

  lemma HonestEncodes(w: World, l: Letter)
    requires WorldOk(w) && LetterOk(w, l)
    ensures Encodable(l.packet)
  {
    var p, log := l.packet, w.nodes[l.packet.senderPlayer].logs[l.packet.senderPlayer];
    forall k | 0 <= k < |p.inputs| ensures p.inputs[k].Valid() {
      assert p.firstInputFrame + k in log && log[p.firstInputFrame + k] == p.inputs[k];
    }
  }

  lemma ReplacesEncodes(sent: PacketData, postponed: PacketData, input: FrameInput)
    requires Replaces(sent, postponed, input) && Encodable(postponed) && input.Valid()
    ensures Encodable(sent)
  {
    assert Folded(ReplaceMark, 0);
  }

  /** The channel that a capture notice reaches, ready to send. */
  function Notified(d: Channel, capture: nat, now: nat): Channel
    requires capture < LIMIT
  {
    d.(lastClock := Some(now), latestCapture := capture)
  }

  lemma NotifiedOwes(ch: Channel, c: Core, now: nat, capture: nat, now': nat)
    requires ch.Serves(c) && capture < LIMIT
    ensures SameSending(ch.(latestCapture := capture), Notified(Waiting(ch, c, now), capture, now'))
  {}

  /** The notice of the next capture sends at once. */
  lemma NextIsAnnounced(d: Channel, c: Core, capture: nat, now: nat)
    requires d.Serves(c) && d.active && d.failure == NoFailure && d.deferred && d.latestCapture + 1 == capture < LIMIT
    requires HasCapture(c, capture) && (d.lastClock.Some? ==> d.lastClock.value <= now)
    ensures Notified(d, capture, now).Serves(c)
    ensures Noted(d, c, capture, true, false, now) ==
      SendInputs(Notified(d, capture, now), c, true, false, now, true, false)
  {
    var sent := SendInputs(Notified(d, capture, now), c, true, false, now, true, false);
    assert [] + sent.out == sent.out;
  }

  lemma CaptureIsHeld(n: Node, capture: nat, input: FrameInput)
    requires NodeOk(n) && MayCapture(n, capture + 1) && LocalFrameForCapture(n.core, capture + 1) != NONE
    requires LocalFrameForCapture(n.core, capture) == n.core.Local().confirmed && 0 <= n.core.Local().confirmed
    ensures var c := Captured(n, capture + 1, input).core;
      && HasCapture(c, capture + 1) && LocalFrameForCapture(c, capture + 1) == n.core.Local().confirmed + 1 < LIMIT
      && c.config == n.core.config && c.configured
  {
    Unfolded(n);
    CaptureFollows(n, Captured(n, capture + 1, input), capture, input);
    assert Folded(CaptureMark, 0);
  }

  /** A send that makes up for the one postponed at `c`: it succeeds, and hands peer `p` exactly one ordinary
      packet, which replaces the postponed one. */
  ghost predicate TakesOver(s: Step, ch: Channel, c: Core, input: FrameInput, p: nat)
    requires ch.Serves(c) && ch.latestCapture != NONE && p < MAX_PLAYERS
  {
    forall u: int :: Folded(TakesMark, u) ==>
      && s.ok && !s.channel.deferred
      && if p < ch.playerCount && p != ch.localPlayer then
           |OrdinaryTo(s.out, p)| == 1 && Replaces(OrdinaryTo(s.out, p)[0], PacketFor(ch, c, p), input)
         else OrdinaryTo(s.out, p) == []
  }

  /** Every peer's packet can wait for the next capture, and could be encoded now. */
  ghost predicate AllReady(c: Core, ch: Channel)
    requires ch.Serves(c) && ch.latestCapture != NONE
  {
    forall u: int :: Folded(WaitMark, u) ==>
      && ch.active && ch.failure == NoFailure && 0 <= ch.latestCapture < LIMIT - 1 && 0 <= c.Local().confirmed
      && LocalFrameForCapture(c, ch.latestCapture) == c.Local().confirmed
      && forall q: nat :: q < ch.playerCount && q != ch.localPlayer ==>
           MayWait(c, ch, q) && Encodable(PacketFor(ch, c, q))
  }

  lemma WaitIsReady(w: World, i: nat, ch: Channel, now: nat)
    requires WorldOk(w) && i < |w.nodes| && Current(w, i, ch) && AllMayWait(ch, w.nodes[i].core, now)
    ensures NodeOk(w.nodes[i]) && AllReady(w.nodes[i].core, ch)
  {
    var c := w.nodes[i].core;
    assert Member(w.nodes[i], i, |w.nodes|, w.nodes[0].core.config.sessionId);
    forall q: nat | q < ch.playerCount && q != ch.localPlayer
      ensures MayWait(c, ch, q) && Encodable(PacketFor(ch, c, q))
    {
      WaitIsSafe(w, i, ch, now, q);
      PostponedEncodes(w, i, ch, q);
    }
  }

  /** The core after the capture, seen from the one at which the send was postponed. */
  lemma CaptureSince(n: Node, steps: seq<CoreRun.Step>, n': Node, capture: nat, input: FrameInput) returns (c: Core)
    requires NodeOk(n) && Resimulates(n, steps, n') && 0 <= n.core.Local().confirmed
    requires LocalFrameForCapture(n.core, capture) == n.core.Local().confirmed
    requires MayCapture(n', capture + 1) && LocalFrameForCapture(n'.core, capture + 1) != NONE
    ensures c == Captured(n', capture + 1, input).core && c.config == n.core.config && c.configured
    ensures Followed(n.core, c, input) && HasCapture(c, capture + 1)
    ensures LocalFrameForCapture(c, capture + 1) == n.core.Local().confirmed + 1 < LIMIT
  {
    c := Captured(n', capture + 1, input).core;
    ResimulateKeeps(n, steps, n');
    CaptureIsHeld(n', capture, input);
    CaptureFollows(n', Captured(n', capture + 1, input), capture, input);
    FollowedSince(n.core, n'.core, c, input);
  }

  lemma DeferredSince(n: Node, ch: Channel, now: nat, steps: seq<CoreRun.Step>, n': Node, now': nat,
      input: FrameInput, p: nat, capture: nat, d: Channel, m: Core)
    requires NodeOk(n) && Resimulates(n, steps, n') && p < MAX_PLAYERS && input.Valid()
    requires ch.Serves(n.core) && capture == ch.latestCapture && capture + 1 < LIMIT && AllReady(n.core, ch)
    requires ch.lastClock.Some? ==> ch.lastClock.value <= now'
    requires MayCapture(n', capture + 1) && LocalFrameForCapture(n'.core, capture + 1) != NONE
    requires d == Waiting(ch, n.core, now) && m == Captured(n', capture + 1, input).core
    ensures d.Serves(m) && d.deferred && TakesOver(Noted(d, m, capture + 1, true, false, now'), ch, n.core, input, p)
  {
    assert Folded(WaitMark, 0);
    var c := CaptureSince(n, steps, n', capture, input);
    DeferredSend(n.core, c, ch, now, now', input, p, capture);
  }

  /** A deferred send loses nothing: when a send is postponed and, after any rewinding and simulating, the next
      capture is announced, every peer is handed exactly one ordinary packet, which carries the inputs of the
      postponed one and the new one behind them, acknowledges as much, and has the number the postponed one would
      have had; nothing stays postponed. */
  lemma DeferredSendLosesNothing(w: World, i: nat, ch: Channel, now: nat, steps: seq<CoreRun.Step>, n': Node,
      now': nat, input: FrameInput, p: nat, d: Channel, m: Core)
    requires WorldOk(w) && i < |w.nodes| && Current(w, i, ch) && p < MAX_PLAYERS && input.Valid()
    requires Postpones(ch, w.nodes[i].core, now, false, true) && (ch.lastClock.Some? ==> ch.lastClock.value <= now')
    requires Resimulates(w.nodes[i], steps, n')
    requires MayCapture(n', ch.latestCapture + 1) && LocalFrameForCapture(n'.core, ch.latestCapture + 1) != NONE
    requires d == Waiting(ch, w.nodes[i].core, now) && m == Captured(n', ch.latestCapture + 1, input).core
    ensures d.Serves(m) && d.deferred
    ensures TakesOver(Noted(d, m, ch.latestCapture + 1, true, false, now'), ch, w.nodes[i].core, input, p)
  {
    WaitIsReady(w, i, ch, now);
    DeferredSince(w.nodes[i], ch, now, steps, n', now', input, p, ch.latestCapture, d, m);
  }

  lemma DeferredSend(c: Core, c': Core, ch: Channel, now: nat, now': nat, input: FrameInput, p: nat, capture: nat)
    requires ch.Serves(c) && capture == ch.latestCapture && capture + 1 < LIMIT
    requires AllReady(c, ch) && p < MAX_PLAYERS && input.Valid() && (ch.lastClock.Some? ==> ch.lastClock.value <= now')
    requires Followed(c, c', input) && HasCapture(c', capture + 1) && c'.config == c.config && c'.configured
    requires LocalFrameForCapture(c', capture + 1) == c.Local().confirmed + 1 < LIMIT
    ensures var d := Waiting(ch, c, now);
      d.Serves(c') && d.deferred && TakesOver(Noted(d, c', capture + 1, true, false, now'), ch, c, input, p)
  {
    assert Folded(WaitMark, 0);
    var d := Waiting(ch, c, now);
    var ready := Notified(d, capture + 1, now');
    NotifiedOwes(ch, c, now, capture + 1, now');
    NextIsAnnounced(d, c', capture + 1, now');
    ReplacingSend(c, c', ch, ready, now', input, p, Noted(d, c', capture + 1, true, false, now'));
  }

  lemma ReplacingSend(c: Core, c': Core, ch: Channel, d: Channel, now': nat, input: FrameInput, p: nat, s: Step)
    requires ch.Serves(c) && 0 <= ch.latestCapture < LIMIT - 1 && p < MAX_PLAYERS && input.Valid() && AllReady(c, ch)
    requires Followed(c, c', input) && LocalFrameForCapture(c', ch.latestCapture + 1) == c.Local().confirmed + 1 < LIMIT
    requires d.Serves(c') && SameSending(ch.(latestCapture := ch.latestCapture + 1), d) && d.active && d.deferred
    requires s == SendInputs(d, c', true, false, now', true, false)
    ensures TakesOver(s, ch, c, input, p)
  {
    var sending := d.(deferred := false);
    assert Folded(WaitMark, 0);
    forall q | 0 <= q < ch.playerCount && q != ch.localPlayer ensures Encodable(PacketsFor(sending, c')[q]) {
      var postponed, sent := PacketFor(ch, c, q), PacketFor(sending, c', q);
      PacketReplaces(c, c', ch, sending, input, q, postponed, sent);
      ReplacesEncodes(sent, postponed, input);
    }
    SendSucceeds(sending, PacketsFor(sending, c'), c'.peerAck, 0, now', false);
    SendsWhatIsOwed(d, sending, c', now', p);
    if p < ch.playerCount && p != ch.localPlayer {
      PacketReplaces(c, c', ch, sending, input, p, PacketFor(ch, c, p), PacketFor(sending, c', p));
    }
  }

  // ---------------------------------------------------------------- retirement

  predicate Retires(ch: Channel, c: Core, terminal: nat) {
    ch.active && ch.failure == NoFailure && CanRetire(c, terminal)
  }

  function Cached(ch: Channel, c: Core, terminal: nat): Channel
    requires ch.Serves(c) && terminal < LIMIT
  {
    ch.(peers := seq(MAX_PLAYERS, p requires 0 <= p < MAX_PLAYERS =>
          if p < ch.playerCount && p != ch.localPlayer then ch.peers[p].(sent := Bump(ch.peers[p].sent))
          else ch.peers[p]),
        previous := Previous(ch.sessionId, ch.playerCount, ch.localPlayer,
          seq(MAX_PLAYERS, p requires 0 <= p < MAX_PLAYERS => p < ch.playerCount && p != ch.localPlayer),
          seq(MAX_PLAYERS, p requires 0 <= p < MAX_PLAYERS =>
            if p < ch.playerCount && p != ch.localPlayer
            then TerminalAck(c, terminal, Bump(ch.peers[p].sent), ch.peers[p].received) else ch.previous.acks[p]),
          ch.previous.nextSend))
  }

  function AnswersFrom(previous: Previous, peer: nat): seq<Outgoing>
    requires |previous.needed| == |previous.acks| == MAX_PLAYERS && peer <= previous.count <= MAX_PLAYERS
    decreases previous.count - peer
  {
    if peer == previous.count then []
    else (if peer != previous.local && previous.needed[peer] then [Outgoing(peer, previous.acks[peer], Repair)] else [])
         + AnswersFrom(previous, peer + 1)
  }

  function SentRetired(ch: Channel, open: bool, now: nat): Step {
    if ch.previous.session == 0 then Step(ch, [], true)
    else if forall p :: 0 <= p < MAX_PLAYERS ==> !ch.previous.needed[p] then
      Step(ch.(previous := ch.previous.(session := 0, acks := NO_ACKS)), [], true)
    else if now < ch.previous.nextSend || !open then Step(ch, [], true)
    else
      var answers := AnswersFrom(ch.previous, 0);
      var kept := if answers == [] then ch.previous.(session := 0, acks := NO_ACKS) else ch.previous;
      Step(ch.(previous := kept.(nextSend := now + ch.policy.inputResendMs)), answers, true)
  }

  function Retired(ch: Channel, c: Core, terminal: nat, open: bool, now: nat): Step
    requires ch.Serves(c) && terminal < LIMIT
  {
    if !Retires(ch, c, terminal) then Step(ch, [], false) else
      var clocked := Clocked(ch, now);
      if !clocked.ok then clocked
      else if ch.previous.session != 0 then Step(Failed(clocked.channel, InvalidRetirement), [], false)
      else
        var cached := Cached(clocked.channel, c, terminal);
        SentRetired(cached.(active := false, deferred := false, previous := cached.previous.(nextSend := now)), open,
            now)
  }

  /** A peer that has begun the next session needs no more answers. */
  function MovedOn(ch: Channel, peer: nat): Channel
    requires peer < MAX_PLAYERS
  {
    if ch.previous.session != 0 then ch.(previous := ch.previous.(needed := ch.previous.needed[peer := false])) else ch
  }

  lemma {:induction false} AnswersEach(previous: Previous, peer: nat, p: nat)
    requires |previous.needed| == |previous.acks| == MAX_PLAYERS && peer <= p < previous.count <= MAX_PLAYERS
    requires p != previous.local && previous.needed[p]
    ensures Outgoing(p, previous.acks[p], Repair) in AnswersFrom(previous, peer)
    decreases previous.count - peer
  {
    if peer < p { AnswersEach(previous, peer + 1, p); }
  }

  /** Retiring caches, for every peer, the terminal acknowledgement; it is sent at once and again at every
      due send until that peer has begun the next session. */
  lemma RetiredAnswers(ch: Channel, c: Core, terminal: nat, now: nat, p: nat)
    requires ch.Serves(c) && terminal < LIMIT && Retired(ch, c, terminal, true, now).ok && ch.sessionId != 0
    requires p < ch.playerCount && p != ch.localPlayer
    ensures var r := Retired(ch, c, terminal, true, now);
      && CanRetire(c, terminal) && !r.channel.active && r.channel.previous.needed[p]
      && r.channel.previous.acks[p] == TerminalAck(c, terminal, Bump(ch.peers[p].sent), ch.peers[p].received)
      && Outgoing(p, r.channel.previous.acks[p], Repair) in r.out
  {
    var cached := Cached(ch.(lastClock := Some(now)), c, terminal);
    var ready := cached.(active := false, deferred := false, previous := cached.previous.(nextSend := now));
    AnswersEach(ready.previous, 0, p);
  }

  /** A session is retired exactly when it is under way, the core may retire, the clock does not go back, and no
      earlier session is still being answered. */
  lemma RetiresExactly(ch: Channel, c: Core, terminal: nat, open: bool, now: nat)
    requires ch.Serves(c) && terminal < LIMIT
    ensures Retired(ch, c, terminal, open, now).ok
      == (&& ch.active && ch.failure == NoFailure && CanRetire(c, terminal)
          && (ch.lastClock.Some? ==> ch.lastClock.value <= now) && ch.previous.session == 0)
    ensures !Retired(ch, c, terminal, open, now).ok ==> Retired(ch, c, terminal, open, now).out == []
  {}

  /** Once no peer needs an answer, the next sending forgets the retired session and sends nothing. */
  lemma AnswersEnd(ch: Channel, open: bool, now: nat)
    requires forall p :: 0 <= p < MAX_PLAYERS ==> !ch.previous.needed[p]
    ensures var s := SentRetired(ch, open, now);
      s.ok && s.out == [] && s.channel.previous.session == 0
  {}

  /** Nothing is repeated before it is due or while the transport is closed, and nothing to a peer that has moved
      on. */
  lemma AnswersWait(ch: Channel, open: bool, now: nat, o: Outgoing)
    requires o in SentRetired(ch, open, now).out
    ensures ch.previous.session != 0 && open && ch.previous.nextSend <= now
    ensures o.to < ch.previous.count && o.to != ch.previous.local && ch.previous.needed[o.to]
    ensures o.packet == ch.previous.acks[o.to] && o.lane == Repair
  {
    AnswersOnly(ch.previous, 0, o);
  }

  lemma {:induction false} AnswersOnly(previous: Previous, peer: nat, o: Outgoing)
    requires |previous.needed| == |previous.acks| == MAX_PLAYERS && peer <= previous.count <= MAX_PLAYERS
    requires o in AnswersFrom(previous, peer)
    ensures o.to < previous.count && o.to != previous.local && previous.needed[o.to]
    ensures o.packet == previous.acks[o.to] && o.lane == Repair
    decreases previous.count - peer
  {
    if !(peer != previous.local && previous.needed[peer] && o == Outgoing(peer, previous.acks[peer], Repair)) {
      AnswersOnly(previous, peer + 1, o);
    }
  }

  /** The cached answers do not change, and every due send repeats them to each peer still in need. */
  lemma KeepsAnswering(ch: Channel, now: nat, p: nat)
    requires ch.previous.session != 0 && p < ch.previous.count && p != ch.previous.local && ch.previous.needed[p]
    requires ch.previous.nextSend <= now
    ensures var s := SentRetired(ch, true, now);
      && Outgoing(p, ch.previous.acks[p], Repair) in s.out
      && s.channel.previous == ch.previous.(nextSend := now + ch.policy.inputResendMs)
  {
    AnswersEach(ch.previous, 0, p);
  }
}
