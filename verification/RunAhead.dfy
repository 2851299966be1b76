/** A second finding about the packet guard, with a run that reaches it. Two honest peers may run 127 frames
    ahead, with a delay of one. Every packet arrives at once and once, but one peer stops simulating after frame
    125. The other goes on as far as it may, and its frame 256 is refused: its slot still holds frame 0, which
    the stopped peer could yet roll back to. */
module RunAhead {
  import opened InputLane
  import opened CoreState
  import opened CoreRun
  import opened PeerProtocol
  import opened HonestRun

  const LIMIT_AHEAD: nat := 127

  function ConfigOf(i: nat): CoreConfig { CoreConfig(1, 2, i, 1, LIMIT_AHEAD, 0, 0, 0, 0, false, true) }

  function First(): World { World([Started(ConfigOf(0)), Started(ConfigOf(1))], {}) }

  /** The peer that moves: it has simulated the frames before `r` and scheduled its own through `own`. It knows
      the other's through `other`, and was never acknowledged. */
  ghost predicate Moves(n: Node, i: nat, r: nat, own: nat, other: int) {
    && i < 2 && n.core.configured && n.core.config == ConfigOf(i) && n.core.last == r - 1 && n.core.rollback == NONE
    && n.core.lanes[i].confirmed == own && n.core.lanes[1 - i].confirmed == other && n.core.peerAck[1 - i] == NONE
  }

  /** The peer that only listens, and knows the other's input through `heard`. */
  ghost predicate Listens(n: Node, j: nat, last: int, mine: nat, heard: int) {
    && j < 2 && n.core.configured && n.core.config == ConfigOf(j) && n.core.last == last
    && n.core.lanes[j].confirmed == mine && n.core.lanes[1 - j].confirmed == heard
  }

  ghost predicate Going(w: World, i: nat, r: nat, own: nat, other: int, last: int, mine: nat, heard: int) {
    && WorldOk(w) && |w.nodes| == 2 && i < 2
    && Moves(w.nodes[i], i, r, own, other) && Listens(w.nodes[1 - i], 1 - i, last, mine, heard)
  }

  /** What is heard of a peer that has moved `r` times. */
  function Heard(r: nat): int { if r == 0 then NONE else r }

  lemma StartsGoing()
    ensures Initial(First()) && Going(First(), 1, 0, 0, NONE, NONE, 0, NONE)
  {
    var w := First();
    assert Member(w.nodes[0], 0, 2, 1) && Member(w.nodes[1], 1, 2, 1);
    InitialOk(w);
    LeadInLane(1);
  }

  // ---------------------------------------------------------------- one move

  lemma Captures(w: World, i: nat, r: nat, other: int, last: int, mine: nat, heard: int)
    requires Going(w, i, r, r, other, last, mine, heard) && r < RING
    ensures Enabled(w, Drive(i, Capture(r, NEUTRAL)))
    ensures Going(Next(w, Drive(i, Capture(r, NEUTRAL))), i, r, r + 1, other, last, mine, heard)
  {
    NextKeeps(w, Drive(i, Capture(r, NEUTRAL)));
    CaptureNext(w.nodes[i], r, NEUTRAL);
    DriveView(w.nodes[i], Capture(r, NEUTRAL), 1 - i);
  }

  lemma NextPacket(n: Node, i: nat, r: nat, other: int, p: InputPacket)
    requires NodeOk(n) && Moves(n, i, r, r + 1, other) && r < RING && p == Built(n.core, 1 - i, r + 1, 0, 0)
    ensures p.senderPlayer == i && Window(p, r)
  {
    NewestPacket(n, 1 - i, r + 1, 0, 0);
  }

  /** The newest 32 frames through the one scheduled for capture `r`. */
  predicate Window(p: InputPacket, r: nat) {
    && p.inputs != [] && p.latestFrame == r + 1
    && p.firstInputFrame == if r + 2 > MAX_WINDOW then r + 2 - MAX_WINDOW else 0
  }

  lemma SendAdds(w: World, i: nat, latest: nat) returns (l: Letter, w': World)
    requires WorldOk(w) && |w.nodes| == 2 && i < 2 && latest < LIMIT && latest <= w.nodes[i].core.Local().confirmed
    ensures l == Letter(1 - i, Built(w.nodes[i].core, 1 - i, latest, 0, 0)) && w' == w.(soup := w.soup + {l})
    ensures Enabled(w, Send(i, 1 - i, latest, 0, 0)) && Next(w, Send(i, 1 - i, latest, 0, 0)) == w' && WorldOk(w')
  {
    NextKeeps(w, Send(i, 1 - i, latest, 0, 0));
    l := Letter(1 - i, Built(w.nodes[i].core, 1 - i, latest, 0, 0));
    w' := w.(soup := w.soup + {l});
  }

  lemma Sends(w: World, i: nat, r: nat, other: int, last: int, mine: nat, heard: int) returns (l: Letter, w': World)
    requires Going(w, i, r, r + 1, other, last, mine, heard) && r < RING
    ensures Enabled(w, Send(i, 1 - i, r + 1, 0, 0)) && Next(w, Send(i, 1 - i, r + 1, 0, 0)) == w'
    ensures Going(w', i, r, r + 1, other, last, mine, heard)
    ensures l in w'.soup && l.to == 1 - i && l.packet.senderPlayer == i && Window(l.packet, r)
  {
    l, w' := SendAdds(w, i, r + 1);
    NextPacket(w.nodes[i], i, r, other, l.packet);
  }

  /** No frame before the ring comes round collides. */
  lemma EarlyIsFree(w: World, i: nat, f: nat)
    requires WorldOk(w) && |w.nodes| == 2 && i < 2 && w.nodes[i].core.Local().confirmed < RING && f < RING
    ensures !Collides(w.nodes[1 - i].core, i, f)
  {
    var n := w.nodes[1 - i];
    assert Member(w.nodes[i], i, 2, w.nodes[0].core.config.sessionId);
    assert Member(n, 1 - i, 2, w.nodes[0].core.config.sessionId);
    assert LinkOk(w, 1 - i, i);
    OwnLead(w.nodes[i], 1 - i);
    Unfolded(n);
    LaneHeld(n, i);
    assert SlotOk(n.core.lanes[i].ring[f % RING], f % RING, n.logs[i]);
  }

  lemma IsAccepted(w: World, l: Letter, i: nat, r: nat)
    requires WorldOk(w) && |w.nodes| == 2 && i < 2 && w.nodes[i].core.Local().confirmed == r + 1 < RING
    requires l in w.soup && l.to == 1 - i && l.packet.senderPlayer == i && Window(l.packet, r)
    ensures Apply(w.nodes[1 - i].core, l.packet).ok && LetterOk(w, l)
  {
    var n, p := w.nodes[1 - i], l.packet;
    assert LetterOk(w, l);
    HonestDelivery(w, l);
    Unfolded(n);
    forall k: nat | k < |p.inputs| ensures !CollidesAt(n.core, p, k) { EarlyIsFree(w, i, p.firstInputFrame + k); }
  }

  lemma HeardNext(w: World, l: Letter, i: nat, r: nat, w': World)
    requires WorldOk(w) && |w.nodes| == 2 && i < 2 && w.nodes[i].core.Local().confirmed == r + 1 < RING
    requires l in w.soup && l.to == 1 - i && l.packet.senderPlayer == i && Window(l.packet, r)
    requires w.nodes[1 - i].core.lanes[i].confirmed == Heard(r)
    requires w' == w.(nodes := w.nodes[1 - i := Received(w.nodes[1 - i], l.packet)]) && WorldOk(w')
    ensures w'.nodes[1 - i].core.lanes[i].confirmed == r + 1
  {
    IsAccepted(w, l, i, r);
    ReceiveKeeps(w.nodes[1 - i], l.packet);
    DeliverLink(w, l, w'.nodes[1 - i]);
    HeldIsOwn(w', 1 - i, i);
  }

  lemma Arrives(w: World, l: Letter, i: nat, r: nat, other: int, last: int, mine: nat)
    requires Going(w, i, r, r + 1, other, last, mine, Heard(r)) && r + 1 < RING
    requires l in w.soup && l.to == 1 - i && l.packet.senderPlayer == i && Window(l.packet, r)
    ensures Enabled(w, Deliver(l)) && Going(Next(w, Deliver(l)), i, r, r + 1, other, last, mine, r + 1)
  {
    NextKeeps(w, Deliver(l));
    HeardNext(w, l, i, r, Next(w, Deliver(l)));
    ReceivedView(w.nodes[1 - i], l.packet);
  }

  /** Its own input is scheduled, and the other's is known or can be predicted. */
  lemma Simulates(w: World, i: nat, r: nat, other: int, last: int, mine: nat, heard: int)
    requires Going(w, i, r, r + 1, other, last, mine, heard) && r < RING && r - other <= LIMIT_AHEAD
    ensures Enabled(w, Drive(i, Simulate))
      && Going(Next(w, Drive(i, Simulate)), i, r + 1, r + 1, other, last, mine, heard)
  {
    var n := w.nodes[i];
    Unfolded(n);
    PreparedChoices(n.core, r, 0, NO_DECISION);
    forall p | 0 <= p < 2 ensures ChoiceFor(n.core, r, p).Use? {
      LaneHeld(n, p);
      if r in n.logs[p] { NoHole(n, p); }
    }
    NextKeeps(w, Drive(i, Simulate));
    DriveView(n, Simulate, 1 - i);
  }

  /** A frame is scheduled and sent. */
  lemma Announces(h: seq<World>, i: nat, r: nat, other: int, last: int, mine: nat) returns (h': seq<World>, l: Letter)
    requires IsHistory(h) && Going(h[|h| - 1], i, r, r, other, last, mine, Heard(r)) && r < RING
    ensures IsHistory(h') && Going(h'[|h'| - 1], i, r, r + 1, other, last, mine, Heard(r))
    ensures l in h'[|h'| - 1].soup && l.to == 1 - i && l.packet.senderPlayer == i && Window(l.packet, r)
  {
    Captures(h[|h| - 1], i, r, other, last, mine, Heard(r));
    var ready := Extended(h, Drive(i, Capture(r, NEUTRAL)));
    var w: World;
    l, w := Sends(ready[|ready| - 1], i, r, other, last, mine, Heard(r));
    h' := Extended(ready, Send(i, 1 - i, r + 1, 0, 0));
  }

  /** It is heard too. */
  lemma Schedules(h: seq<World>, i: nat, r: nat, other: int, last: int, mine: nat) returns (h': seq<World>)
    requires IsHistory(h) && Going(h[|h| - 1], i, r, r, other, last, mine, Heard(r)) && r + 1 < RING
    ensures IsHistory(h') && Going(h'[|h'| - 1], i, r, r + 1, other, last, mine, r + 1)
  {
    var sent, l := Announces(h, i, r, other, last, mine);
    Arrives(sent[|sent| - 1], l, i, r, other, last, mine);
    h' := Extended(sent, Deliver(l));
  }

  lemma MoveOn(h: seq<World>, i: nat, r: nat, other: int, last: int, mine: nat) returns (h': seq<World>)
    requires IsHistory(h) && Going(h[|h| - 1], i, r, r, other, last, mine, Heard(r)) && r + 1 < RING
    requires r - other <= LIMIT_AHEAD
    ensures IsHistory(h') && Going(h'[|h'| - 1], i, r + 1, r + 1, other, last, mine, Heard(r + 1))
  {
    h' := Schedules(h, i, r, other, last, mine);
    Simulates(h'[|h'| - 1], i, r, other, last, mine, r + 1);
    h' := Extended(h', Drive(i, Simulate));
  }

  // ---------------------------------------------------------------- the run

  /** First one peer moves, as far as it may without hearing anything. */
  lemma {:induction false} FirstMoves(r: nat) returns (h: seq<World>)
    requires r < LIMIT_AHEAD
    ensures IsHistory(h) && Going(h[|h| - 1], 1, r, r, NONE, NONE, 0, Heard(r))
  {
    if r == 0 {
      StartsGoing();
      h := [First()];
    } else {
      h := FirstMoves(r - 1);
      h := MoveOn(h, 1, r - 1, NONE, NONE, 0);
    }
  }

  /** Then it stops, and the other begins. */
  lemma TakesTurn(w: World)
    requires Going(w, 1, LIMIT_AHEAD - 1, LIMIT_AHEAD, NONE, NONE, 0, LIMIT_AHEAD)
    ensures Going(w, 0, 0, 0, LIMIT_AHEAD, LIMIT_AHEAD - 2, LIMIT_AHEAD, NONE)
  {
    Unfolded(w.nodes[0]);
    assert LinkOk(w, 0, 1);
  }

  lemma {:induction false} SecondMoves(r: nat) returns (h: seq<World>)
    requires r < RING
    ensures IsHistory(h) && Going(h[|h| - 1], 0, r, r, LIMIT_AHEAD, LIMIT_AHEAD - 2, LIMIT_AHEAD, Heard(r))
  {
    if r == 0 {
      h := FirstMoves(LIMIT_AHEAD - 1);
      h := Schedules(h, 1, LIMIT_AHEAD - 1, NONE, NONE, 0);
      TakesTurn(h[|h| - 1]);
    } else {
      h := SecondMoves(r - 1);
      h := MoveOn(h, 0, r - 1, LIMIT_AHEAD, LIMIT_AHEAD - 2, LIMIT_AHEAD);
    }
  }

  lemma NewestCollides(w: World, packet: InputPacket)
    requires Going(w, 0, RING - 1, RING, LIMIT_AHEAD, LIMIT_AHEAD - 2, LIMIT_AHEAD, RING - 1)
    requires packet.senderPlayer == 0 && packet.Consistent() && packet.inputs != [] && packet.latestFrame == RING
    ensures AnyCollides(w.nodes[1].core, packet) && !AnyOvertaken(w.nodes[1], packet)
  {
    var n := w.nodes[1];
    assert Member(w.nodes[0], 0, 2, w.nodes[0].core.config.sessionId);
    assert Member(n, 1, 2, w.nodes[0].core.config.sessionId);
    assert LinkOk(w, 1, 0);
    OwnLead(w.nodes[0], 1);
    Unfolded(n);
    LaneHeld(n, 0);
    assert 0 in n.logs[0] && RING !in n.logs[0] && SlotOk(n.core.lanes[0].ring[0], 0, n.logs[0]);
    assert CollidesAt(n.core, packet, |packet.inputs| - 1);
    forall k: nat | k < |packet.inputs| ensures !OvertakenAt(n, packet, k) {
      var f := packet.firstInputFrame + k;
      assert SlotOk(n.core.lanes[0].ring[f % RING], f % RING, n.logs[0]);
      if n.core.lanes[0].ring[f % RING].frame > f { SameSlot(n.core.lanes[0].ring[f % RING].frame, f); }
    }
  }

  /** In some run of honest peers a packet with the next frame its receiver waits for, reaching less than a ring
      past its simulation, is refused, though no frame of it has been overtaken. */
  lemma NextFrameRefused() returns (h: seq<World>, l: Letter)
    ensures IsHistory(h) && l in h[|h| - 1].soup && |h[|h| - 1].nodes| == 2 && l.to == 1 && l.packet.senderPlayer == 0
    ensures l.packet.Consistent() && l.packet.latestFrame == h[|h| - 1].nodes[1].core.lanes[0].confirmed + 1
    ensures var n := h[|h| - 1].nodes[1];
      Near(n.core, l.packet) && !AnyOvertaken(n, l.packet) && !Apply(n.core, l.packet).ok
  {
    h := SecondMoves(RING - 1);
    h, l := Announces(h, 0, RING - 1, LIMIT_AHEAD, LIMIT_AHEAD - 2, LIMIT_AHEAD);
    var w := h[|h| - 1];
    assert LetterOk(w, l);
    NewestCollides(w, l.packet);
    HonestDelivery(w, l);
  }
}
