/** A finding about the packet guard, with a run that reaches it: two honest peers play in step, and a packet
    that was sent with the first frame arrives again 256 frames later. It is refused. */
module DelayedDuplicate {
  import opened InputLane
  import opened CoreState
  import opened CoreRun
  import opened PeerProtocol
  import opened HonestRun

  /** Two peers that delay nothing and predict nothing. */
  function ConfigOf(i: nat): CoreConfig { CoreConfig(1, 2, i, 0, 8, 0, 0, 0, 0, false, false) }

  function First(): World { World([Started(ConfigOf(0)), Started(ConfigOf(1))], {}) }

  /** Both peers have simulated every frame before `r`, and know exactly those frames of each other. */
  ghost predicate InStep(w: World, r: nat) {
    WorldOk(w) && |w.nodes| == 2 && At(w.nodes[0], 0, r, r, r) && At(w.nodes[1], 1, r, r, r)
  }

  /** Peer `i` has simulated the frames before `r`, and knows those before `own` and `other`. */
  ghost predicate At(n: Node, i: nat, r: nat, own: nat, other: nat) {
    && i < 2 && n.core.configured && n.core.config == ConfigOf(i) && n.core.last == r - 1
    && n.core.lanes[i].confirmed == own - 1
    && n.core.lanes[1 - i].confirmed == other - 1
  }

  lemma FirstInStep()
    ensures Initial(First()) && InStep(First(), 0)
  {
    var w := First();
    assert Member(w.nodes[0], 0, 2, 1) && Member(w.nodes[1], 1, 2, 1);
    InitialOk(w);
    StartsEmpty(0);
    StartsEmpty(1);
  }

  lemma StartsEmpty(i: nat)
    requires i < 2
    ensures At(Started(ConfigOf(i)), i, 0, 0, 0)
  {
    var ring := LeadIn(Filled(EMPTY_SLOT), 0);
    assert !Finds(ring, 0);
  }

  // ---------------------------------------------------------------- one round

  /** A peer schedules its input for the next frame. */
  lemma Captures(w: World, i: nat, r: nat, other: nat)
    requires WorldOk(w) && |w.nodes| == 2 && i < 2 && At(w.nodes[i], i, r, r, other) && r < RING + 1
    ensures Enabled(w, Drive(i, Capture(r, NEUTRAL)))
    ensures var w' := Next(w, Drive(i, Capture(r, NEUTRAL)));
      WorldOk(w') && |w'.nodes| == 2 && At(w'.nodes[i], i, r, r + 1,
          other) && w'.nodes[1 - i] == w.nodes[1 - i] && w'.soup == w.soup
  {
    NextKeeps(w, Drive(i, Capture(r, NEUTRAL)));
    CaptureNext(w.nodes[i], r, NEUTRAL);
    DriveView(w.nodes[i], Capture(r, NEUTRAL), 1 - i);
  }

  /** What it sends next is everything unacknowledged, through that frame. */
  lemma SentWindow(w: World, i: nat, r: nat, other: nat, p: InputPacket)
    requires WorldOk(w) && |w.nodes| == 2 && i < 2 && At(w.nodes[i], i, r, r + 1, other)
      && At(w.nodes[1 - i], 1 - i, r, r + 1, r)
    requires r < LIMIT && p == Built(w.nodes[i].core, 1 - i, r, 0, 0)
    ensures p.senderPlayer == i && p.inputs != [] && p.latestFrame == r && (r == 0 ==> p.firstInputFrame == 0)
  {
    HeldIsOwn(w, i, 1 - i);
    TightWindow(w, i, 1 - i, r, 0, 0);
  }

  lemma Sends(w: World, i: nat, r: nat, other: nat) returns (l: Letter)
    requires WorldOk(w) && |w.nodes| == 2 && i < 2 && At(w.nodes[i], i, r, r + 1, other)
      && At(w.nodes[1 - i], 1 - i, r, r + 1, r)
    ensures Enabled(w, Send(i, 1 - i, r, 0, 0)) && l.to == 1 - i
    ensures var w' := Next(w, Send(i, 1 - i, r, 0, 0));
      WorldOk(w') && w'.nodes == w.nodes && w'.soup == w.soup + {l}
    ensures l.packet.senderPlayer == i && l.packet.inputs != [] && l.packet.latestFrame == r
    ensures r == 0 ==> l.packet.firstInputFrame == 0
  {
    var p := Built(w.nodes[i].core, 1 - i, r, 0, 0);
    l := Letter(1 - i, p);
    NextKeeps(w, Send(i, 1 - i, r, 0, 0));
    SentWindow(w, i, r, other, p);
  }

  /** The packet arrives, and its receiver knows the frame. */
  lemma Delivers(w: World, l: Letter, i: nat, r: nat, other: nat)
    requires WorldOk(w) && |w.nodes| == 2 && l in w.soup && i < 2 && l.to == 1 - i && l.packet.senderPlayer == i
    requires l.packet.inputs != [] && l.packet.latestFrame == r && w.nodes[i].core.config == ConfigOf(i)
    requires w.nodes[i].core.lanes[i].confirmed == r
    requires At(w.nodes[1 - i], 1 - i, r, r + 1, other)
    ensures Enabled(w, Deliver(l))
    ensures var w' := Next(w, Deliver(l));
      WorldOk(w') && |w'.nodes| == 2 && At(w'.nodes[1 - i], 1 - i, r, r + 1,
          r + 1) && w'.nodes[i] == w.nodes[i] && w'.soup == w.soup
  {
    var w' := Next(w, Deliver(l));
    assert LetterOk(w, l);
    NextKeeps(w, Deliver(l));
    DeliveryAdvances(w, l);
    ReceivedView(w.nodes[1 - i], l.packet);
    HeldIsOwn(w', 1 - i, i);
  }

  /** With both inputs known the frame is simulated exactly. */
  lemma Simulates(w: World, i: nat, r: nat)
    requires WorldOk(w) && |w.nodes| == 2 && i < 2 && At(w.nodes[i], i, r, r + 1, r + 1) && r < RING + 1
    ensures Enabled(w, Drive(i, Simulate))
    ensures var w' := Next(w, Drive(i, Simulate));
      WorldOk(w') && |w'.nodes| == 2 && At(w'.nodes[i], i, r + 1, r + 1,
          r + 1) && w'.nodes[1 - i] == w.nodes[1 - i] && w'.soup == w.soup
  {
    var n := w.nodes[i];
    Unfolded(n);
    PreparedChoices(n.core, r, 0, NO_DECISION);
    forall p | 0 <= p < 2 ensures ChoiceFor(n.core, r, p).Use? {
      LaneHeld(n, p);
      NoHole(n, p);
    }
    NextKeeps(w, Drive(i, Simulate));
  }

  /** One round of both peers. */
  lemma Round(h: seq<World>, r: nat) returns (h': seq<World>, l: Letter)
    requires IsHistory(h) && InStep(h[|h| - 1], r) && r < RING
    ensures IsHistory(h') && InStep(h'[|h'| - 1], r + 1) && h[|h| - 1].soup <= h'[|h'| - 1].soup
      && l in h'[|h'| - 1].soup
    ensures l.to == 1 && l.packet.senderPlayer == 0 && l.packet.inputs != []
      && (r == 0 ==> l.packet.firstInputFrame == 0)
  {
    var m: Letter;
    h', l, m := Exchange(h, r);
    var w := h'[|h'| - 1];
    Delivers(w, l, 0, r, r);
    h' := Extended(h', Deliver(l));
    Delivers(h'[|h'| - 1], m, 1, r, r);
    h' := Extended(h', Deliver(m));
    Simulates(h'[|h'| - 1], 0, r);
    h' := Extended(h', Drive(0, Simulate));
    Simulates(h'[|h'| - 1], 1, r);
    h' := Extended(h', Drive(1, Simulate));
  }

  lemma Exchange(h: seq<World>, r: nat) returns (h': seq<World>, l: Letter, m: Letter)
    requires IsHistory(h) && InStep(h[|h| - 1], r) && r < RING + 1
    ensures IsHistory(h') && h[|h| - 1].soup <= h'[|h'| - 1].soup
    ensures var w := h'[|h'| - 1];
      && WorldOk(w) && |w.nodes| == 2 && At(w.nodes[0], 0, r, r + 1, r) && At(w.nodes[1], 1, r, r + 1, r)
      && l in w.soup && m in w.soup
    ensures l.to == 1 && l.packet.senderPlayer == 0 && l.packet.inputs != [] && l.packet.latestFrame == r
    ensures m.to == 0 && m.packet.senderPlayer == 1 && m.packet.inputs != [] && m.packet.latestFrame == r
    ensures r == 0 ==> l.packet.firstInputFrame == 0
  {
    Captures(h[|h| - 1], 0, r, r);
    h' := Extended(h, Drive(0, Capture(r, NEUTRAL)));
    Captures(h'[|h'| - 1], 1, r, r);
    h' := Extended(h', Drive(1, Capture(r, NEUTRAL)));
    l := Sends(h'[|h'| - 1], 0, r, r);
    h' := Extended(h', Send(0, 1, r, 0, 0));
    m := Sends(h'[|h'| - 1], 1, r, r);
    h' := Extended(h', Send(1, 0, r, 0, 0));
  }

  /** Any number of rounds, up to a whole ring; the packet of the first one is never forgotten. */
  lemma {:induction false} Rounds(r: nat) returns (h: seq<World>, l: Letter)
    requires 0 < r <= RING
    ensures IsHistory(h) && InStep(h[|h| - 1], r) && l in h[|h| - 1].soup
    ensures l.to == 1 && l.packet.senderPlayer == 0 && l.packet.inputs != [] && l.packet.firstInputFrame == 0
  {
    if r == 1 {
      FirstInStep();
      h, l := Round([First()], 0);
    } else {
      h, l := Rounds(r - 1);
      var next: Letter;
      h, next := Round(h, r - 1);
    }
  }

  /** Two peers in step read the row of the frame they have just simulated, and read the same. */
  lemma InStepReads(h: seq<World>, r: nat)
    requires IsHistory(h) && InStep(h[|h| - 1], r + 1)
    ensures var w := h[|h| - 1];
      && HasConfirmedRow(w.nodes[0].core, r) && HasConfirmedRow(w.nodes[1].core, r)
      && ConfirmedRow(w.nodes[0].core, r) == ConfirmedRow(w.nodes[1].core, r)
  {
    var k := |h| - 1;
    forall i: nat | i < 2 ensures HasConfirmedRow(h[k].nodes[i].core, r) {
      Unfolded(h[k].nodes[i]);
      RowIsRead(h, k, i, r);
    }
    NoDesync(h, k, 0, k, 1, r);
  }

  /** In some run of honest peers an honest packet is refused: frame 256 is already in the slot of frame 0,
      which has not expired, when the packet that carried frame 0 arrives once more. */
  lemma HonestPacketRefused() returns (h: seq<World>, l: Letter)
    ensures IsHistory(h) && l in h[|h| - 1].soup && l.to < |h[|h| - 1].nodes| && l.packet.senderPlayer < MAX_PLAYERS
      && l.packet.Consistent()
    ensures AnyOvertaken(h[|h| - 1].nodes[l.to], l.packet) && !Apply(h[|h| - 1].nodes[l.to].core, l.packet).ok
  {
    h, l := Rounds(RING);
    var m: Letter, other: Letter;
    h, m, other := Exchange(h, RING);
    Delivers(h[|h| - 1], m, 0, RING, RING);
    h := Extended(h, Deliver(m));
    var w := h[|h| - 1];
    assert LetterOk(w, l);
    Overtakes(w.nodes[1], l.packet);
    RoomyDelivery(w, l);
  }

  lemma Overtakes(n: Node, packet: InputPacket)
    requires NodeOk(n) && At(n, 1, RING, RING + 1, RING + 1)
    requires packet.senderPlayer == 0 && packet.Consistent() && packet.inputs != [] && packet.firstInputFrame == 0
    ensures AnyOvertaken(n, packet)
  {
    Unfolded(n);
    LaneHeld(n, 0);
    assert RING in n.logs[0];
    assert OvertakenAt(n, packet, 0);
  }
}
