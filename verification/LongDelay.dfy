/** A finding about the redundant window. Until the first acknowledgement a packet carries the newest 32 local
    frames, and the session sends the frame of each capture, which is the delay ahead of it. With a delay of 32
    frames or more no packet ever carries frame 0: nothing is confirmed or acknowledged, and everyone stops,
    whatever the network does. */
module LongDelay {
  import opened InputLane
  import opened CoreState
  import opened CoreRun
  import opened PeerProtocol

  lemma FirstCapture(config: CoreConfig, input: FrameInput, n: Node)
    requires config.Usable() && n == Captured(Started(config), 0, input)
    ensures MayCapture(Started(config), 0) && LocalFrameForCapture(Started(config).core, 0) == config.inputDelay
    ensures NodeOk(n) && n.core.config == config && n.core.configured && n.core.Local().confirmed == config.inputDelay
    ensures forall j :: 0 <= j < MAX_PLAYERS ==> n.core.peerAck[j] == NONE
  {
    StartsOk(config);
    LeadInLane(config.inputDelay);
    CaptureNext(Started(config), 0, input);
  }

  /** The very first packet of such a session begins after frame 0. */
  lemma FirstPacketBeginsLate(config: CoreConfig, j: nat, input: FrameInput, sequence: nat, ackSequence: nat)
    requires config.Usable() && j < config.playerCount && j != config.localPlayer && MAX_WINDOW <= config.inputDelay
    ensures MayCapture(Started(config), 0) && LocalFrameForCapture(Started(config).core, 0) == config.inputDelay
    ensures var n := Captured(Started(config), 0, input);
      var p := Built(n.core, j, config.inputDelay, sequence, ackSequence);
      && p.inputs != [] && p.latestFrame == config.inputDelay == n.core.Local().confirmed
      && p.firstInputFrame == config.inputDelay + 1 - MAX_WINDOW > 0
  {
    var n := Captured(Started(config), 0, input);
    FirstCapture(config, input, n);
    NewestPacket(n, j, config.inputDelay, sequence, ackSequence);
  }

  const DELAYED := CoreConfig(1, 2, 0, 33, 8, 0, 0, 0, 0, false, true)

  /** With a delay of 33 it begins at frame 2. */
  lemma FirstPacketAt33(input: FrameInput)
    ensures DELAYED.Usable()
    ensures Built(Captured(Started(DELAYED), 0, input).core, 1, 33, 0, 0).firstInputFrame == 2
  {
    FirstPacketBeginsLate(DELAYED, 1, input, 0, 0);
  }

  // ---------------------------------------------------------------- in every history

  /** What the session sends of peer `i` reaches the frame of a capture, so at least the delay. */
  predicate SendsCaptures(w: World, act: Act, i: nat)
    requires i < |w.nodes|
  {
    act.Send? && act.peer == i ==> w.nodes[i].core.config.inputDelay <= act.latest
  }

  ghost predicate ReachesBySession(w: World, w': World, i: nat) {
    Members(w) && i < |w.nodes| &&
    exists act :: Enabled(w, act) && SendsCaptures(w, act, i) && w' == Next(w, act)
  }

  ghost predicate IsSessionHistory(h: seq<World>, i: nat) {
    IsHistory(h) && forall k :: 0 <= k < |h| - 1 ==> ReachesBySession(h[k], h[k + 1], i)
  }

  predicate SkipsFirst(packet: InputPacket) { packet.inputs != [] ==> 0 < packet.firstInputFrame }

  /** Nobody has frame 0 of peer `i`, and nothing under way carries it. */
  ghost predicate Unheard(w: World, i: nat) {
    && i < |w.nodes| && MAX_WINDOW <= w.nodes[i].core.config.inputDelay
    && (forall l :: l in w.soup && l.packet.senderPlayer == i ==> SkipsFirst(l.packet))
    && (forall j :: 0 <= j < |w.nodes| && j != i ==> Lacks(w.nodes[j], i))
  }

  predicate Lacks(n: Node, i: nat) { i < MAX_PLAYERS && 0 !in n.logs[i] }

  lemma UnheardFrontier(w: World, i: nat, j: nat)
    requires WorldOk(w) && Unheard(w, i) && j < |w.nodes| && j != i
    ensures w.nodes[j].core.lanes[i].confirmed == NONE && w.nodes[i].core.peerAck[j] == NONE
    ensures w.nodes[j].high < Horizon(w.nodes[j].core)
  {
    assert Lacks(w.nodes[j], i) && LinkOk(w, i, j);
    assert Member(w.nodes[j], j, |w.nodes|, w.nodes[0].core.config.sessionId);
    Unfolded(w.nodes[j]);
    assert Paced(w.nodes[j], i);
    LaneHeld(w.nodes[j], i);
  }

  lemma UnheardStart(w: World, i: nat)
    requires Initial(w) && i < |w.nodes| && MAX_WINDOW <= w.nodes[i].core.config.inputDelay
    ensures Unheard(w, i)
  {
    forall j | 0 <= j < |w.nodes| && j != i ensures Lacks(w.nodes[j], i) {
      assert Member(w.nodes[j], j, |w.nodes|, w.nodes[0].core.config.sessionId);
    }
  }

  lemma SentSkipsFirst(w: World, i: nat, j: nat, latest: nat, sequence: nat, ackSequence: nat)
    requires WorldOk(w) && Unheard(w, i) && j < |w.nodes| && j != i
    requires w.nodes[i].core.config.inputDelay <= latest < LIMIT
    ensures SkipsFirst(Built(w.nodes[i].core, j, latest, sequence, ackSequence))
  {
    UnheardFrontier(w, i, j);
  }

  lemma DeliveredLacks(w: World, l: Letter, i: nat)
    requires WorldOk(w) && Unheard(w, i) && l in w.soup && l.to < |w.nodes| && l.to != i
    ensures Lacks(Received(w.nodes[l.to], l.packet), i)
  {
    var n, p := w.nodes[l.to], l.packet;
    assert LetterOk(w, l) && Lacks(n, i);
    if Apply(n.core, p).ok {
      Delivered(n, p);
      if p.inputs != [] {
        TookOpened(Acked(n, p), Received(n, p), p.senderPlayer, p.firstInputFrame, p.inputs);
      }
    }
  }

  lemma UnheardSoup(w: World, i: nat, l: Letter)
    requires Unheard(w, i) && (l.packet.senderPlayer == i ==> SkipsFirst(l.packet))
    ensures Unheard(w.(soup := w.soup + {l}), i)
  {
    var w' := w.(soup := w.soup + {l});
    forall k | k in w'.soup && k.packet.senderPlayer == i ensures SkipsFirst(k.packet) {
      if k != l { assert k in w.soup; }
    }
    forall j | 0 <= j < |w'.nodes| && j != i ensures Lacks(w'.nodes[j], i) { assert Lacks(w.nodes[j], i); }
  }

  lemma UnheardMove(w: World, w': World, i: nat, t: nat)
    requires Unheard(w, i) && t < |w.nodes| == |w'.nodes| && w' == w.(nodes := w.nodes[t := w'.nodes[t]])
    requires w'.nodes[t].core.config == w.nodes[t].core.config && (t != i ==> Lacks(w'.nodes[t], i))
    ensures Unheard(w', i)
  {
    forall k | k in w'.soup && k.packet.senderPlayer == i ensures SkipsFirst(k.packet) { assert k in w.soup; }
    forall j | 0 <= j < |w'.nodes| && j != i ensures Lacks(w'.nodes[j], i) { assert j == t || Lacks(w.nodes[j], i); }
  }

  lemma UnheardNext(w: World, act: Act, i: nat)
    requires WorldOk(w) && Unheard(w, i) && Enabled(w, act) && SendsCaptures(w, act, i)
    ensures Unheard(Next(w, act), i)
  {
    match act
    case Drive(t, step) =>
      assert Member(w.nodes[t], t, |w.nodes|, w.nodes[0].core.config.sessionId);
      DriveView(w.nodes[t], step, i);
      NextGrows(w, act, t);
      if t != i { assert Lacks(w.nodes[t], i); }
      UnheardMove(w, Next(w, act), i, t);
    case Send(t, j, latest, q, a) =>
      SenderView(w, t, j);
      if t == i { SentSkipsFirst(w, i, j, latest, q, a); }
      UnheardSoup(w, i, Letter(j, Built(w.nodes[t].core, j, latest, q, a)));
    case Answer(t, j, terminal, q, a) =>
      UnheardSoup(w, i, Letter(j, TerminalAck(w.nodes[t].core, terminal, q, a)));
    case Deliver(letter) =>
      if letter.to != i { DeliveredLacks(w, letter, i); }
      NextGrows(w, act, letter.to);
      UnheardMove(w, Next(w, act), i, letter.to);
  }

  lemma {:induction false} HistoryUnheard(h: seq<World>, k: nat, i: nat)
    requires IsSessionHistory(h, i) && k < |h| && i < |h[0].nodes| && MAX_WINDOW <= h[0].nodes[i].core.config.inputDelay
    ensures WorldOk(h[k]) && Unheard(h[k], i)
  {
    HistoryKeeps(h, k);
    if k == 0 { UnheardStart(h[0], i); } else {
      HistoryUnheard(h, k - 1, i);
      assert ReachesBySession(h[k - 1], h[k - 1 + 1], i);
      var act :| Enabled(h[k - 1], act) && SendsCaptures(h[k - 1], act, i) && h[k] == Next(h[k - 1], act);
      UnheardNext(h[k - 1], act, i);
    }
  }

  /** With a delay of a whole window, and a session that sends the frame of each capture, no packet carries the
      peer's frame 0, nobody confirms or acknowledges any of its frames, no confirmed row ever exists at another
      peer, the others never simulate as many frames as they may run ahead, and the peer itself stops soon after. */
  lemma NothingIsHeard(h: seq<World>, k: nat, i: nat, j: nat, f: nat)
    requires IsSessionHistory(h, i) && k < |h| && i < |h[0].nodes| && MAX_WINDOW <= h[0].nodes[i].core.config.inputDelay
    requires j < |h[k].nodes| && j != i
    ensures forall l :: l in h[k].soup && l.packet.senderPlayer == i ==> SkipsFirst(l.packet)
    ensures i < |h[k].nodes| <= MAX_PLAYERS
    ensures h[k].nodes[j].core.lanes[i].confirmed == NONE && h[k].nodes[i].core.peerAck[j] == NONE
    ensures !HasConfirmedRow(h[k].nodes[j].core, f) && h[k].nodes[j].high < Horizon(h[k].nodes[j].core)
    ensures var a, b := h[k].nodes[i], h[k].nodes[j];
      a.high <= Horizon(a.core) + Horizon(b.core) + b.core.config.inputDelay
  {
    HistoryUnheard(h, k, i);
    var w := h[k];
    UnheardFrontier(w, i, j);
    assert Member(w.nodes[j], j, |w.nodes|, w.nodes[0].core.config.sessionId);
    assert HasConfirmedRow(w.nodes[j].core, f) ==> SeatConfirmed(w.nodes[j].core, f, i);
    SenderView(w, i, j);
    HeldIsOwn(w, i, j);
    Unfolded(w.nodes[i]);
    Unfolded(w.nodes[j]);
    assert Paced(w.nodes[i], j);
  }
}
