/** Building one run of honest peers act by act. */
module HonestRun {
  import opened InputLane
  import opened CoreState
  import opened CoreRun
  import opened PeerProtocol

  lemma Extended(h: seq<World>, act: Act) returns (h': seq<World>)
    requires IsHistory(h) && Members(h[|h| - 1]) && Enabled(h[|h| - 1], act)
    ensures IsHistory(h') && h' == h + [Next(h[|h| - 1], act)]
  {
    h' := h + [Next(h[|h| - 1], act)];
    forall k | 0 <= k < |h'| - 1 ensures Reaches(h'[k], h'[k + 1]) {
      if k < |h| - 1 { assert Reaches(h[k], h[k + 1]); }
    }
  }

  /** What committing a packet leaves alone. */
  ghost predicate SameButLane(n: Node, n': Node, p: nat) {
    && n'.core.last == n.core.last && n'.core.config == n.core.config && n'.core.configured == n.core.configured
    && forall q :: 0 <= q < MAX_PLAYERS && q != p ==> n'.core.lanes[q] == n.core.lanes[q]
  }

  lemma SubmittedView(n: Node, p: nat, f: nat, input: FrameInput, s: Node)
    requires p < MAX_PLAYERS && f < LIMIT && s == CoreRun.Submitted(n, p, f, input)
    ensures SameButLane(n, s, p)
  {}

  lemma ViewTrans(n: Node, s: Node, r: Node, p: nat)
    requires SameButLane(n, s, p) && SameButLane(s, r, p)
    ensures SameButLane(n, r, p)
  {}

  lemma {:induction false} CommittedView(n: Node, packet: InputPacket, i: nat, r: Node)
    requires packet.senderPlayer < MAX_PLAYERS && packet.Consistent() && i <= |packet.inputs|
      && r == Committed(n, packet, i)
    ensures SameButLane(n, r, packet.senderPlayer)
    decreases |packet.inputs| - i
  {
    if i < |packet.inputs| {
      var s := CoreRun.Submitted(n, packet.senderPlayer, packet.firstInputFrame + i, packet.inputs[i]);
      CommittedNext(n, packet, i, s, r);
      CommittedView(s, packet, i + 1, r);
      SubmittedView(n, packet.senderPlayer, packet.firstInputFrame + i, packet.inputs[i], s);
      ViewTrans(n, s, r, packet.senderPlayer);
    }
  }

  lemma ReceivedView(n: Node, packet: InputPacket)
    requires packet.senderPlayer < MAX_PLAYERS
    ensures SameButLane(n, Received(n, packet), packet.senderPlayer)
  {
    if Apply(n.core, packet).ok {
      WholeOrNothing(n.core, packet);
      CommittedView(n.(core := Acknowledged(n.core, packet)), packet, 0, Received(n, packet));
    }
  }
}
