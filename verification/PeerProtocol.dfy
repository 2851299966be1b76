/** Two or three honest peers over a network that loses, duplicates, delays and reorders packets: a set
    of letters that only grows, from which any letter may be delivered any number of times or never. */
module PeerProtocol {
  import opened InputLane
  import opened CoreState
  import opened CoreRun

  datatype Letter = Letter(to: nat, packet: InputPacket)

  datatype World = World(nodes: seq<Node>, soup: set<Letter>)

  predicate Members(w: World) {
    && 2 <= |w.nodes| <= MAX_PLAYERS
    && forall i :: 0 <= i < |w.nodes| ==> Member(w.nodes[i], i, |w.nodes|, w.nodes[0].core.config.sessionId)
  }

  function SessionOf(w: World): nat
    requires w.nodes != []
  {
    w.nodes[0].core.config.sessionId
  }

  predicate Member(n: Node, i: nat, count: nat, session: nat) {
    n.core.config.localPlayer == i && n.core.config.playerCount == count && n.core.config.sessionId == session
  }

  /** How far a peer's own input may be ahead of what it has confirmed of another. */
  function Lead(n: Node): nat { Horizon(n.core) + n.core.config.inputDelay + 1 }

  /** The two leads together fit in the redundant window of a packet. */
  predicate Tight(w: World, i: nat, j: nat)
    requires i < |w.nodes| && j < |w.nodes|
  {
    Lead(w.nodes[i]) + Lead(w.nodes[j]) <= MAX_WINDOW
  }

  ghost predicate Within(part: Log, whole: Log) {
    forall f :: f in part ==> f in whole && part[f] == whole[f]
  }

  ghost predicate UpTo(log: Log, end: int) { forall f :: f in log ==> f <= end }

  /** What peer `i` holds of peer `j`. */
  ghost predicate LinkOk(w: World, i: nat, j: nat)
    requires i < |w.nodes| <= MAX_PLAYERS && j < |w.nodes|
  {
    var a, b := w.nodes[i], w.nodes[j];
    && Within(a.logs[j], b.logs[j])
    && NONE <= a.core.peerAck[j] <= b.core.lanes[i].confirmed
    && UpTo(a.logs[j], a.core.peerAck[j] + Lead(b))
    && (Tight(w, i, j) ==> UpTo(a.logs[j], a.core.lanes[j].confirmed))
  }

  ghost predicate SamplesOf(packet: InputPacket, log: Log) {
    0 <= packet.firstInputFrame && Consecutive(packet.firstInputFrame, packet.inputs, log)
  }

  ghost predicate Consecutive(first: int, inputs: seq<FrameInput>, log: Log) {
    forall f :: first <= f < first + |inputs| ==> f in log && log[f] == inputs[f - first]
  }

  /** An honest packet: it acknowledges no more than its sender has, carries the sender's own input, and
      reaches no further ahead of its acknowledgement than the sender's lead. */
  ghost predicate LetterOk(w: World, l: Letter)
    requires |w.nodes| <= MAX_PLAYERS
  {
    var p, s := l.packet, l.packet.senderPlayer;
    && s < |w.nodes| && l.to < |w.nodes| && s != l.to
    && p.sessionId == w.nodes[0].core.config.sessionId && p.playerCount == |w.nodes|
    && p.Consistent() && |p.inputs| <= MAX_WINDOW && p.ackFrame <= w.nodes[s].core.lanes[l.to].confirmed
    && (p.inputs != [] ==>
          && p.latestFrame <= p.ackFrame + Lead(w.nodes[s]) && SamplesOf(p, w.nodes[s].logs[s])
          && (Tight(w, s, l.to) ==> p.firstInputFrame <= w.nodes[l.to].core.lanes[s].confirmed + 1))
  }

  ghost predicate AllValid(log: Log) { forall f :: f in log ==> log[f].Valid() }

  ghost predicate WorldOk(w: World) {
    && Members(w)
    && (forall i :: 0 <= i < |w.nodes| ==> NodeOk(w.nodes[i]) && AllValid(w.nodes[i].logs[i]))
    && (forall i, j :: 0 <= i < |w.nodes| && 0 <= j < |w.nodes| && i != j ==> LinkOk(w, i, j))
    && (forall l :: l in w.soup ==> LetterOk(w, l))
  }

  // ---------------------------------------------------------------- steps

  /** A peer may retire its inputs through its terminal frame. */
  predicate CanRetire(c: Core, terminal: nat) {
    && c.last == terminal && c.rollback == NONE
    && forall p :: 0 <= p < c.config.playerCount && p != c.config.localPlayer ==> Settled(c, terminal, p)
  }

  predicate Settled(c: Core, terminal: nat, p: nat)
    requires p < MAX_PLAYERS
  {
    terminal <= c.lanes[p].confirmed && terminal <= c.peerAck[p]
  }

  /** The cached answer of a retired peer: no input, only the acknowledgement of the terminal frame. */
  function TerminalAck(c: Core, terminal: nat, sequence: nat, ackSequence: nat): InputPacket
    requires terminal < LIMIT
  {
    InputPacket(c.config.sessionId, sequence, ackSequence, terminal, terminal, NONE, terminal + 1, 0,
                c.config.localPlayer, c.config.playerCount, [])
  }

  datatype Act =
    | Drive(peer: nat, step: Step)
    | Send(peer: nat, to: nat, latest: nat, sequence: nat, ackSequence: nat)
    | Answer(peer: nat, to: nat, terminal: nat, sequence: nat, ackSequence: nat)
    | Deliver(letter: Letter)

  predicate Enabled(w: World, act: Act)
    requires Members(w)
  {
    match act
    case Drive(i, step) =>
      i < |w.nodes| && !step.Receive? && Allowed(w.nodes[i], step) && (step.Capture? ==> step.input.Valid())
    case Send(i, j, latest, _, _) =>
      i < |w.nodes| && j < |w.nodes| && i != j && latest <= w.nodes[i].core.Local().confirmed
    case Answer(i, j, terminal, _, _) =>
      i < |w.nodes| && j < |w.nodes| && i != j && terminal < LIMIT && CanRetire(w.nodes[i].core, terminal)
    case Deliver(letter) => letter in w.soup && letter.to < |w.nodes|
  }

  function Next(w: World, act: Act): World
    requires Members(w) && Enabled(w, act)
  {
    match act
    case Drive(i, step) => w.(nodes := w.nodes[i := After(w.nodes[i], step)])
    case Send(i, j, latest, sequence, ackSequence) =>
      w.(soup := w.soup + {Letter(j, Built(w.nodes[i].core, j, latest, sequence, ackSequence))})
    case Answer(i, j, terminal, sequence, ackSequence) =>
      w.(soup := w.soup + {Letter(j, TerminalAck(w.nodes[i].core, terminal, sequence, ackSequence))})
    case Deliver(letter) => w.(nodes := w.nodes[letter.to := Received(w.nodes[letter.to], letter.packet)])
  }

  // ---------------------------------------------------------------- one peer moves, the others' links hold

  /** `n'` knows at least what `n` knew. */
  ghost predicate Follows(n: Node, n': Node) {
    && n'.core.config == n.core.config && Grew(n.logs, n'.logs)
    && forall p :: 0 <= p < n.core.config.playerCount ==> FollowsAt(n, n', p)
  }

  predicate FollowsAt(n: Node, n': Node, p: nat)
    requires p < MAX_PLAYERS
  {
    n.core.lanes[p].confirmed <= n'.core.lanes[p].confirmed && n.core.peerAck[p] <= n'.core.peerAck[p]
  }

  lemma FrontierFollows(n: Node, n': Node, p: nat)
    requires NodeOk(n) && NodeOk(n') && n'.core.config == n.core.config && Grew(n.logs, n'.logs)
      && p < n.core.config.playerCount
    ensures n.core.lanes[p].confirmed <= n'.core.lanes[p].confirmed
  {
    Unfolded(n);
    Unfolded(n');
    LaneHeld(n, p);
    LaneHeld(n', p);
    PrefixGrows(n.logs[p], n'.logs[p], n.core.lanes[p].confirmed, n'.core.lanes[p].confirmed);
  }

  ghost predicate Moved(w: World, w': World, t: nat) {
    && Members(w) && t < |w.nodes| == |w'.nodes| && w'.soup == w.soup
    && w' == w.(nodes := w.nodes[t := w'.nodes[t]]) && Follows(w.nodes[t], w'.nodes[t])
  }

  lemma LetterStays(w: World, w': World, t: nat, l: Letter)
    requires Moved(w, w', t) && LetterOk(w, l)
    ensures LetterOk(w', l)
  {
    var s := l.packet.senderPlayer;
    assert s == t || l.to == t || w'.nodes[s] == w.nodes[s];
    if s == t { assert FollowsAt(w.nodes[t], w'.nodes[t], l.to); }
    if l.to == t { assert FollowsAt(w.nodes[t], w'.nodes[t], s); }
    assert Member(w.nodes[0], 0, |w.nodes|, w.nodes[0].core.config.sessionId);
  }

  lemma LinkToMoved(w: World, w': World, t: nat, i: nat)
    requires Moved(w, w', t) && i < |w.nodes| && i != t && LinkOk(w, i, t)
    ensures LinkOk(w', i, t)
  {
    assert FollowsAt(w.nodes[t], w'.nodes[t], i);
  }

  lemma LinkBetweenOthers(w: World, w': World, t: nat, i: nat, j: nat)
    requires Moved(w, w', t) && i < |w.nodes| && j < |w.nodes| && i != t && j != t && LinkOk(w, i, j)
    ensures LinkOk(w', i, j)
  {}

  /** Nothing the peer holds of `j` has changed. */
  lemma LinkUntouched(w: World, w': World, t: nat, j: nat)
    requires Moved(w, w', t) && j < |w.nodes| && j != t && LinkOk(w, t, j)
    requires w'.nodes[t].logs[j] == w.nodes[t].logs[j] && w'.nodes[t].core.lanes[j] == w.nodes[t].core.lanes[j]
    requires w'.nodes[t].core.peerAck[j] == w.nodes[t].core.peerAck[j]
    ensures LinkOk(w', t, j)
  {}

  lemma MovedMembers(w: World, w': World, t: nat)
    requires Moved(w, w', t)
    ensures Members(w')
  {
    forall i | 0 <= i < |w'.nodes| ensures Member(w'.nodes[i], i, |w'.nodes|, w'.nodes[0].core.config.sessionId) {
      assert Member(w.nodes[i], i, |w.nodes|, w.nodes[0].core.config.sessionId);
    }
  }

  lemma WorldAfterMove(w: World, w': World, t: nat)
    requires WorldOk(w) && Moved(w, w', t) && NodeOk(w'.nodes[t]) && AllValid(w'.nodes[t].logs[t])
    requires forall j :: 0 <= j < |w.nodes| && j != t ==> LinkOk(w', t, j)
    ensures WorldOk(w')
  {
    MovedMembers(w, w', t);
    forall i, j | 0 <= i < |w'.nodes| && 0 <= j < |w'.nodes| && i != j ensures LinkOk(w', i, j) {
      if i != t {
        assert LinkOk(w, i, j);
        if j == t { LinkToMoved(w, w', t, i); } else { LinkBetweenOthers(w, w', t, i, j); }
      }
    }
    forall l | l in w'.soup ensures LetterOk(w', l) { LetterStays(w, w', t, l); }
  }

  // ---------------------------------------------------------------- driving

  lemma DriveView(n: Node, step: Step, p: nat)
    requires NodeOk(n) && Allowed(n, step) && !step.Receive? && p < MAX_PLAYERS
    ensures After(n, step).core.peerAck == n.core.peerAck
    ensures p != n.core.config.localPlayer ==>
      After(n, step).logs[p] == n.logs[p] && After(n, step).core.lanes[p] == n.core.lanes[p]
    ensures AllValid(n.logs[p]) && (step.Capture? ==> step.input.Valid()) ==> AllValid(After(n, step).logs[p])
  {}

  lemma DriveKeeps(w: World, i: nat, step: Step)
    requires WorldOk(w) && Enabled(w, Drive(i, step))
    ensures WorldOk(Next(w, Drive(i, step)))
  {
    var n, w' := w.nodes[i], Next(w, Drive(i, step));
    var n' := After(n, step);
    assert Member(n, i, |w.nodes|, w.nodes[0].core.config.sessionId);
    StepKeeps(n, step);
    forall p | 0 <= p < n.core.config.playerCount ensures FollowsAt(n, n', p) {
      FrontierFollows(n, n', p);
      DriveView(n, step, p);
    }
    forall j | 0 <= j < |w.nodes| && j != i ensures LinkOk(w', i, j) {
      DriveView(n, step, j);
      assert LinkOk(w, i, j);
      LinkUntouched(w, w', i, j);
    }
    DriveView(n, step, i);
    WorldAfterMove(w, w', i);
  }

  // ---------------------------------------------------------------- bounds

  lemma OwnLead(n: Node, j: nat)
    requires NodeOk(n) && j < n.core.config.playerCount && j != n.core.config.localPlayer
    ensures n.core.Local().confirmed <= n.core.lanes[j].confirmed + Lead(n)
    ensures n.core.lanes[j].confirmed >= 0 ==> n.core.lanes[j].confirmed in n.logs[j]
    ensures forall f :: f in n.logs[n.core.config.localPlayer] ==> 0 <= f <= n.core.Local().confirmed
    ensures forall f :: 0 <= f <= n.core.Local().confirmed ==> f in n.logs[n.core.config.localPlayer]
  {
    Unfolded(n);
    assert Paced(n, j);
    LaneHeld(n, j);
    LaneHeld(n, n.core.config.localPlayer);
  }

  /** Captured but unacknowledged local input never exceeds the two leads together. */
  lemma UnacknowledgedBound(w: World, i: nat, j: nat)
    requires WorldOk(w) && i < |w.nodes| && j < |w.nodes| && i != j
    ensures w.nodes[i].core.Local().confirmed - w.nodes[i].core.peerAck[j] <= Lead(w.nodes[i]) + Lead(w.nodes[j])
  {
    assert LinkOk(w, i, j);
    assert Member(w.nodes[i], i, |w.nodes|, w.nodes[0].core.config.sessionId);
    OwnLead(w.nodes[i], j);
  }

  /** With both leads together at most a ring, every unacknowledged local input is still in the ring. */
  lemma NoUnacknowledgedEviction(w: World, i: nat, j: nat, f: nat)
    requires WorldOk(w) && i < |w.nodes| && j < |w.nodes| && i != j
    requires Lead(w.nodes[i]) + Lead(w.nodes[j]) <= RING
    requires w.nodes[i].core.peerAck[j] < f <= w.nodes[i].core.Local().confirmed
    ensures Finds(w.nodes[i].core.Local().ring, f)
    ensures f in w.nodes[i].logs[i] && w.nodes[i].core.Local().ring[f % RING].input == w.nodes[i].logs[i][f]
  {
    UnacknowledgedBound(w, i, j);
    assert Member(w.nodes[i], i, |w.nodes|, w.nodes[0].core.config.sessionId);
    OwnLead(w.nodes[i], j);
    Unfolded(w.nodes[i]);
    LaneHeld(w.nodes[i], i);
    RetainedIsFound(w.nodes[i].core.lanes[i].ring, w.nodes[i].logs[i], Floor(w.nodes[i], i), f);
  }

  /** What one peer has of another, the other has of itself. */
  lemma HeldIsOwn(w: World, i: nat, j: nat)
    requires WorldOk(w) && i < |w.nodes| && j < |w.nodes| && i != j
    ensures w.nodes[i].core.lanes[j].confirmed <= w.nodes[j].core.Local().confirmed
    ensures w.nodes[i].core.peerAck[j] <= w.nodes[j].core.lanes[i].confirmed <= w.nodes[i].core.Local().confirmed
  {
    assert LinkOk(w, i, j) && LinkOk(w, j, i);
    assert Member(w.nodes[i], i, |w.nodes|, w.nodes[0].core.config.sessionId);
    assert Member(w.nodes[j], j, |w.nodes|, w.nodes[0].core.config.sessionId);
    OwnLead(w.nodes[i], j);
    OwnLead(w.nodes[j], i);
  }

  // ---------------------------------------------------------------- sending

  lemma SamplesLogged(ring: Frames, log: Log, first: nat, latest: nat, count: nat)
    requires Shows(ring, log)
    ensures Consecutive(first, Samples(ring, first, latest, count), log)
  {
    var samples := Samples(ring, first, latest, count);
    SamplesFound(ring, first, latest, count);
    forall f | first <= f < first + |samples| ensures f in log && log[f] == samples[f - first] {
      assert Finds(ring, f);
      FindsIsLogged(ring, log, f);
    }
  }

  lemma BuiltSamples(n: Node, j: nat, latest: nat)
    requires NodeOk(n) && n.core.Remote(j) && latest < LIMIT
    ensures Consecutive(FirstUnacknowledged(n.core, j, latest),
                        Samples(n.core.Local().ring, FirstUnacknowledged(n.core, j, latest), latest, MAX_WINDOW),
                        n.logs[n.core.config.localPlayer])
  {
    Unfolded(n);
    LaneHeld(n, n.core.config.localPlayer);
    SamplesLogged(n.core.Local().ring, n.logs[n.core.config.localPlayer], FirstUnacknowledged(n.core, j, latest),
        latest, MAX_WINDOW);
  }

  lemma SendIsHonest(w: World, i: nat, j: nat, latest: nat, sequence: nat, ackSequence: nat)
    requires WorldOk(w) && Enabled(w, Send(i, j, latest, sequence, ackSequence))
    ensures LetterOk(w, Letter(j, Built(w.nodes[i].core, j, latest, sequence, ackSequence)))
  {
    var n := w.nodes[i];
    assert Member(n, i, |w.nodes|, w.nodes[0].core.config.sessionId);
    Unfolded(n);
    BuiltSamples(n, j, latest);
    OwnLead(n, j);
    UnacknowledgedBound(w, i, j);
    assert LinkOk(w, i, j);
  }

  lemma SoupKeeps(w: World, l: Letter)
    requires WorldOk(w) && LetterOk(w, l)
    ensures WorldOk(w.(soup := w.soup + {l}))
  {
    var w' := w.(soup := w.soup + {l});
    forall i, j | 0 <= i < |w'.nodes| && 0 <= j < |w'.nodes| && i != j ensures LinkOk(w', i, j) {
      assert LinkOk(w, i, j);
    }
    forall k | k in w'.soup ensures LetterOk(w', k) { assert LetterOk(w, k); }
  }

  lemma AnswerIsHonest(w: World, i: nat, j: nat, terminal: nat, sequence: nat, ackSequence: nat)
    requires WorldOk(w) && Enabled(w, Answer(i, j, terminal, sequence, ackSequence))
    ensures LetterOk(w, Letter(j, TerminalAck(w.nodes[i].core, terminal, sequence, ackSequence)))
  {
    assert Member(w.nodes[i], i, |w.nodes|, w.nodes[0].core.config.sessionId);
    assert Settled(w.nodes[i].core, terminal, j);
  }

  // ---------------------------------------------------------------- delivering

  function Acked(n: Node, packet: InputPacket): Node
    requires packet.senderPlayer < MAX_PLAYERS
  {
    n.(core := Acknowledged(n.core, packet))
  }

  /** What delivering an accepted packet gives its receiver: the acknowledgement, and the samples. */
  lemma Delivered(n: Node, packet: InputPacket)
    requires NodeOk(n) && Apply(n.core, packet).ok
    ensures n.core.Remote(packet.senderPlayer) && packet.Consistent() && NodeOk(Acked(n, packet))
    ensures packet.inputs == [] ==> Received(n, packet) == Acked(n, packet)
    ensures packet.inputs != [] ==>
      Took(Acked(n, packet), Received(n, packet), packet.senderPlayer, packet.firstInputFrame, packet.inputs)
  {
    WholeOrNothing(n.core, packet);
    var a := Acked(n, packet);
    PassedIsReady(n, a, packet);
    AcknowledgeKeeps(n, packet);
    if packet.inputs != [] { CommitTakesAll(a, packet); }
  }

  lemma TookIsWithin(n: Node, r: Node, s: nat, packet: InputPacket, whole: Log)
    requires s < MAX_PLAYERS && packet.Consistent() && packet.inputs != []
    requires Took(n, r, s, packet.firstInputFrame, packet.inputs) && Grew(n.logs, r.logs)
    requires Within(n.logs[s], whole) && SamplesOf(packet, whole)
    ensures Within(r.logs[s], whole)
  {
    TookOpened(n, r, s, packet.firstInputFrame, packet.inputs);
    forall f | f in r.logs[s] ensures f in whole && r.logs[s][f] == whole[f] {
      if f in n.logs[s] { assert r.logs[s][f] == n.logs[s][f]; }
    }
  }

  /** With samples that begin no later than the frontier and no input known past it, the frontier moves
      through the last sample and again nothing is known past it. */
  lemma TookAdvances(n: Node, r: Node, s: nat, packet: InputPacket)
    requires NodeOk(n) && NodeOk(r) && r.core.config == n.core.config && n.core.Remote(s)
    requires packet.Consistent() && packet.inputs != [] && Grew(n.logs, r.logs)
    requires Took(n, r, s, packet.firstInputFrame, packet.inputs)
    requires 0 <= packet.firstInputFrame <= n.core.lanes[s].confirmed + 1
    ensures packet.latestFrame <= r.core.lanes[s].confirmed
    ensures UpTo(n.logs[s], n.core.lanes[s].confirmed) ==> UpTo(r.logs[s], r.core.lanes[s].confirmed)
  {
    Unfolded(n);
    Unfolded(r);
    LaneHeld(n, s);
    LaneHeld(r, s);
    FrontierFollows(n, r, s);
    TookOpened(n, r, s, packet.firstInputFrame, packet.inputs);
    forall f: nat | f <= packet.latestFrame ensures f in r.logs[s] {
      if f <= n.core.lanes[s].confirmed { assert f in n.logs[s]; } else { assert !n.core.TooOldFrame(f); }
    }
    assert !(r.core.lanes[s].confirmed + 1 <= packet.latestFrame);
  }

  lemma DeliverLink(w: World, l: Letter, r: Node)
    requires WorldOk(w) && l in w.soup && Apply(w.nodes[l.to].core, l.packet).ok
      && r == Received(w.nodes[l.to], l.packet)
    requires NodeOk(r) && Grew(w.nodes[l.to].logs, r.logs) && r.core.config == w.nodes[l.to].core.config
    ensures LinkOk(w.(nodes := w.nodes[l.to := r]), l.to, l.packet.senderPlayer)
    ensures var p := l.packet;
      p.inputs != [] && p.firstInputFrame <= w.nodes[l.to].core.lanes[p.senderPlayer].confirmed + 1 ==>
        p.latestFrame <= r.core.lanes[p.senderPlayer].confirmed
  {
    var t, s, p, n := l.to, l.packet.senderPlayer, l.packet, w.nodes[l.to];
    assert LetterOk(w, l) && LinkOk(w, t, s);
    assert Member(n, t, |w.nodes|, w.nodes[0].core.config.sessionId);
    Delivered(n, p);
    var a := Acked(n, p);
    FrontierFollows(n, r, s);
    if p.inputs != [] {
      TookOpened(a, r, s, p.firstInputFrame, p.inputs);
      TookIsWithin(a, r, s, p, w.nodes[s].logs[s]);
      if p.firstInputFrame <= n.core.lanes[s].confirmed + 1 { TookAdvances(a, r, s, p); }
    }
  }

  lemma DeliverKeeps(w: World, l: Letter)
    requires WorldOk(w) && Enabled(w, Deliver(l))
    ensures WorldOk(Next(w, Deliver(l)))
  {
    var t, n, w' := l.to, w.nodes[l.to], Next(w, Deliver(l));
    var r, s := Received(n, l.packet), l.packet.senderPlayer;
    assert LetterOk(w, l);
    assert Member(n, t, |w.nodes|, w.nodes[0].core.config.sessionId);
    ReceiveKeeps(n, l.packet);
    if Apply(n.core, l.packet).ok {
      Delivered(n, l.packet);
      if l.packet.inputs != [] { TookOpened(Acked(n, l.packet), r, s, l.packet.firstInputFrame, l.packet.inputs); }
      DeliverLink(w, l, r);
      forall p | 0 <= p < n.core.config.playerCount ensures FollowsAt(n, r, p) { FrontierFollows(n, r, p); }
      forall j | 0 <= j < |w.nodes| && j != t ensures LinkOk(w', t, j) {
        assert LinkOk(w, t, j);
        if j != s { LinkUntouched(w, w', t, j); }
      }
      WorldAfterMove(w, w', t);
    } else {
      assert w'.nodes == w.nodes;
    }
  }

  // ---------------------------------------------------------------- whole runs

  ghost predicate Initial(w: World) {
    && Members(w) && w.soup == {}
    && forall i :: 0 <= i < |w.nodes| ==>
         w.nodes[i].core.config.Usable() && w.nodes[i] == Started(w.nodes[i].core.config)
  }

  ghost predicate Reaches(w: World, w': World) {
    Members(w) && exists act :: Enabled(w, act) && w' == Next(w, act)
  }

  ghost predicate IsHistory(h: seq<World>) {
    h != [] && Initial(h[0]) && forall k :: 0 <= k < |h| - 1 ==> Reaches(h[k], h[k + 1])
  }

  lemma InitialOk(w: World)
    requires Initial(w)
    ensures WorldOk(w)
  {
    forall i | 0 <= i < |w.nodes| ensures NodeOk(w.nodes[i]) && AllValid(w.nodes[i].logs[i]) {
      assert Member(w.nodes[i], i, |w.nodes|, w.nodes[0].core.config.sessionId);
      StartsOk(w.nodes[i].core.config);
    }
    forall i, j | 0 <= i < |w.nodes| && 0 <= j < |w.nodes| && i != j ensures LinkOk(w, i, j) {
      assert Member(w.nodes[i], i, |w.nodes|, w.nodes[0].core.config.sessionId);
      assert Member(w.nodes[j], j, |w.nodes|, w.nodes[0].core.config.sessionId);
      assert w.nodes[i].core.peerAck[j] == NONE && w.nodes[i].logs[j] == map[];
    }
  }

  lemma NextKeeps(w: World, act: Act)
    requires WorldOk(w) && Enabled(w, act)
    ensures WorldOk(Next(w, act))
  {
    match act
    case Drive(i, step) => DriveKeeps(w, i, step);
    case Send(i, j, latest, q, a) =>
      SendIsHonest(w, i, j, latest, q, a);
      SoupKeeps(w, Letter(j, Built(w.nodes[i].core, j, latest, q, a)));
    case Answer(i, j, terminal, q, a) =>
      AnswerIsHonest(w, i, j, terminal, q, a);
      SoupKeeps(w, Letter(j, TerminalAck(w.nodes[i].core, terminal, q, a)));
    case Deliver(letter) => DeliverKeeps(w, letter);
  }

  lemma {:induction false} HistoryKeeps(h: seq<World>, k: nat)
    requires IsHistory(h) && k < |h|
    ensures WorldOk(h[k])
  {
    if k == 0 { InitialOk(h[0]); } else {
      HistoryKeeps(h, k - 1);
      assert Reaches(h[k - 1], h[k]);
      var act :| Enabled(h[k - 1], act) && h[k] == Next(h[k - 1], act);
      NextKeeps(h[k - 1], act);
    }
  }

  /** A peer forgets nothing from one world to the next. */
  lemma NextGrows(w: World, act: Act, q: nat)
    requires WorldOk(w) && Enabled(w, act) && q < |w.nodes|
    ensures |Next(w, act).nodes| == |w.nodes| && Grew(w.nodes[q].logs, Next(w, act).nodes[q].logs)
    ensures Next(w, act).nodes[q].core.config == w.nodes[q].core.config
  {
    match act
    case Drive(i, step) => StepKeeps(w.nodes[i], step);
    case Deliver(letter) => ReceiveKeeps(w.nodes[letter.to], letter.packet);
    case _ =>
  }

  /** Whatever a peer knew in `w` it still knows in `w'`, in the same session. */
  ghost predicate Remembers(w: World, w': World) {
    |w'.nodes| == |w.nodes| && forall q :: 0 <= q < |w.nodes| ==> RemembersAt(w.nodes[q], w'.nodes[q])
  }

  ghost predicate RemembersAt(n: Node, n': Node) {
    Grew(n.logs, n'.logs) && n'.core.config == n.core.config
  }

  lemma RemembersOnce(w: World, w': World)
    requires WorldOk(w) && Reaches(w, w')
    ensures Remembers(w, w')
  {
    var act :| Enabled(w, act) && w' == Next(w, act);
    forall q | 0 <= q < |w.nodes| ensures |w'.nodes| == |w.nodes| && RemembersAt(w.nodes[q], w'.nodes[q]) {
      NextGrows(w, act, q);
    }
  }

  lemma RemembersTrans(a: World, b: World, c: World)
    requires Remembers(a, b) && Remembers(b, c)
    ensures Remembers(a, c)
  {
    forall q | 0 <= q < |a.nodes| ensures RemembersAt(a.nodes[q], c.nodes[q]) {
      assert RemembersAt(a.nodes[q], b.nodes[q]) && RemembersAt(b.nodes[q], c.nodes[q]);
      GrewTrans(a.nodes[q].logs, b.nodes[q].logs, c.nodes[q].logs);
    }
  }

  lemma {:induction false} HistoryGrows(h: seq<World>, k: nat, m: nat)
    requires IsHistory(h) && k <= m < |h|
    ensures Remembers(h[k], h[m])
    decreases m - k
  {
    if k < m {
      var before := m - 1;
      HistoryGrows(h, k, before);
      HistoryKeeps(h, before);
      assert Reaches(h[before], h[before + 1]);
      RemembersOnce(h[before], h[m]);
      RemembersTrans(h[k], h[before], h[m]);
    }
  }

  /** A confirmed row is what every seat scheduled. */
  lemma RowIsScheduled(h: seq<World>, k: nat, i: nat, f: nat, p: nat)
    requires IsHistory(h) && k < |h| && i < |h[k].nodes| && p < |h[k].nodes| && HasConfirmedRow(h[k].nodes[i].core, f)
    ensures |h[k].nodes| <= MAX_PLAYERS && f in h[k].nodes[p].logs[p]
    ensures ConfirmedRow(h[k].nodes[i].core, f)[p] == h[k].nodes[p].logs[p][f]
  {
    HistoryKeeps(h, k);
    var w := h[k];
    assert Member(w.nodes[i], i, |w.nodes|, w.nodes[0].core.config.sessionId);
    ConfirmedRowIsActual(w.nodes[i], f, p);
    if p != i { assert LinkOk(w, i, p); }
  }

  lemma RowSize(h: seq<World>, k: nat, i: nat)
    requires IsHistory(h) && k < |h| && i < |h[k].nodes|
    ensures h[k].nodes[i].core.config.playerCount == |h[k].nodes|
  {
    HistoryKeeps(h, k);
    assert Member(h[k].nodes[i], i, |h[k].nodes|, h[k].nodes[0].core.config.sessionId);
  }

  /** No desync: whatever the network did, any two peers that can read a confirmed row, each at any moment,
      read the same row, and it is what every seat scheduled. */
  lemma NoDesync(h: seq<World>, k: nat, i: nat, m: nat, j: nat, f: nat)
    requires IsHistory(h) && k <= m < |h| && i < |h[k].nodes| && j < |h[m].nodes|
    requires HasConfirmedRow(h[k].nodes[i].core, f) && HasConfirmedRow(h[m].nodes[j].core, f)
    ensures ConfirmedRow(h[k].nodes[i].core, f) == ConfirmedRow(h[m].nodes[j].core, f)
    ensures |h[k].nodes| == |h[m].nodes| <= MAX_PLAYERS
    ensures forall p: nat :: p < |h[k].nodes| ==>
      f in h[k].nodes[p].logs[p] && ConfirmedRow(h[k].nodes[i].core, f)[p] == h[k].nodes[p].logs[p][f]
  {
    HistoryGrows(h, k, m);
    RowIsScheduled(h, k, i, f, i);
    var a, b := ConfirmedRow(h[k].nodes[i].core, f), ConfirmedRow(h[m].nodes[j].core, f);
    RowSize(h, k, i);
    RowSize(h, m, j);
    forall p: nat | p < |h[k].nodes|
      ensures f in h[k].nodes[p].logs[p] && a[p] == h[k].nodes[p].logs[p][f] && a[p] == b[p]
    {
      RowIsScheduled(h, k, i, f, p);
      RowIsScheduled(h, m, j, f, p);
    }
    assert forall p :: 0 <= p < MAX_PLAYERS ==> a[p] == b[p];
  }

  /** Rows do not only agree, they are there: in any history a peer that has simulated a frame within its rollback
      limit, has no rollback pending to it or before it, and has it confirmed for every seat, reads it, and reads
      what every seat scheduled. */
  lemma RowIsRead(h: seq<World>, k: nat, i: nat, f: nat)
    requires IsHistory(h) && k < |h| && i < |h[k].nodes|
    requires var n := h[k].nodes[i];
      && n.high - n.core.config.maxRollbackFrames < f <= n.core.last
      && (n.core.rollback == NONE || f < n.core.rollback)
      && forall p :: 0 <= p < n.core.config.playerCount ==> f <= n.core.lanes[p].confirmed
    ensures HasConfirmedRow(h[k].nodes[i].core, f) && |h[k].nodes| <= MAX_PLAYERS
    ensures forall p: nat :: p < |h[k].nodes| ==>
      f in h[k].nodes[p].logs[p] && ConfirmedRow(h[k].nodes[i].core, f)[p] == h[k].nodes[p].logs[p][f]
  {
    HistoryKeeps(h, k);
    RowIsThere(h[k].nodes[i], f);
    forall p: nat | p < |h[k].nodes|
      ensures f in h[k].nodes[p].logs[p] && ConfirmedRow(h[k].nodes[i].core, f)[p] == h[k].nodes[p].logs[p][f]
    {
      RowIsScheduled(h, k, i, f, p);
    }
  }

  // ---------------------------------------------------------------- retirement

  /** When a peer may retire, every peer holds all of its input through the terminal frame, and it holds
      all of theirs, exactly as scheduled. */
  lemma RetirementIsSafe(w: World, i: nat, terminal: nat, j: nat, f: nat)
    requires WorldOk(w) && i < |w.nodes| && j < |w.nodes| && i != j && CanRetire(w.nodes[i].core, terminal)
      && f <= terminal
    ensures f in w.nodes[j].logs[i] && f in w.nodes[i].logs[i] && w.nodes[j].logs[i][f] == w.nodes[i].logs[i][f]
    ensures f in w.nodes[i].logs[j] && f in w.nodes[j].logs[j] && w.nodes[i].logs[j][f] == w.nodes[j].logs[j][f]
  {
    assert Member(w.nodes[i], i, |w.nodes|, w.nodes[0].core.config.sessionId);
    assert Member(w.nodes[j], j, |w.nodes|, w.nodes[0].core.config.sessionId);
    assert Settled(w.nodes[i].core, terminal, j);
    assert LinkOk(w, i, j) && LinkOk(w, j, i);
    Unfolded(w.nodes[i]);
    Unfolded(w.nodes[j]);
    LaneHeld(w.nodes[i], j);
    LaneHeld(w.nodes[j], i);
  }

  /** What a peer may retire on at one moment, the other peer still has at any later one. */
  lemma RetiredStays(h: seq<World>, k: nat, i: nat, terminal: nat, m: nat, j: nat)
    requires IsHistory(h) && k <= m < |h| && i < |h[k].nodes| && j < |h[k].nodes| && i != j
    requires CanRetire(h[k].nodes[i].core, terminal)
    ensures WorldOk(h[m]) && |h[m].nodes| == |h[k].nodes| && Member(h[k].nodes[i], i, |h[m].nodes|, SessionOf(h[m]))
    ensures terminal <= h[m].nodes[j].core.Local().confirmed && terminal <= h[m].nodes[j].core.lanes[i].confirmed
  {
    HistoryKeeps(h, k);
    HistoryKeeps(h, m);
    HistoryGrows(h, k, m);
    var w, w' := h[k], h[m];
    assert Member(w.nodes[i], i, |w.nodes|, SessionOf(w)) && Member(w.nodes[j], j, |w.nodes|, SessionOf(w));
    assert RemembersAt(w.nodes[0], w'.nodes[0]) && RemembersAt(w.nodes[j], w'.nodes[j]);
    assert Settled(w.nodes[i].core, terminal, j);
    HeldIsOwn(w, i, j);
    FrontierFollows(w.nodes[j], w'.nodes[j], i);
    FrontierFollows(w.nodes[j], w'.nodes[j], j);
  }

  /** The cached terminal acknowledgement of a retired peer is accepted whenever it arrives, however long after
      its sender retired, and it alone lifts both of the slower peer's frontiers for that peer to the terminal
      frame. */
  lemma TerminalAckSuffices(h: seq<World>, k: nat, i: nat, terminal: nat, m: nat, j: nat, sequence: nat,
      ackSequence: nat)
    requires IsHistory(h) && k <= m < |h| && i < |h[k].nodes| && j < |h[k].nodes| && i != j && terminal < LIMIT
      && CanRetire(h[k].nodes[i].core, terminal)
    ensures |h[m].nodes| == |h[k].nodes| <= MAX_PLAYERS
    ensures var packet, n := TerminalAck(h[k].nodes[i].core, terminal, sequence, ackSequence), h[m].nodes[j];
      && Apply(n.core, packet).ok
      && Settled(Received(n, packet).core, terminal, i)
      && Received(n, packet).logs == n.logs
  {
    RetiredStays(h, k, i, terminal, m, j);
    var packet, n := TerminalAck(h[k].nodes[i].core, terminal, sequence, ackSequence), h[m].nodes[j];
    assert Member(n, j, |h[m].nodes|, SessionOf(h[m]));
    Unfolded(n);
    WholeOrNothing(n.core, packet);
    Delivered(n, packet);
  }

  // ---------------------------------------------------------------- which honest packets are accepted

  lemma HonestIsAddressed(w: World, l: Letter)
    requires WorldOk(w) && l in w.soup && LetterOk(w, l)
    ensures w.nodes[l.to].core.Remote(l.packet.senderPlayer) && Addressed(w.nodes[l.to].core, l.packet)
    ensures Plausible(w.nodes[l.to].core, l.packet) == Near(w.nodes[l.to].core, l.packet)
    ensures l.packet.inputs != [] ==> l.packet.latestFrame <= w.nodes[l.packet.senderPlayer].core.Local().confirmed
  {
    var t, s, p := l.to, l.packet.senderPlayer, l.packet;
    assert Member(w.nodes[t], t, |w.nodes|, w.nodes[0].core.config.sessionId);
    assert Member(w.nodes[s], s, |w.nodes|, w.nodes[0].core.config.sessionId);
    Unfolded(w.nodes[t]);
    HeldIsOwn(w, s, t);
    if p.inputs != [] {
      OwnLead(w.nodes[s], t);
      assert p.latestFrame in w.nodes[s].logs[s];
    }
  }

  lemma HonestSampleAt(w: World, l: Letter, k: nat)
    requires WorldOk(w) && l in w.soup && LetterOk(w, l) && k < |l.packet.inputs|
    ensures AcceptableAt(w.nodes[l.to], l.packet, k) == !CollidesAt(w.nodes[l.to].core, l.packet, k)
  {
    var t, s, p := l.to, l.packet.senderPlayer, l.packet;
    HonestIsAddressed(w, l);
    assert LinkOk(w, t, s);
    assert p.firstInputFrame + k in w.nodes[s].logs[s];
  }

  /** Exactly when an honest packet is accepted, whatever the settings: it reaches less than a ring past the
      receiver's simulation, and the slot of each of its frames is free for that frame. */
  lemma HonestDelivery(w: World, l: Letter)
    requires WorldOk(w) && l in w.soup && LetterOk(w, l)
    ensures Apply(w.nodes[l.to].core, l.packet).ok
      == (Near(w.nodes[l.to].core, l.packet) && !AnyCollides(w.nodes[l.to].core, l.packet))
  {
    var p, n := l.packet, w.nodes[l.to];
    HonestIsAddressed(w, l);
    AcceptedExactly(n, p);
    forall k: nat | k < |p.inputs| ensures AcceptableAt(n, p, k) == !CollidesAt(n.core, p, k) {
      HonestSampleAt(w, l, k);
    }
    SameSamples(n, p);
  }

  lemma SameSamples(n: Node, p: InputPacket)
    requires p.senderPlayer < MAX_PLAYERS && p.Consistent()
    requires forall k: nat :: k < |p.inputs| ==> AcceptableAt(n, p, k) == !CollidesAt(n.core, p, k)
    ensures (forall k: nat :: k < |p.inputs| ==> AcceptableAt(n, p, k)) == !AnyCollides(n.core, p)
  {
    if AnyCollides(n.core, p) {
      var k: nat :| k < |p.inputs| && CollidesAt(n.core, p, k);
      assert !AcceptableAt(n, p, k);
    }
  }

  // ---------------------------------------------------------------- with room between the leads and the ring

  /** Room between the two leads and the ring. */
  predicate Roomy(w: World, s: nat, t: nat)
    requires s < |w.nodes| && t < |w.nodes|
  {
    Lead(w.nodes[s]) + Lead(w.nodes[t]) + w.nodes[t].core.config.maxRollbackFrames < RING
  }

  /** The slot has gone on to a frame a whole ring later, though this one has not expired. */
  predicate Overtaken(n: Node, s: nat, f: nat)
    requires s < MAX_PLAYERS
  {
    !n.core.TooOldFrame(f) && n.core.lanes[s].ring[f % RING].frame > f
  }

  predicate OvertakenAt(n: Node, packet: InputPacket, k: nat)
    requires packet.senderPlayer < MAX_PLAYERS && k < |packet.inputs| && packet.Consistent()
  {
    Overtaken(n, packet.senderPlayer, packet.firstInputFrame + k)
  }

  predicate AnyOvertaken(n: Node, packet: InputPacket)
    requires packet.senderPlayer < MAX_PLAYERS && packet.Consistent()
  {
    exists k: nat :: k < |packet.inputs| && OvertakenAt(n, packet, k)
  }

  /** A frame not far ahead collides only with a later one. */
  lemma CollisionIsOvertaking(n: Node, s: nat, f: nat)
    requires NodeOk(n) && n.core.Remote(s)
    requires f < n.core.lanes[s].confirmed + RING && f - RING <= n.core.last - n.core.config.maxRollbackFrames
    ensures Collides(n.core, s, f) == Overtaken(n, s, f)
  {
    Unfolded(n);
    LaneHeld(n, s);
    var occupant := n.core.lanes[s].ring[f % RING];
    assert SlotOk(occupant, f % RING, n.logs[s]);
    if occupant.present && occupant.frame > f { SameSlot(occupant.frame, f); }
    if occupant.present && occupant.frame < f { SameSlot(f, occupant.frame); }
  }

  /** How far honest input can be ahead of its receiver. */
  lemma ReachOfInput(w: World, s: nat, t: nat)
    requires WorldOk(w) && s < |w.nodes| && t < |w.nodes| && s != t
    ensures w.nodes[s].core.Local().confirmed
      <= w.nodes[t].core.lanes[s].confirmed + Lead(w.nodes[s]) + Lead(w.nodes[t])
    ensures w.nodes[s].core.Local().confirmed <= w.nodes[t].core.last + Lead(w.nodes[s]) + Lead(w.nodes[t])
  {
    UnacknowledgedBound(w, s, t);
    HeldIsOwn(w, s, t);
    assert Member(w.nodes[s], s, |w.nodes|, w.nodes[0].core.config.sessionId);
    OwnLead(w.nodes[s], t);
    Unfolded(w.nodes[t]);
    assert LinkOk(w, s, t);
  }

  lemma CollisionAt(w: World, l: Letter, k: nat)
    requires WorldOk(w) && l in w.soup && LetterOk(w, l) && Roomy(w, l.packet.senderPlayer, l.to)
      && k < |l.packet.inputs|
    ensures CollidesAt(w.nodes[l.to].core, l.packet, k) == OvertakenAt(w.nodes[l.to], l.packet, k)
  {
    HonestIsAddressed(w, l);
    ReachOfInput(w, l.packet.senderPlayer, l.to);
    CollisionIsOvertaking(w.nodes[l.to], l.packet.senderPlayer, l.packet.firstInputFrame + k);
  }

  lemma SameFrames(n: Node, p: InputPacket)
    requires p.senderPlayer < MAX_PLAYERS && p.Consistent()
    requires forall k: nat :: k < |p.inputs| ==> CollidesAt(n.core, p, k) == OvertakenAt(n, p, k)
    ensures AnyCollides(n.core, p) == AnyOvertaken(n, p)
  {
    if AnyCollides(n.core, p) {
      var k: nat :| k < |p.inputs| && CollidesAt(n.core, p, k);
      assert OvertakenAt(n, p, k);
    }
    if AnyOvertaken(n, p) {
      var k: nat :| k < |p.inputs| && OvertakenAt(n, p, k);
      assert CollidesAt(n.core, p, k);
    }
  }

  /** With that room, the one way an honest packet is refused: a delayed duplicate with a frame that has not
      expired but whose slot already holds the frame a ring later. */
  lemma RoomyDelivery(w: World, l: Letter)
    requires WorldOk(w) && l in w.soup && LetterOk(w, l) && Roomy(w, l.packet.senderPlayer, l.to)
    ensures Apply(w.nodes[l.to].core, l.packet).ok == !AnyOvertaken(w.nodes[l.to], l.packet)
  {
    var p, n := l.packet, w.nodes[l.to];
    HonestDelivery(w, l);
    HonestIsAddressed(w, l);
    ReachOfInput(w, p.senderPlayer, l.to);
    forall k: nat | k < |p.inputs| ensures CollidesAt(n.core, p, k) == OvertakenAt(n, p, k) { CollisionAt(w, l, k); }
    SameFrames(n, p);
  }

  // ---------------------------------------------------------------- the redundant window

  /** A local frame is still in the ring exactly when it is one of the last ring of them. */
  lemma OwnFinds(n: Node, f: nat)
    requires NodeOk(n) && f <= n.core.Local().confirmed
    ensures Finds(n.core.Local().ring, f) == (n.core.Local().confirmed - f < RING)
  {
    Unfolded(n);
    var i := n.core.config.localPlayer;
    LaneHeld(n, i);
    if n.core.Local().confirmed - f < RING {
      RetainedIsFound(n.core.lanes[i].ring, n.logs[i], Floor(n, i), f);
    } else {
      assert f + RING in n.logs[i] && (f + RING) % RING == f % RING;
    }
  }

  /** The samples from `first` on reach the newest local frame, or the limit of a packet. */
  lemma OwnSamples(n: Node, first: nat)
    requires NodeOk(n) && first <= n.core.Local().confirmed
    ensures var top := n.core.Local().confirmed;
      |Samples(n.core.Local().ring, first, top, MAX_WINDOW)|
      == if top - first >= RING then 0 else if top + 1 - first < MAX_WINDOW then top + 1 - first else MAX_WINDOW
  {
    var ring, top: nat := n.core.Local().ring, n.core.Local().confirmed;
    var count := |Samples(ring, first, top, MAX_WINDOW)|;
    SamplesFound(ring, first, top, MAX_WINDOW);
    OwnFinds(n, first);
    if top - first < RING && first + count <= top { OwnFinds(n, first + count); }
  }

  /** What a peer's newest packet is. */
  lemma NewestPacket(n: Node, j: nat, top: nat, sequence: nat, ackSequence: nat)
    requires NodeOk(n) && n.core.Remote(j) && NONE <= n.core.peerAck[j] < top == n.core.Local().confirmed
    ensures var p, first := Built(n.core, j, top, sequence, ackSequence), FirstUnacknowledged(n.core, j, top);
      && first <= top
      && (p.inputs != []) == (top - first < RING)
      && (p.inputs != [] ==> p.firstInputFrame == first)
      && (p.inputs != [] && p.latestFrame == top) == (top - first < MAX_WINDOW)
  {
    OwnSamples(n, FirstUnacknowledged(n.core, j, top));
  }

  lemma SenderView(w: World, i: nat, j: nat)
    requires WorldOk(w) && i < |w.nodes| && j < |w.nodes| && i != j
    ensures NodeOk(w.nodes[i]) && w.nodes[i].core.Remote(j) && NONE <= w.nodes[i].core.peerAck[j]
    ensures w.nodes[i].core.config.localPlayer == i
  {
    assert Member(w.nodes[i], i, |w.nodes|, w.nodes[0].core.config.sessionId);
    Unfolded(w.nodes[i]);
    assert LinkOk(w, i, j);
  }

  /** Exactly when a packet begins at the first unacknowledged input: before the first acknowledgement, when the
      newest frame is within the window; afterwards, when that input is still in the ring. */
  lemma WindowBegins(w: World, i: nat, j: nat, top: nat, sequence: nat, ackSequence: nat)
    requires WorldOk(w) && i < |w.nodes| && j < |w.nodes| && i != j
    requires w.nodes[i].core.peerAck[j] < top == w.nodes[i].core.Local().confirmed
    ensures var p, ack := Built(w.nodes[i].core, j, top, sequence, ackSequence), w.nodes[i].core.peerAck[j];
      (p.inputs != [] && p.firstInputFrame == ack + 1) == if ack == NONE then top < MAX_WINDOW else top - ack <= RING
  {
    SenderView(w, i, j);
    NewestPacket(w.nodes[i], j, top, sequence, ackSequence);
  }

  /** Exactly when a packet carries every unacknowledged input. */
  lemma WindowIsComplete(w: World, i: nat, j: nat, top: nat, sequence: nat, ackSequence: nat)
    requires WorldOk(w) && i < |w.nodes| && j < |w.nodes| && i != j
    requires w.nodes[i].core.peerAck[j] < top == w.nodes[i].core.Local().confirmed
    ensures var p, ack := Built(w.nodes[i].core, j, top, sequence, ackSequence), w.nodes[i].core.peerAck[j];
      (p.inputs != [] && p.firstInputFrame == ack + 1 && p.latestFrame == top) == (top - ack <= MAX_WINDOW)
  {
    SenderView(w, i, j);
    NewestPacket(w.nodes[i], j, top, sequence, ackSequence);
  }

  /** With tight leads it always does. */
  lemma TightWindow(w: World, i: nat, j: nat, top: nat, sequence: nat, ackSequence: nat)
    requires WorldOk(w) && i < |w.nodes| && j < |w.nodes| && i != j && Tight(w, i, j)
    requires w.nodes[i].core.peerAck[j] < top == w.nodes[i].core.Local().confirmed
    ensures var p := Built(w.nodes[i].core, j, top, sequence, ackSequence);
      p.inputs != [] && p.firstInputFrame == w.nodes[i].core.peerAck[j] + 1 && p.latestFrame == top
  {
    UnacknowledgedBound(w, i, j);
    WindowIsComplete(w, i, j, top, sequence, ackSequence);
  }

  /** With tight leads every delivered packet leaves its receiver confirmed through the packet's last
      frame, however late it comes. */
  lemma DeliveryAdvances(w: World, l: Letter)
    requires WorldOk(w) && Enabled(w, Deliver(l)) && LetterOk(w, l) && l.packet.inputs != []
    requires Tight(w, l.packet.senderPlayer, l.to)
    ensures l.packet.latestFrame <= Next(w, Deliver(l)).nodes[l.to].core.lanes[l.packet.senderPlayer].confirmed
  {
    var t, s, p, n := l.to, l.packet.senderPlayer, l.packet, w.nodes[l.to];
    ReceiveKeeps(n, p);
    Unfolded(n);
    RoomyDelivery(w, l);
    if Apply(n.core, p).ok {
      DeliverLink(w, l, Received(n, p));
    } else {
      var k: nat :| k < |p.inputs| && OvertakenAt(n, p, k);
      assert Member(n, t, |w.nodes|, w.nodes[0].core.config.sessionId);
      assert LinkOk(w, t, s);
      OvertakenIsConfirmed(n, s, p.firstInputFrame + k);
    }
  }

  lemma OvertakenIsConfirmed(n: Node, s: nat, f: nat)
    requires NodeOk(n) && s < n.core.config.playerCount && Overtaken(n, s, f)
    requires UpTo(n.logs[s], n.core.lanes[s].confirmed)
    ensures f + RING <= n.core.lanes[s].confirmed
  {
    Unfolded(n);
    LaneHeld(n, s);
    var occupant := n.core.lanes[s].ring[f % RING];
    assert SlotOk(occupant, f % RING, n.logs[s]);
    SameSlot(occupant.frame, f);
  }
}
