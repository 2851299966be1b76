/** One core driven by its title, and everything that holds in every run of it, whatever packets arrive.

    The driver captures local input in order and at most one frame ahead of the simulation, simulates
    only the next frame as `PrepareFrame` decides it and never with a rollback pending, rewinds exactly
    to the requested frame, and takes remote input only from packets. */
module CoreRun {
  import opened Folding
  import opened InputLane
  import opened CoreState

  /** A core, the write-once log of every input it has known, and the last frame it ever simulated. */
  datatype Node = Node(core: Core, logs: Logs, high: int)

  type Logs = logs: seq<Log> | |logs| == MAX_PLAYERS witness [map[], map[], map[]]

  /** How far the simulation may run ahead of a remote player's confirmed input. */
  function Horizon(c: Core): nat { if c.config.allowPrediction then c.config.maxRollbackFrames else 0 }

  /** From this frame on, whatever is known of player `p` is still in the ring. */
  function Floor(n: Node, p: nat): int
    requires p < MAX_PLAYERS
  {
    if p == n.core.config.localPlayer then n.core.lanes[p].confirmed + 1 - RING
    else n.high + 1 - n.core.config.maxRollbackFrames
  }

  ghost predicate LaneHolds(n: Node, p: nat)
    requires p < MAX_PLAYERS
  {
    forall u: int :: Folded(LaneMark, u) ==> LaneOk(n.core.lanes[p], n.logs[p], Floor(n, p))
  }

  lemma LaneHeld(n: Node, p: nat)
    requires p < MAX_PLAYERS && LaneHolds(n, p)
    ensures LaneOk(n.core.lanes[p], n.logs[p], Floor(n, p))
  {
    assert Folded(LaneMark, 0);
  }

  /** The simulation never ran further ahead of a remote player than it may. */
  predicate Paced(n: Node, p: nat)
    requires p < MAX_PLAYERS
  {
    p == n.core.config.localPlayer || n.high - Horizon(n.core) <= n.core.lanes[p].confirmed
  }

  /** The recorded frame was simulated with another input than is known now. */
  ghost predicate Mispredicted(n: Node, p: nat, f: nat)
    requires p < MAX_PLAYERS
  {
    n.core.Simulated(f) && f in n.logs[p] && n.core.used[f % RING].inputs[p] != n.logs[p][f]
  }

  ghost predicate MispredictedAt(n: Node, f: nat) {
    exists p: nat :: p < MAX_PLAYERS && p < n.core.config.playerCount && Mispredicted(n, p, f)
  }

  /** A pending rollback names a misprediction. */
  ghost predicate Meant(n: Node) {
    forall u: int :: Folded(MeantMark, u) ==> (n.core.rollback != NONE ==> MispredictedAt(n, n.core.rollback))
  }

  lemma MeantStays(n: Node, n': Node)
    requires Meant(n) && n'.core.rollback == n.core.rollback && n'.core.used == n.core.used
    requires n'.core.config == n.core.config && Grew(n.logs, n'.logs)
    ensures Meant(n')
  {
    assert Folded(MeantMark, 0);
    if n.core.rollback != NONE {
      var p: nat :| p < MAX_PLAYERS && p < n.core.config.playerCount && Mispredicted(n, p, n.core.rollback);
      assert Mispredicted(n', p, n.core.rollback);
    }
  }

  /** A simulated input is the actual one when it was known then or is known now, except from the
      pending rollback frame on. */
  ghost predicate CellOk(slot: UsedSlot, p: nat, log: Log, rollback: int)
    requires UsedShaped(slot) && p < MAX_PLAYERS
  {
    && (!slot.predicted[p] ==> slot.frame in log && slot.inputs[p] == log[slot.frame])
    && (slot.frame in log ==> slot.inputs[p] == log[slot.frame] || (rollback != NONE && rollback <= slot.frame))
  }

  ghost predicate RowOk(c: Core, logs: Logs, k: nat)
    requires k < RING
  {
    c.used[k].frame == NONE ||
    (&& 0 <= c.used[k].frame <= c.last && c.used[k].frame % RING == k
     && !c.used[k].predicted[c.config.localPlayer]
     && forall p :: 0 <= p < MAX_PLAYERS && p < c.config.playerCount ==> CellOk(c.used[k], p, logs[p], c.rollback))
  }

  ghost predicate RowsOk(c: Core, logs: Logs)
  {
    forall k :: 0 <= k < RING ==> RowOk(c, logs, k)
  }

  ghost predicate FrontiersOk(n: Node)
  {
    var c := n.core;
    && n.high - Horizon(c) <= c.last <= n.high < LIMIT && NONE <= n.high
    && (c.rollback == NONE || n.high - Horizon(c) < c.rollback <= c.last)
    && c.Local().confirmed <= n.high + 1 + c.config.inputDelay
  }

  /** The last ring of simulated frames is on record. */
  ghost predicate HistoryOk(c: Core, high: int)
  {
    forall f :: 0 <= f <= c.last && high - RING < f ==> c.used[f % RING].frame == f
  }

  ghost predicate LocalOk(log: Log, confirmed: int) {
    forall f :: f in log ==> f <= confirmed
  }

  ghost predicate NodeHolds(n: Node) {
    && n.core.configured
    && (forall p :: 0 <= p < n.core.config.playerCount ==> LaneHolds(n, p))
    && LocalOk(n.logs[n.core.config.localPlayer], n.core.Local().confirmed)
    && (forall p :: 0 <= p < n.core.config.playerCount ==> Paced(n, p))
    && RowsOk(n.core, n.logs) && FrontiersOk(n) && HistoryOk(n.core, n.high) && Meant(n)
  }

  /** What holds in every state of every run. */
  ghost predicate NodeOk(n: Node) {
    forall u: int :: Folded(NodeMark, u) ==> NodeHolds(n)
  }

  lemma Unfolded(n: Node)
    requires NodeOk(n)
    ensures NodeHolds(n)
  {
    assert Folded(NodeMark, 0);
  }

  lemma SameSlot(a: nat, b: nat)
    requires a % RING == b % RING && b < a
    ensures b + RING <= a
  {}

  // ---------------------------------------------------------------- reset

  function LeadInLog(count: nat): (log: Log)
    ensures forall f :: f in log <==> 0 <= f < count
    ensures forall f :: f in log ==> log[f] == NEUTRAL
  {
    if count == 0 then map[] else LeadInLog(count - 1)[count - 1 := NEUTRAL]
  }

  function Started(config: CoreConfig): Node
    requires config.Usable()
  {
    Node(ResetTo(config), [map[], map[], map[]][config.localPlayer := LeadInLog(config.inputDelay)], NONE)
  }

  lemma LeadInShows(ring: Frames, log: Log, count: nat)
    requires count < RING / 4 && |ring| == RING
    requires forall k :: 0 <= k < RING ==> ring[k] == if k < count then InputSlot(k, NEUTRAL, true) else EMPTY_SLOT
    requires forall f :: f in log <==> 0 <= f < count
    requires forall f :: f in log ==> log[f] == NEUTRAL
    ensures Shows(ring, log) && Retained(ring, log, count - RING) && NeverBack(ring, log) && PrefixEnds(log, count - 1)
  {
    forall k | 0 <= k < RING ensures SlotOk(ring[k], k, log) {}
  }

  lemma LeadInLane(count: nat)
    requires count < RING / 4
    ensures var ring := LeadIn(Filled(EMPTY_SLOT), count);
      Advanced(ring, NONE) == count - 1 && LaneOk(Lane(ring, count - 1), LeadInLog(count), count - RING)
  {
    var ring, log := LeadIn(Filled(EMPTY_SLOT), count), LeadInLog(count);
    LeadInShows(ring, log, count);
    AdvancedIsPrefix(ring, log, count - RING, NONE);
    PrefixUnique(log, Advanced(ring, NONE), count - 1);
  }

  /** Every run starts in a good state: the delay's lead-in is neutral input, known from the start. */
  lemma StartsOk(config: CoreConfig)
    requires config.Usable()
    ensures NodeOk(Started(config))
  {
    var n := Started(config);
    LeadInLane(config.inputDelay);
    forall p | 0 <= p < config.playerCount ensures LaneHolds(n, p) {
      if p != config.localPlayer { assert LaneOk(n.core.lanes[p], map[], Floor(n, p)); }
    }
  }

  // ---------------------------------------------------------------- one remote sample

  /** The sample may be submitted: expired, known already, or replacing only what is no longer needed. */
  ghost predicate Ready(n: Node, p: nat, f: nat, input: FrameInput)
    requires p < MAX_PLAYERS
  {
    var ring := n.core.lanes[p].ring;
    || n.core.TooOldFrame(f)
    || (Finds(ring, f) && ring[f % RING].input == input)
    || Admits(ring, f, Floor(n, p))
  }

  function Submitted(n: Node, p: nat, f: nat, input: FrameInput): Node
    requires p < MAX_PLAYERS && f < LIMIT
  {
    n.(core := Submit(n.core, p, f, input).0,
       logs := if !n.core.Remote(p) || n.core.TooOldFrame(f) || Finds(n.core.lanes[p].ring, f) then n.logs
               else n.logs[p := n.logs[p][f := input]])
  }

  lemma RowsAfterSubmit(c: Core, c': Core, logs: Logs, p: nat, f: nat, input: FrameInput)
    requires p < MAX_PLAYERS && RowsOk(c, logs)
    requires f !in logs[p] && p != c.config.localPlayer && 0 <= f
    requires c'.used == c.used && c'.last == c.last && c'.config == c.config
    requires c'.rollback == c.rollback ||
      (c'.rollback == f && (c.rollback == NONE || f < c.rollback))
    requires c.used[f % RING].frame == f && c.used[f % RING].inputs[p] != input ==>
      c'.rollback != NONE && c'.rollback <= f
    ensures RowsOk(c', logs[p := logs[p][f := input]])
  {
    var logs' := logs[p := logs[p][f := input]];
    forall k | 0 <= k < RING ensures RowOk(c', logs', k) {
      assert RowOk(c, logs, k);
      if c.used[k].frame != NONE {
        forall q | 0 <= q < MAX_PLAYERS && q < c.config.playerCount
          ensures CellOk(c'.used[k], q, logs'[q], c'.rollback)
        {
          assert CellOk(c.used[k], q, logs[q], c.rollback);
        }
      }
    }
  }

  /** The only new rollback is to the sample's own frame, whose simulation used another input. */
  lemma MeantAfterSubmit(n: Node, p: nat, f: nat, input: FrameInput, s: Node)
    requires Meant(n) && n.core.Remote(p) && f < LIMIT && !n.core.TooOldFrame(f) && f !in n.logs[p]
    requires !Finds(n.core.lanes[p].ring, f) && s == Submitted(n, p, f, input)
    ensures Meant(s)
  {
    if s.core.rollback == n.core.rollback { MeantStays(n, s); } else { assert Mispredicted(s, p, f); }
  }

  lemma SubmitFresh(n: Node, p: nat, f: nat, input: FrameInput)
    requires NodeHolds(n) && n.core.Remote(p) && !n.core.TooOldFrame(f) && Admits(n.core.lanes[p].ring, f, Floor(n, p))
    ensures !Finds(n.core.lanes[p].ring, f) && f !in n.logs[p]
    ensures LaneHolds(Submitted(n, p, f, input), p) && n.high - Horizon(n.core) < f
    ensures RowsOk(Submitted(n, p, f, input).core, Submitted(n, p, f, input).logs)
    ensures Submit(n.core, p, f, input).1 != ConflictingConfirmedInput && Paced(Submitted(n, p, f, input), p)
    ensures Meant(Submitted(n, p, f, input))
  {
    LaneHeld(n, p);
    assert Paced(n, p);
    LaneAfterStore(n.core.lanes[p], n.logs[p], Floor(n, p), f, input);
    MeantAfterSubmit(n, p, f, input, Submitted(n, p, f, input));
    assert RowOk(n.core, n.logs, f % RING);
    RowsAfterSubmit(n.core, Submit(n.core, p, f, input).0, n.logs, p, f, input);
  }

  /** A ready sample never conflicts, and keeps the core good: new input enters the log once, and a
      wrong prediction moves the pending rollback down to its frame. */
  lemma SubmitKeeps(n: Node, p: nat, f: nat, input: FrameInput)
    requires NodeOk(n) && n.core.Remote(p) && f < LIMIT && Ready(n, p, f, input)
    ensures NodeOk(Submitted(n, p, f, input))
    ensures Submit(n.core, p, f, input).1 != ConflictingConfirmedInput && Submit(n.core, p, f, input).1 != InvalidPlayer
    ensures f in n.logs[p] ==> Submitted(n, p, f, input).logs == n.logs
  {
    Unfolded(n);
    var s := Submitted(n, p, f, input);
    if !n.core.TooOldFrame(f) && !Finds(n.core.lanes[p].ring, f) {
      SubmitFresh(n, p, f, input);
      forall q | 0 <= q < n.core.config.playerCount ensures LaneHolds(s, q) {
        if q != p { assert LaneHolds(n, q); assert Floor(s, q) == Floor(n, q); }
      }
      forall q | 0 <= q < n.core.config.playerCount ensures Paced(s, q) {
        if q != p { assert Paced(n, q); }
      }
    } else {
      assert s.core == n.core;
    }
  }

  /** A later sample of the same packet stays ready. */
  lemma ReadyStays(n: Node, p: nat, f: nat, input: FrameInput, g: nat, value: FrameInput)
    requires n.core.Remote(p) && f < LIMIT && f < g < f + RING
    requires Ready(n, p, g, value)
    ensures Ready(Submitted(n, p, f, input), p, g, value)
  {}

  // ---------------------------------------------------------------- a packet

  ghost predicate AllReady(n: Node, packet: InputPacket, i: nat)
    requires packet.senderPlayer < MAX_PLAYERS
  {
    forall u: int :: Folded(ReadyMark, u) ==> forall k :: i <= k < |packet.inputs| && 0 <= packet.firstInputFrame ==>
      Ready(n, packet.senderPlayer, packet.firstInputFrame + k, packet.inputs[k])
  }

  /** The samples of a packet from position `i` on, one after another. */
  function Committed(n: Node, packet: InputPacket, i: nat): (r: Node)
    requires packet.senderPlayer < MAX_PLAYERS && packet.Consistent() && i <= |packet.inputs|
    decreases |packet.inputs| - i, 1
  {
    if i == |packet.inputs| then n
    else Onward(Submitted(n, packet.senderPlayer, packet.firstInputFrame + i, packet.inputs[i]), packet, i)
  }

  function Onward(n: Node, packet: InputPacket, i: nat): (r: Node)
    requires packet.senderPlayer < MAX_PLAYERS && packet.Consistent() && i < |packet.inputs|
    decreases |packet.inputs| - i, 0
  {
    Committed(n, packet, i + 1)
  }

  lemma CommittedNext(n: Node, packet: InputPacket, i: nat, s: Node, r: Node)
    requires packet.senderPlayer < MAX_PLAYERS && packet.Consistent() && i < |packet.inputs|
    requires s == Submitted(n, packet.senderPlayer, packet.firstInputFrame + i, packet.inputs[i])
    requires r == Committed(n, packet, i)
    ensures r == Committed(s, packet, i + 1)
  {}

  /** A log only grows: what it holds it keeps. */
  ghost predicate Grew(logs: Logs, logs': Logs) {
    forall p, f :: 0 <= p < |logs| && f in logs[p] ==> f in logs'[p] && logs'[p][f] == logs[p][f]
  }

  lemma ReadyRest(n: Node, packet: InputPacket, i: nat)
    requires n.core.Remote(packet.senderPlayer)
    requires packet.Consistent() && i < |packet.inputs| <= MAX_WINDOW && AllReady(n, packet, i)
    ensures AllReady(Submitted(n, packet.senderPlayer, packet.firstInputFrame + i, packet.inputs[i]), packet, i + 1)
  {
    var first, sender := packet.firstInputFrame, packet.senderPlayer;
    var s := Submitted(n, sender, first + i, packet.inputs[i]);
    assert Folded(ReadyMark, 0);
    forall k | i + 1 <= k < |packet.inputs| ensures Ready(s, sender, first + k, packet.inputs[k]) {
      ReadyStays(n, sender, first + i, packet.inputs[i], first + k, packet.inputs[k]);
    }
  }

  lemma SubmitGrows(n: Node, p: nat, f: nat, input: FrameInput)
    requires NodeOk(n) && n.core.Remote(p) && f < LIMIT && Ready(n, p, f, input)
    ensures Grew(n.logs, Submitted(n, p, f, input).logs)
  {
    Unfolded(n);
    SubmitKeeps(n, p, f, input);
    if !n.core.TooOldFrame(f) && !Finds(n.core.lanes[p].ring, f) { SubmitFresh(n, p, f, input); }
  }

  lemma GrewTrans(a: Logs, b: Logs, c: Logs)
    requires Grew(a, b) && Grew(b, c)
    ensures Grew(a, c)
  {}

  /** One sample of a packet: the core stays good, no known input changes, the rest stays ready. */
  lemma CommitOne(n: Node, packet: InputPacket, i: nat, s: Node)
    requires NodeOk(n) && n.core.Remote(packet.senderPlayer)
    requires packet.Consistent() && i < |packet.inputs| <= MAX_WINDOW && AllReady(n, packet, i)
    requires s == Submitted(n, packet.senderPlayer, packet.firstInputFrame + i, packet.inputs[i])
    ensures NodeOk(s) && s.core.config == n.core.config && s.core.Remote(packet.senderPlayer)
    ensures Grew(n.logs, s.logs) && AllReady(s, packet, i + 1)
  {
    var p, f, input := packet.senderPlayer, packet.firstInputFrame + i, packet.inputs[i];
    assert Folded(ReadyMark, 0);
    assert Ready(n, p, f, input);
    SubmitKeeps(n, p, f, input);
    SubmitGrows(n, p, f, input);
    ReadyRest(n, packet, i);
  }

  lemma {:induction false} CommitKeeps(n: Node, packet: InputPacket, i: nat)
    requires NodeOk(n) && n.core.Remote(packet.senderPlayer)
    requires packet.Consistent() && i <= |packet.inputs| <= MAX_WINDOW && AllReady(n, packet, i)
    ensures NodeOk(Committed(n, packet, i)) && Grew(n.logs, Committed(n, packet, i).logs)
    ensures Committed(n, packet, i).core.config == n.core.config
    decreases |packet.inputs| - i
  {
    if i < |packet.inputs| {
      var s := Submitted(n, packet.senderPlayer, packet.firstInputFrame + i, packet.inputs[i]);
      var r := Committed(n, packet, i);
      CommitOne(n, packet, i, s);
      CommittedNext(n, packet, i, s, r);
      CommitKeeps(s, packet, i + 1);
      GrewTrans(n.logs, s.logs, r.logs);
    }
  }

  /** The core computed by the commit loop is the core of the node. */
  lemma {:induction false} CommitCore(n: Node, packet: InputPacket, i: nat, worst: RemoteInputResult)
    requires n.core.Remote(packet.senderPlayer) && packet.Consistent() && i <= |packet.inputs|
    requires CommitFrom(n.core, packet, i, worst).ok
    ensures CommitFrom(n.core, packet, i, worst).core == Committed(n, packet, i).core
    decreases |packet.inputs| - i
  {
    if i < |packet.inputs| {
      var p, f, input := packet.senderPlayer, packet.firstInputFrame + i, packet.inputs[i];
      var s, r := Submitted(n, p, f, input), Submit(n.core, p, f, input);
      assert s.core == r.0 && s.core.Remote(p);
      CommittedNext(n, packet, i, s, Committed(n, packet, i));
      CommitCore(s, packet, i + 1, Worse(worst, r.1));
    }
  }

  ghost predicate Takes(n: Node, r: Node, p: nat, first: nat, inputs: seq<FrameInput>)
    requires p < MAX_PLAYERS
  {
    && r.core == n.core.(lanes := r.core.lanes, rollback := r.core.rollback) && r.high == n.high
    && (forall q :: 0 <= q < MAX_PLAYERS && q != p ==> r.logs[q] == n.logs[q] && r.core.lanes[q] == n.core.lanes[q])
    && (forall f :: f in n.logs[p] ==> f in r.logs[p] && r.logs[p][f] == n.logs[p][f])
    && (forall f :: f in r.logs[p] ==>
          f in n.logs[p] || (first <= f < first + |inputs| && r.logs[p][f] == inputs[f - first]))
    && (forall f: nat :: first <= f < first + |inputs| ==> f in r.logs[p] || n.core.TooOldFrame(f))
  }

  /** What a packet changes: only the sender's lane and log, by exactly its samples that are not expired. */
  ghost predicate Took(n: Node, r: Node, p: nat, first: nat, inputs: seq<FrameInput>)
    requires p < MAX_PLAYERS
  {
    forall u: int :: Folded(TookMark, u) ==> Takes(n, r, p, first, inputs)
  }

  /** The same of a single sample. */
  ghost predicate TookSample(n: Node, r: Node, p: nat, f: nat, input: FrameInput)
    requires p < MAX_PLAYERS
  {
    forall u: int :: Folded(SampleMark, u) ==> Takes(n, r, p, f, [input])
  }

  lemma TookOpened(n: Node, r: Node, p: nat, first: nat, inputs: seq<FrameInput>)
    requires p < MAX_PLAYERS && Took(n, r, p, first, inputs)
    ensures Takes(n, r, p, first, inputs)
  {
    assert Folded(TookMark, 0);
  }

  lemma OneSample(n: Node, packet: InputPacket, i: nat, r: Node) returns (s: Node)
    requires NodeOk(n) && n.core.Remote(packet.senderPlayer)
    requires packet.Consistent() && i < |packet.inputs| <= MAX_WINDOW && AllReady(n, packet, i)
    requires r == Committed(n, packet, i)
    ensures NodeOk(s) && s.core.Remote(packet.senderPlayer) && AllReady(s, packet, i + 1)
    ensures r == Committed(s, packet, i + 1)
    ensures TookSample(n, s, packet.senderPlayer, packet.firstInputFrame + i, packet.inputs[i])
  {
    s := Submitted(n, packet.senderPlayer, packet.firstInputFrame + i, packet.inputs[i]);
    CommitOne(n, packet, i, s);
    CommittedNext(n, packet, i, s, r);
    assert Folded(ReadyMark, 0);
    TookOne(n, packet.senderPlayer, packet.firstInputFrame + i, packet.inputs[i], s);
  }

  lemma {:induction false} CommitTakes(n: Node, packet: InputPacket, i: nat, r: Node)
    requires NodeOk(n) && n.core.Remote(packet.senderPlayer)
    requires packet.Consistent() && i <= |packet.inputs| <= MAX_WINDOW && AllReady(n, packet, i)
    requires 0 <= packet.firstInputFrame && r == Committed(n, packet, i)
    ensures Took(n, r, packet.senderPlayer, packet.firstInputFrame + i, packet.inputs[i..])
    decreases |packet.inputs| - i
  {
    if i == |packet.inputs| {
      TookNothing(n, packet, i, r);
    } else {
      var s := OneSample(n, packet, i, r);
      CommitTakes(s, packet, i + 1, r);
      TookNext(n, s, r, packet, i);
    }
  }

  lemma CommitTakesAll(n: Node, packet: InputPacket)
    requires NodeOk(n) && n.core.Remote(packet.senderPlayer) && 0 <= packet.firstInputFrame
    requires packet.Consistent() && |packet.inputs| <= MAX_WINDOW && AllReady(n, packet, 0)
    ensures Took(n, Committed(n, packet, 0), packet.senderPlayer, packet.firstInputFrame, packet.inputs)
  {
    CommitTakes(n, packet, 0, Committed(n, packet, 0));
    assert packet.inputs[0..] == packet.inputs;
  }

  lemma TookNothing(n: Node, packet: InputPacket, i: nat, r: Node)
    requires packet.senderPlayer < MAX_PLAYERS && packet.Consistent() && i == |packet.inputs|
    requires 0 <= packet.firstInputFrame && r == Committed(n, packet, i)
    ensures Took(n, r, packet.senderPlayer, packet.firstInputFrame + i, packet.inputs[i..])
  {
    assert packet.inputs[i..] == [] && r == n;
  }

  lemma TookNext(n: Node, s: Node, r: Node, packet: InputPacket, i: nat)
    requires packet.senderPlayer < MAX_PLAYERS && packet.Consistent() && i < |packet.inputs|
    requires TookSample(n, s, packet.senderPlayer, packet.firstInputFrame + i, packet.inputs[i])
    requires Took(s, r, packet.senderPlayer, packet.firstInputFrame + (i + 1), packet.inputs[i + 1..])
    ensures Took(n, r, packet.senderPlayer, packet.firstInputFrame + i, packet.inputs[i..])
  {
    assert packet.inputs[i..][0] == packet.inputs[i] && packet.inputs[i..][1..] == packet.inputs[i + 1..];
    TookBoth(n, s, r, packet.senderPlayer, packet.firstInputFrame + i, packet.inputs[i..]);
  }

  lemma TookOne(n: Node, p: nat, f: nat, input: FrameInput, s: Node)
    requires NodeOk(n) && n.core.Remote(p) && f < LIMIT && Ready(n, p, f, input) && s == Submitted(n, p, f, input)
    ensures TookSample(n, s, p, f, input)
  {
    Unfolded(n);
    SubmitGrows(n, p, f, input);
    LaneHeld(n, p);
    if Finds(n.core.lanes[p].ring, f) { FindsIsLogged(n.core.lanes[p].ring, n.logs[p], f); }
  }

  lemma TookBoth(n: Node, s: Node, r: Node, p: nat, f: nat, inputs: seq<FrameInput>)
    requires p < MAX_PLAYERS && inputs != []
    requires TookSample(n, s, p, f, inputs[0]) && Took(s, r, p, f + 1, inputs[1..])
    ensures Took(n, r, p, f, inputs)
  {
    assert Folded(TookMark, 0) && Folded(SampleMark, 0);
  }

  function Received(n: Node, packet: InputPacket): (r: Node)
    requires packet.InRange()
  {
    if Apply(n.core, packet).ok then
      WholeOrNothing(n.core, packet);
      Committed(n.(core := Acknowledged(n.core, packet)), packet, 0)
    else n
  }

  /** What passes validation is ready: not too old, newer than the occupant of its slot, and the
      occupant is no longer needed. */
  lemma PassIsReady(n: Node, p: nat, f: nat, input: FrameInput)
    requires NodeOk(n) && n.core.Remote(p) && f < LIMIT && SampleVerdict(n.core, p, f, input) == Pass
    ensures Ready(n, p, f, input)
  {
    Unfolded(n);
    LaneHeld(n, p);
    var occupant := n.core.lanes[p].ring[f % RING];
    assert SlotOk(occupant, f % RING, n.logs[p]);
    if occupant.present && occupant.frame > f { SameSlot(occupant.frame, f); }
  }

  lemma AcknowledgeKeeps(n: Node, packet: InputPacket)
    requires NodeOk(n) && packet.senderPlayer < MAX_PLAYERS
    ensures NodeOk(n.(core := Acknowledged(n.core, packet)))
  {
    Unfolded(n);
    var a := n.(core := Acknowledged(n.core, packet));
    forall p | 0 <= p < n.core.config.playerCount ensures LaneHolds(a, p) {
      assert LaneHolds(n, p);
      assert Floor(a, p) == Floor(n, p);
    }
    forall p | 0 <= p < n.core.config.playerCount ensures Paced(a, p) { assert Paced(n, p); }
    forall k | 0 <= k < RING ensures RowOk(a.core, a.logs, k) { assert RowOk(n.core, n.logs, k); }
    MeantStays(n, a);
  }

  lemma PassedIsReady(n: Node, a: Node, packet: InputPacket)
    requires NodeOk(n) && Apply(n.core, packet).ok && a == n.(core := Acknowledged(n.core, packet))
    ensures n.core.Remote(packet.senderPlayer) && packet.Consistent() && |packet.inputs| <= MAX_WINDOW
    ensures a.core.Remote(packet.senderPlayer) && AllReady(a, packet, 0)
  {
    WholeOrNothing(n.core, packet);
    var p := packet.senderPlayer;
    forall k | 0 <= k < |packet.inputs| ensures Ready(a, p, packet.firstInputFrame + k, packet.inputs[k]) {
      assert SampleVerdict(n.core, p, packet.firstInputFrame + k, packet.inputs[k]) == Pass;
      PassIsReady(n, p, packet.firstInputFrame + k, packet.inputs[k]);
      assert Floor(a, p) == Floor(n, p);
    }
  }

  /** Any packet at all, honest or not, leaves the core good and rewrites no known input. */
  lemma ReceiveKeeps(n: Node, packet: InputPacket)
    requires NodeOk(n)
    ensures NodeOk(Received(n, packet)) && Grew(n.logs, Received(n, packet).logs)
    ensures Received(n, packet).core.config == n.core.config
    ensures Received(n, packet).core == Apply(n.core, packet).core
  {
    WholeOrNothing(n.core, packet);
    if Apply(n.core, packet).ok {
      var a := n.(core := Acknowledged(n.core, packet));
      AcknowledgeKeeps(n, packet);
      PassedIsReady(n, a, packet);
      CommitKeeps(a, packet, 0);
      CommitCore(a, packet, 0, Duplicate);
    }
  }

  // ---------------------------------------------------------------- local input

  function Captured(n: Node, capture: nat, input: FrameInput): Node {
    var frame, local := LocalFrameForCapture(n.core, capture), n.core.config.localPlayer;
    n.(core := Scheduled(n.core, capture, input).0,
       logs := if frame == NONE || Finds(n.core.Local().ring, frame) then n.logs
               else n.logs[local := n.logs[local][frame := input]])
  }

  /** The driver captures in order, or repeats a recent capture, at most for the next frame. */
  predicate MayCapture(n: Node, capture: nat) {
    var frame := LocalFrameForCapture(n.core, capture);
    capture <= n.core.last + 1
    && (frame == NONE || n.core.Local().confirmed + 1 - RING <= frame <= n.core.Local().confirmed + 1)
  }

  lemma {:induction false} AdvancedStays(ring: Frames, log: Log, confirmed: int)
    requires Shows(ring, log) && PrefixEnds(log, confirmed)
    ensures Advanced(ring, confirmed) == confirmed
  {
    if confirmed + 1 < LIMIT && Finds(ring, confirmed + 1) { FindsIsLogged(ring, log, confirmed + 1); }
  }

  /** A repeated capture changes nothing, whether or not it agrees. */
  lemma CaptureAgain(n: Node, capture: nat, input: FrameInput)
    requires NodeOk(n) && MayCapture(n, capture)
    requires 0 <= LocalFrameForCapture(n.core, capture) <= n.core.Local().confirmed
    ensures Captured(n, capture, input) == n
  {
    Unfolded(n);
    var p, f := n.core.config.localPlayer, LocalFrameForCapture(n.core, capture);
    LaneHeld(n, p);
    var lane := n.core.lanes[p];
    RetainedIsFound(lane.ring, n.logs[p], Floor(n, p), f);
    if lane.ring[f % RING].input == input {
      assert Stored(lane.ring, f, input) == lane.ring;
      AdvancedStays(lane.ring, n.logs[p], lane.confirmed);
      assert n.core.lanes[p := lane] == n.core.lanes;
    }
  }

  lemma NextCaptureLane(lane: Lane, log: Log, f: nat, input: FrameInput)
    requires LaneOk(lane, log, lane.confirmed + 1 - RING) && LocalOk(log, lane.confirmed)
    requires f == lane.confirmed + 1 < LIMIT
    ensures f !in log && !Finds(lane.ring, f)
    ensures var l := InputLane.Submitted(lane, f, input);
      l.confirmed == f && LaneOk(l, log[f := input], f + 1 - RING) && LocalOk(log[f := input], f)
  {
    var occupant := lane.ring[f % RING];
    assert SlotOk(occupant, f % RING, log);
    if occupant.present { SameSlot(f, occupant.frame); }
    RaiseFloor(lane, log, lane.confirmed + 1 - RING, f + 1 - RING);
    LaneAfterStore(lane, log, f + 1 - RING, f, input);
    assert PrefixEnds(log[f := input], f);
    PrefixUnique(log[f := input], f, InputLane.Submitted(lane, f, input).confirmed);
  }

  lemma RowsAfterCapture(n: Node, capture: nat, input: FrameInput)
    requires NodeHolds(n) && LocalFrameForCapture(n.core, capture) == n.core.Local().confirmed + 1
    requires n.core.Local().confirmed + 1 !in n.logs[n.core.config.localPlayer]
      && !Finds(n.core.Local().ring, n.core.Local().confirmed + 1)
    ensures RowsOk(Captured(n, capture, input).core, Captured(n, capture, input).logs)
  {
    var c, local := Captured(n, capture, input), n.core.config.localPlayer;
    forall k | 0 <= k < RING ensures RowOk(c.core, c.logs, k) {
      assert RowOk(n.core, n.logs, k);
      if n.core.used[k].frame != NONE {
        forall q | 0 <= q < MAX_PLAYERS && q < c.core.config.playerCount
          ensures CellOk(c.core.used[k], q, c.logs[q], c.core.rollback)
        {
          assert CellOk(n.core.used[k], q, n.logs[q], n.core.rollback);
        }
      }
    }
  }

  /** A new capture is the next local frame, and the frontier follows it exactly. */
  lemma CaptureNext(n: Node, capture: nat, input: FrameInput)
    requires NodeOk(n) && MayCapture(n, capture)
      && LocalFrameForCapture(n.core, capture) == n.core.Local().confirmed + 1
    ensures NodeOk(Captured(n, capture, input)) && Grew(n.logs, Captured(n, capture, input).logs)
    ensures Captured(n, capture, input).core.Local().confirmed == n.core.Local().confirmed + 1
  {
    Unfolded(n);
    var p, f := n.core.config.localPlayer, n.core.Local().confirmed + 1;
    LaneHeld(n, p);
    NextCaptureLane(n.core.lanes[p], n.logs[p], f, input);
    RowsAfterCapture(n, capture, input);
    var c := Captured(n, capture, input);
    forall q | 0 <= q < n.core.config.playerCount ensures LaneHolds(c, q) {
      if q != p { assert LaneHolds(n, q); assert Floor(c, q) == Floor(n, q); }
    }
    forall q | 0 <= q < n.core.config.playerCount ensures Paced(c, q) { assert Paced(n, q); }
    MeantStays(n, c);
  }

  /** A capture is scheduled exactly the input delay later: fresh input is stored there and moves the frontier there,
      and a repeated one changes nothing and is taken exactly if it says the same. */
  lemma CapturesExactly(n: Node, capture: nat, input: FrameInput)
    requires NodeOk(n) && MayCapture(n, capture) && capture + n.core.config.inputDelay < LIMIT
    ensures var f, p, c := capture + n.core.config.inputDelay, n.core.config.localPlayer, Captured(n, capture, input);
      && Scheduled(n.core, capture, input).1 == (f !in n.logs[p] || n.logs[p][f] == input)
      && (f in n.logs[p] ==> c == n)
      && (f !in n.logs[p] ==>
            && c.logs == n.logs[p := n.logs[p][f := input]] && c.core.Local().confirmed == f
            && Finds(c.core.Local().ring, f) && c.core.Local().ring[f % RING].input == input)
  {
    Unfolded(n);
    var p, f := n.core.config.localPlayer, capture + n.core.config.inputDelay;
    LaneHeld(n, p);
    if f == n.core.Local().confirmed + 1 {
      NextCaptureLane(n.core.lanes[p], n.logs[p], f, input);
    } else {
      CaptureAgain(n, capture, input);
      RetainedIsFound(n.core.lanes[p].ring, n.logs[p], Floor(n, p), f);
    }
  }

  lemma CaptureKeeps(n: Node, capture: nat, input: FrameInput)
    requires NodeOk(n) && MayCapture(n, capture)
    ensures NodeOk(Captured(n, capture, input)) && Grew(n.logs, Captured(n, capture, input).logs)
  {
    var frame := LocalFrameForCapture(n.core, capture);
    if frame == n.core.Local().confirmed + 1 && frame != NONE { CaptureNext(n, capture, input); }
    else if frame != NONE { CaptureAgain(n, capture, input); }
  }

  // ---------------------------------------------------------------- simulation

  /** The driver simulates only the next frame, only as decided, and never with a rollback pending. */
  predicate MaySimulate(n: Node) {
    n.core.rollback == NONE && n.core.last + 1 < LIMIT && Prepared(n.core, n.core.last + 1).canAdvance
  }

  function Simulated(n: Node): Node
    requires n.core.last + 1 < LIMIT
  {
    n.(core := Marked(n.core, n.core.last + 1, Prepared(n.core, n.core.last + 1)),
       high := if n.core.last + 1 > n.high then n.core.last + 1 else n.high)
  }

  /** With no rollback pending, confirmed input of the next frame is still in the ring: the decision
      never meets a hole inside confirmed history. */
  lemma NoHole(n: Node, p: nat)
    requires NodeOk(n) && p < n.core.config.playerCount && n.core.last + 1 in n.logs[p]
    requires p == n.core.config.localPlayer ==> n.core.last + 1 <= n.core.Local().confirmed
    ensures Finds(n.core.lanes[p].ring, n.core.last + 1)
    ensures n.core.lanes[p].ring[(n.core.last + 1) % RING].input == n.logs[p][n.core.last + 1]
  {
    Unfolded(n);
    LaneHeld(n, p);
    RetainedIsFound(n.core.lanes[p].ring, n.logs[p], Floor(n, p), n.core.last + 1);
  }

  lemma ChoiceIsSound(n: Node, p: nat)
    requires NodeOk(n) && p < n.core.config.playerCount && n.core.last + 1 < LIMIT
    requires ChoiceFor(n.core, n.core.last + 1, p).Use?
    ensures var choice, f := ChoiceFor(n.core, n.core.last + 1, p), n.core.last + 1;
      && (choice.predicted <==> f !in n.logs[p])
      && (!choice.predicted ==> choice.input == n.logs[p][f])
      && (p == n.core.config.localPlayer ==> !choice.predicted)
      && (!n.core.config.allowPrediction ==> !choice.predicted)
      && (p != n.core.config.localPlayer ==> f - Horizon(n.core) <= n.core.lanes[p].confirmed)
  {
    Unfolded(n);
    LaneHeld(n, p);
    var f := n.core.last + 1;
    if Finds(n.core.lanes[p].ring, f) { FindsIsLogged(n.core.lanes[p].ring, n.logs[p], f); }
    if f in n.logs[p] { NoHole(n, p); }
  }

  lemma RowsAfterSimulate(n: Node)
    requires NodeOk(n) && MaySimulate(n)
    ensures RowsOk(Simulated(n).core, n.logs)
    ensures !n.core.config.allowPrediction ==> Prepared(n.core, n.core.last + 1).predicted == NO_MASK
  {
    Unfolded(n);
    var f, d, s := n.core.last + 1, Prepared(n.core, n.core.last + 1), Simulated(n);
    PreparedChoices(n.core, f, 0, NO_DECISION);
    forall p | 0 <= p < n.core.config.playerCount
      ensures CellOk(s.core.used[f % RING], p, n.logs[p], NONE)
      ensures p == n.core.config.localPlayer || !n.core.config.allowPrediction ==> !d.predicted[p]
    {
      ChoiceIsSound(n, p);
    }
    forall k | 0 <= k < RING ensures RowOk(s.core, n.logs, k) { assert RowOk(n.core, n.logs, k); }
  }

  /** Simulating the next frame is always accepted, and keeps the core good: the frame stays within the
      rollback limit of every remote frontier, and used every input known by then. */
  lemma SimulateKeeps(n: Node)
    requires NodeOk(n) && MaySimulate(n)
    ensures NodeOk(Simulated(n)) && MayMark(n.core, n.core.last + 1, Prepared(n.core, n.core.last + 1))
  {
    var s := Simulated(n);
    RowsAfterSimulate(n);
    FrontiersAfterSimulate(n, s);
    forall p | 0 <= p < n.core.config.playerCount ensures LaneHolds(s, p) && Paced(s, p) { LaneAfterSimulate(n, s, p); }
  }

  lemma LaneAfterSimulate(n: Node, s: Node, p: nat)
    requires NodeOk(n) && MaySimulate(n) && s == Simulated(n) && p < n.core.config.playerCount
    ensures LaneHolds(s, p) && Paced(s, p)
  {
    Unfolded(n);
    assert Paced(n, p);
    PreparedChoices(n.core, n.core.last + 1, 0, NO_DECISION);
    ChoiceIsSound(n, p);
    LaneHeld(n, p);
    RaiseFloor(n.core.lanes[p], n.logs[p], Floor(n, p), Floor(s, p));
  }

  /** What else holds of a node, besides its lanes and its rows. */
  lemma FrontiersAfterSimulate(n: Node, s: Node)
    requires NodeOk(n) && MaySimulate(n) && s == Simulated(n)
    ensures s.core.configured && s.core.config == n.core.config && s.logs == n.logs
    ensures LocalOk(s.logs[s.core.config.localPlayer], s.core.Local().confirmed)
    ensures FrontiersOk(s) && HistoryOk(s.core, s.high) && Meant(s)
    ensures MayMark(n.core, n.core.last + 1, Prepared(n.core, n.core.last + 1))
  {
    Unfolded(n);
    RowsAfterSimulate(n);
  }

  // ---------------------------------------------------------------- rewind

  function Rewound(n: Node): Node
    requires 0 <= n.core.rollback
  {
    n.(core := CoreState.Rewound(n.core, n.core.rollback))
  }

  /** A pending rollback can always be carried out: it lies within the limit, and every frame from it on
      is on record. */
  lemma RewindPossible(n: Node)
    requires NodeOk(n) && n.core.rollback != NONE
    ensures MayRewind(n.core, n.core.rollback) && n.core.config.allowPrediction
    ensures n.high - n.core.config.maxRollbackFrames < n.core.rollback <= n.core.last
  {
    Unfolded(n);
  }

  lemma RewindKeeps(n: Node)
    requires NodeOk(n) && n.core.rollback != NONE
    ensures NodeOk(Rewound(n))
  {
    Unfolded(n);
    var r := Rewound(n);
    forall p | 0 <= p < n.core.config.playerCount ensures LaneHolds(r, p) {
      assert LaneHolds(n, p);
      assert Floor(r, p) == Floor(n, p);
    }
    forall p | 0 <= p < n.core.config.playerCount ensures Paced(r, p) { assert Paced(n, p); }
    forall k | 0 <= k < RING ensures RowOk(r.core, n.logs, k) {
      assert RowOk(n.core, n.logs, k);
      if r.core.used[k].frame != NONE {
        forall p | 0 <= p < MAX_PLAYERS && p < n.core.config.playerCount
          ensures CellOk(r.core.used[k], p, n.logs[p], NONE)
        {
          assert CellOk(n.core.used[k], p, n.logs[p], n.core.rollback);
        }
      }
    }
  }

  // ---------------------------------------------------------------- whole runs

  datatype Step = Capture(capture: nat, input: FrameInput) | Receive(packet: InputPacket) | Simulate | Rewind

  predicate Allowed(n: Node, step: Step) {
    match step
    case Capture(capture, input) => MayCapture(n, capture)
    case Receive(packet) => true
    case Simulate => MaySimulate(n)
    case Rewind => n.core.rollback != NONE
  }

  function After(n: Node, step: Step): Node
    requires Allowed(n, step)
  {
    match step
    case Capture(capture, input) => Captured(n, capture, input)
    case Receive(packet) => Received(n, packet)
    case Simulate => Simulated(n)
    case Rewind => Rewound(n)
  }

  lemma StepKeeps(n: Node, step: Step)
    requires NodeOk(n) && Allowed(n, step)
    ensures NodeOk(After(n, step)) && Grew(n.logs, After(n, step).logs) && After(n, step).core.config == n.core.config
  {
    match step
    case Capture(capture, input) => CaptureKeeps(n, capture, input);
    case Receive(packet) => ReceiveKeeps(n, packet);
    case Simulate => SimulateKeeps(n);
    case Rewind => RewindKeeps(n);
  }

  /** Rewinding and simulating, any number of times. */
  ghost predicate Resimulates(n: Node, steps: seq<Step>, n': Node)
    decreases |steps|, 1
  {
    if steps == [] then n' == n else ResimulatesFirst(n, steps, n')
  }

  ghost predicate ResimulatesFirst(n: Node, steps: seq<Step>, n': Node)
    requires steps != []
    decreases |steps|, 0
  {
    (steps[0].Simulate? || steps[0].Rewind?) && Allowed(n, steps[0])
    && Resimulates(After(n, steps[0]), steps[1..], n')
  }

  /** The same inputs, frontiers and acknowledgements. */
  predicate SameInputs(c: Core, c': Core) {
    c'.config == c.config && c'.configured == c.configured && c'.lanes == c.lanes && c'.peerAck == c.peerAck
  }

  lemma {:induction false} ResimulateKeeps(n: Node, steps: seq<Step>, n': Node)
    requires NodeOk(n) && Resimulates(n, steps, n')
    ensures NodeOk(n') && SameInputs(n.core, n'.core)
    decreases |steps|
  {
    if steps != [] {
      StepKeeps(n, steps[0]);
      ResimulateKeeps(After(n, steps[0]), steps[1..], n');
    }
  }

  /** The states a run passes through, each a driver step after the one before. */
  ghost predicate IsRun(run: seq<Node>, config: CoreConfig) {
    && config.Usable() && run != [] && run[0] == Started(config)
    && forall i :: 0 <= i < |run| - 1 ==> Steps(run[i], run[i + 1])
  }

  ghost predicate Steps(n: Node, n': Node) {
    exists step :: Allowed(n, step) && n' == After(n, step)
  }

  lemma {:induction false} RunKeeps(run: seq<Node>, config: CoreConfig, i: nat)
    requires IsRun(run, config) && i < |run|
    ensures NodeOk(run[i]) && run[i].core.config == config
  {
    if i == 0 { StartsOk(config); } else {
      RunKeeps(run, config, i - 1);
      assert Steps(run[i - 1], run[i]);
      var step :| Allowed(run[i - 1], step) && run[i] == After(run[i - 1], step);
      StepKeeps(run[i - 1], step);
    }
  }

  lemma GrewOnce(n: Node, n': Node)
    requires NodeOk(n) && Steps(n, n')
    ensures Grew(n.logs, n'.logs)
  {
    var step :| Allowed(n, step) && n' == After(n, step);
    StepKeeps(n, step);
  }

  lemma {:induction false} LogsGrow(run: seq<Node>, config: CoreConfig, i: nat, j: nat)
    requires IsRun(run, config) && i <= j < |run|
    ensures Grew(run[i].logs, run[j].logs)
    decreases j - i
  {
    if i < j {
      var before := j - 1;
      LogsGrow(run, config, i, before);
      RunKeeps(run, config, before);
      assert Steps(run[before], run[before + 1]);
      GrewOnce(run[before], run[j]);
      GrewTrans(run[i].logs, run[before].logs, run[j].logs);
    }
  }

  lemma Shown(run: seq<Node>, config: CoreConfig, i: nat, p: nat)
    requires IsRun(run, config) && i < |run| && p < config.playerCount
    ensures LaneOk(run[i].core.lanes[p], run[i].logs[p], Floor(run[i], p))
  {
    RunKeeps(run, config, i);
    Unfolded(run[i]);
    LaneHeld(run[i], p);
  }

  /** No frame of any player ever takes two values in a session: what a slot shows at one time, no slot
      contradicts at another, whatever was overwritten, rewound and received again in between. */
  lemma OneValuePerFrame(run: seq<Node>, config: CoreConfig, i: nat, j: nat, p: nat, f: nat)
    requires IsRun(run, config) && i <= j < |run| && p < config.playerCount
    requires Finds(run[i].core.lanes[p].ring, f) && Finds(run[j].core.lanes[p].ring, f)
    ensures run[i].core.lanes[p].ring[f % RING].input == run[j].core.lanes[p].ring[f % RING].input
  {
    Shown(run, config, i, p);
    Shown(run, config, j, p);
    FindsIsLogged(run[i].core.lanes[p].ring, run[i].logs[p], f);
    FindsIsLogged(run[j].core.lanes[p].ring, run[j].logs[p], f);
    LogsGrow(run, config, i, j);
  }

  /** A slot's frame number never decreases, and neither does a frontier, which is always exactly the
      end of the contiguous prefix of everything known. */
  lemma NothingGoesBack(run: seq<Node>, config: CoreConfig, i: nat, j: nat, p: nat, k: nat)
    requires IsRun(run, config) && i <= j < |run| && p < config.playerCount && k < RING
    ensures run[i].core.lanes[p].ring[k].frame <= run[j].core.lanes[p].ring[k].frame
    ensures run[i].core.lanes[p].confirmed <= run[j].core.lanes[p].confirmed
    ensures PrefixEnds(run[j].logs[p], run[j].core.lanes[p].confirmed)
  {
    Shown(run, config, i, p);
    Shown(run, config, j, p);
    LogsGrow(run, config, i, j);
    assert SlotOk(run[i].core.lanes[p].ring[k], k, run[i].logs[p]) &&
      SlotOk(run[j].core.lanes[p].ring[k], k, run[j].logs[p]);
    PrefixGrows(run[i].logs[p], run[j].logs[p], run[i].core.lanes[p].confirmed, run[j].core.lanes[p].confirmed);
  }

  lemma PrefixGrows(log: Log, log': Log, confirmed: int, confirmed': int)
    requires PrefixEnds(log, confirmed) && PrefixEnds(log', confirmed') && forall f :: f in log ==> f in log'
    ensures confirmed <= confirmed'
  {
    assert confirmed' + 1 !in log;
  }

  /** A confirmed row is exactly the known actual input of every seat. */
  lemma ConfirmedRowIsActual(n: Node, f: nat, p: nat)
    requires NodeOk(n) && HasConfirmedRow(n.core, f) && p < n.core.config.playerCount
    ensures f in n.logs[p] && ConfirmedRow(n.core, f)[p] == n.logs[p][f]
  {
    Unfolded(n);
    LaneHeld(n, p);
    assert SeatConfirmed(n.core, f, p);
    FindsIsLogged(n.core.lanes[p].ring, n.logs[p], f);
  }

  // ---------------------------------------------------------------- when a rollback is asked for

  lemma RecordedInput(n: Node, p: nat, f: nat)
    requires NodeOk(n) && p < MAX_PLAYERS && p < n.core.config.playerCount && n.core.Simulated(f)
    ensures f <= n.core.last
    ensures Mispredicted(n, p, f) ==> n.core.rollback != NONE && n.core.rollback <= f
    ensures f !in n.logs[p] ==> n.core.used[f % RING].predicted[p]
  {
    Unfolded(n);
    assert RowOk(n.core, n.logs, f % RING);
    assert CellOk(n.core.used[f % RING], p, n.logs[p], n.core.rollback);
  }

  /** A rollback is pending to exactly the earliest recorded frame that some seat's known input contradicts: never
      for a prediction that came true, and never later than the first that did not. */
  lemma RollbackIsExact(n: Node, f: nat)
    requires NodeOk(n)
    ensures (n.core.rollback == f)
      == (MispredictedAt(n, f) && forall g: nat :: MispredictedAt(n, g) ==> f <= g)
  {
    Unfolded(n);
    assert Folded(MeantMark, 0);
    forall g: nat | MispredictedAt(n, g) ensures n.core.rollback != NONE && n.core.rollback <= g {
      var p: nat :| p < MAX_PLAYERS && p < n.core.config.playerCount && Mispredicted(n, p, g);
      RecordedInput(n, p, g);
    }
  }

  /** What a submitted sample is answered, by what is known and what the frame was simulated with. */
  lemma SampleAnswered(n: Node, p: nat, f: nat, input: FrameInput)
    requires NodeOk(n) && n.core.Remote(p) && f < LIMIT && Ready(n, p, f, input)
    ensures Submit(n.core, p, f, input).1
      == if n.core.TooOldFrame(f) then TooOld
         else if f in n.logs[p] then Duplicate
         else if !n.core.Simulated(f) then RemoteInputResult.Accepted
         else if n.core.used[f % RING].inputs[p] == input then PredictionCorrect
         else RollbackRequired
    ensures Submit(n.core, p, f, input).0.rollback
      == if Submit(n.core, p, f, input).1 == RollbackRequired && (n.core.rollback == NONE || f < n.core.rollback)
         then f else n.core.rollback
  {
    Unfolded(n);
    LaneHeld(n, p);
    if Finds(n.core.lanes[p].ring, f) { FindsIsLogged(n.core.lanes[p].ring, n.logs[p], f); }
    if n.core.Simulated(f) { RecordedInput(n, p, f); }
  }

  /** Each sample is what its frame was simulated with, if that frame is on record. */
  ghost predicate CameTrue(n: Node, packet: InputPacket)
    requires packet.senderPlayer < MAX_PLAYERS && packet.Consistent()
  {
    forall k: nat :: k < |packet.inputs| && n.core.Simulated(packet.firstInputFrame + k) ==>
      n.core.used[(packet.firstInputFrame + k) % RING].inputs[packet.senderPlayer] == packet.inputs[k]
  }

  lemma AcceptedTakes(n: Node, packet: InputPacket)
    requires NodeOk(n) && Apply(n.core, packet).ok && packet.inputs != []
    ensures packet.senderPlayer < MAX_PLAYERS && packet.Consistent()
    ensures Takes(n.(core := Acknowledged(n.core, packet)), Received(n, packet), packet.senderPlayer,
                  packet.firstInputFrame, packet.inputs)
  {
    WholeOrNothing(n.core, packet);
    var a := n.(core := Acknowledged(n.core, packet));
    PassedIsReady(n, a, packet);
    AcknowledgeKeeps(n, packet);
    CommitTakesAll(a, packet);
    TookOpened(a, Committed(a, packet, 0), packet.senderPlayer, packet.firstInputFrame, packet.inputs);
  }

  /** A packet whose samples all came true asks for no rollback. */
  lemma TruePredictionsRollNothingBack(n: Node, packet: InputPacket)
    requires NodeOk(n) && n.core.rollback == NONE && packet.senderPlayer < MAX_PLAYERS && packet.Consistent()
    requires CameTrue(n, packet)
    ensures Received(n, packet).core.rollback == NONE
  {
    var r := Received(n, packet);
    ReceiveKeeps(n, packet);
    if Apply(n.core, packet).ok && packet.inputs != [] && r.core.rollback != NONE {
      AcceptedTakes(n, packet);
      RollbackIsExact(r, r.core.rollback);
      var p: nat :| p < MAX_PLAYERS && p < r.core.config.playerCount && Mispredicted(r, p, r.core.rollback);
      NothingMispredicted(n, r, packet, p, r.core.rollback);
    }
  }

  lemma NothingMispredicted(n: Node, r: Node, packet: InputPacket, p: nat, f: nat)
    requires NodeOk(n) && n.core.rollback == NONE && packet.senderPlayer < MAX_PLAYERS && packet.Consistent()
    requires packet.inputs != [] && CameTrue(n, packet) && p < MAX_PLAYERS && p < n.core.config.playerCount
    requires Takes(n.(core := Acknowledged(n.core, packet)), r, packet.senderPlayer, packet.firstInputFrame,
                   packet.inputs)
    ensures !Mispredicted(r, p, f)
  {
    if n.core.Simulated(f) { RecordedInput(n, p, f); }
    if f in r.logs[p] && f !in n.logs[p] {
      var k: nat := f - packet.firstInputFrame;
      assert packet.firstInputFrame + k == f;
    }
  }

  // ---------------------------------------------------------------- which packets are accepted

  /** The frame's slot holds another frame that the core may still need, or the frontier itself. */
  predicate Collides(c: Core, s: nat, f: nat)
    requires s < MAX_PLAYERS
  {
    var occupant := c.lanes[s].ring[f % RING];
    && !c.TooOldFrame(f) && occupant.present && occupant.frame != f
    && (occupant.frame >= OldestRecoverable(c) || occupant.frame == c.lanes[s].confirmed)
  }

  predicate CollidesAt(c: Core, packet: InputPacket, k: nat)
    requires packet.senderPlayer < MAX_PLAYERS && k < |packet.inputs| && packet.Consistent()
  {
    Collides(c, packet.senderPlayer, packet.firstInputFrame + k)
  }

  predicate AnyCollides(c: Core, packet: InputPacket)
    requires packet.senderPlayer < MAX_PLAYERS && packet.Consistent()
  {
    exists k: nat :: k < |packet.inputs| && CollidesAt(c, packet, k)
  }

  /** The packet reaches less than a ring past the simulation. */
  predicate Near(c: Core, packet: InputPacket) { packet.inputs != [] ==> packet.latestFrame < c.last + 1 + RING }

  /** What is known of the sample contradicts it. */
  ghost predicate Contradicts(n: Node, s: nat, f: nat, input: FrameInput)
    requires s < MAX_PLAYERS
  {
    !n.core.TooOldFrame(f) && f in n.logs[s] && n.logs[s][f] != input
  }

  /** A sample that may come: well-formed, and expired, or with room in the ring and not contradicting what is
      known. */
  ghost predicate Acceptable(n: Node, s: nat, f: nat, input: FrameInput)
    requires s < MAX_PLAYERS
  {
    input.Valid() && !Collides(n.core, s, f) && !Contradicts(n, s, f, input)
  }

  ghost predicate AcceptableAt(n: Node, p: InputPacket, k: nat)
    requires p.senderPlayer < MAX_PLAYERS && k < |p.inputs| && p.Consistent()
  {
    Acceptable(n, p.senderPlayer, p.firstInputFrame + k, p.inputs[k])
  }

  /** What is said of one sample: it passes exactly when it may come, and it is a conflict exactly when only what
      is known stands against it. */
  lemma SampleJudged(n: Node, s: nat, f: nat, input: FrameInput)
    requires NodeOk(n) && n.core.Remote(s)
    ensures (SampleVerdict(n.core, s, f, input) == Pass) == Acceptable(n, s, f, input)
    ensures (SampleVerdict(n.core, s, f, input) == Conflict)
      == (input.Valid() && !Collides(n.core, s, f) && Contradicts(n, s, f, input))
  {
    Unfolded(n);
    LaneHeld(n, s);
    var occupant := n.core.lanes[s].ring[f % RING];
    assert SlotOk(occupant, f % RING, n.logs[s]);
    assert RowOk(n.core, n.logs, f % RING);
    if f in n.logs[s] && occupant.frame > f { SameSlot(occupant.frame, f); }
  }

  /** A packet of this session for this core: from another player, of a plausible form, acknowledging no more than
      was scheduled, and not reaching too far. */
  predicate ForUs(c: Core, p: InputPacket) {
    && p.sessionId == c.config.sessionId && p.playerCount == c.config.playerCount
    && p.senderPlayer < c.config.playerCount && p.senderPlayer != c.config.localPlayer
    && |p.inputs| <= MAX_WINDOW && p.Consistent() && p.ackFrame <= c.Local().confirmed && Near(c, p)
  }

  lemma PassedAll(n: Node, p: InputPacket)
    requires NodeOk(n) && ForUs(n.core, p) && n.core.Remote(p.senderPlayer)
    ensures (VerdictFrom(n.core, p, 0) == Pass) == forall k: nat :: k < |p.inputs| ==> AcceptableAt(n, p, k)
  {
    if VerdictFrom(n.core, p, 0) == Pass {
      forall k: nat | k < |p.inputs| ensures AcceptableAt(n, p, k) {
        SampleJudged(n, p.senderPlayer, p.firstInputFrame + k, p.inputs[k]);
      }
    }
    if forall k: nat :: k < |p.inputs| ==> AcceptableAt(n, p, k) {
      forall k | 0 <= k < |p.inputs|
        ensures SampleVerdict(n.core, p.senderPlayer, p.firstInputFrame + k, p.inputs[k]) == Pass
      {
        assert AcceptableAt(n, p, k);
        SampleJudged(n, p.senderPlayer, p.firstInputFrame + k, p.inputs[k]);
      }
    }
  }

  /** Any packet at all, honest or not, is accepted exactly when it is for this core and each of its samples may
      come. */
  lemma AcceptedExactly(n: Node, p: InputPacket)
    requires NodeOk(n)
    ensures Apply(n.core, p).ok == (ForUs(n.core, p) && p.senderPlayer < MAX_PLAYERS
                                    && forall k: nat :: k < |p.inputs| ==> AcceptableAt(n, p, k))
  {
    Unfolded(n);
    WholeOrNothing(n.core, p);
    if ForUs(n.core, p) { PassedAll(n, p); }
  }

  /** The first sample that does not pass. */
  lemma {:induction false} FirstRefused(n: Node, p: InputPacket, i: nat) returns (k: nat)
    requires NodeOk(n) && n.core.Remote(p.senderPlayer) && p.Consistent() && i <= |p.inputs|
      && VerdictFrom(n.core, p, i) != Pass
    ensures i <= k < |p.inputs| && (forall j: nat :: i <= j < k ==> AcceptableAt(n, p, j))
    ensures VerdictFrom(n.core, p, i) ==
      SampleVerdict(n.core, p.senderPlayer, p.firstInputFrame + k, p.inputs[k]) != Pass
    decreases |p.inputs| - i
  {
    SampleJudged(n, p.senderPlayer, p.firstInputFrame + i, p.inputs[i]);
    if AcceptableAt(n, p, i) { k := FirstRefused(n, p, i + 1); } else { k := i; }
  }

  /** A refusal is reported as a conflict exactly when the packet is for this core and its first sample that may
      not come is well-formed, has room, and contradicts what is known. */
  lemma ConflictExactly(n: Node, p: InputPacket)
    requires NodeOk(n) && !Apply(n.core, p).ok
    ensures Apply(n.core, p).worst == ConflictingConfirmedInput || Apply(n.core, p).worst == InvalidPlayer
    ensures (Apply(n.core, p).worst == ConflictingConfirmedInput)
      == (ForUs(n.core, p) && p.senderPlayer < MAX_PLAYERS && exists k: nat :: k < |p.inputs| && FirstConflict(n, p, k))
  {
    Unfolded(n);
    WholeOrNothing(n.core, p);
    if ForUs(n.core, p) {
      var k := FirstRefused(n, p, 0);
      SampleJudged(n, p.senderPlayer, p.firstInputFrame + k, p.inputs[k]);
      if Apply(n.core, p).worst == ConflictingConfirmedInput { assert FirstConflict(n, p, k); }
      forall j: nat | j < |p.inputs| && FirstConflict(n, p, j) ensures j == k {
        assert j < k ==> AcceptableAt(n, p, j);
        assert k < j ==> AcceptableAt(n, p, k);
      }
    }
  }

  ghost predicate FirstConflict(n: Node, p: InputPacket, k: nat)
    requires p.senderPlayer < MAX_PLAYERS && k < |p.inputs| && p.Consistent()
  {
    var f := p.firstInputFrame + k;
    && (forall j: nat :: j < k ==> AcceptableAt(n, p, j))
    && p.inputs[k].Valid() && !Collides(n.core, p.senderPlayer, f) && Contradicts(n, p.senderPlayer, f, p.inputs[k])
  }

  // ---------------------------------------------------------------- which decisions and rewinds are taken

  /** Without prediction a frame may be marked exactly when it is the next one, decided with what every seat is
      known to have scheduled for it, and with nothing else. */
  lemma MarkedExactly(n: Node, frame: nat, d: FrameDecision)
    requires NodeOk(n) && !n.core.config.allowPrediction && frame < LIMIT && d.Shaped()
    ensures MayMark(n.core, frame, d)
      == (&& d.canAdvance && frame == n.core.last + 1 && d.predicted == NO_MASK
          && (forall p: nat :: p < n.core.config.playerCount ==> frame <= n.core.lanes[p].confirmed)
          && forall p: nat :: p < MAX_PLAYERS ==> IsInput(n, frame, p, d.inputs[p]))
  {
    Unfolded(n);
    PreparedChoices(n.core, frame, 0, NO_DECISION);
    if frame == n.core.last + 1 {
      forall p: nat | p < n.core.config.playerCount
        ensures ChoiceFor(n.core, frame, p).Use? == (frame <= n.core.lanes[p].confirmed)
        ensures frame <= n.core.lanes[p].confirmed ==> IsInput(n, frame, p, ChoiceFor(n.core, frame, p).input)
      {
        LaneHeld(n, p);
        if frame <= n.core.lanes[p].confirmed { NoHole(n, p); }
      }
      var prepared := Prepared(n.core, frame).inputs;
      if (forall p: nat :: p < n.core.config.playerCount ==> frame <= n.core.lanes[p].confirmed) {
        assert forall p: nat :: p < MAX_PLAYERS ==> IsInput(n, frame, p, prepared[p]);
        if forall p: nat :: p < MAX_PLAYERS ==> IsInput(n, frame, p, d.inputs[p]) { assert d.inputs == prepared; }
      }
    }
  }

  /** A seat's known input of the frame, or neutral for an empty seat. */
  ghost predicate IsInput(n: Node, frame: nat, p: nat, input: FrameInput)
    requires p < MAX_PLAYERS
  {
    if p < n.core.config.playerCount then frame in n.logs[p] && input == n.logs[p][frame] else input == NEUTRAL
  }

  /** What a seat must offer before the next frame can be decided: with prediction only the local input must be
      known, and a remote frontier within the rollback limit; without it every input must be confirmed. */
  ghost predicate Offers(n: Node, p: nat)
    requires p < MAX_PLAYERS && p < n.core.config.playerCount
  {
    if !n.core.config.allowPrediction then n.core.last + 1 <= n.core.lanes[p].confirmed
    else if p == n.core.config.localPlayer then n.core.last + 1 in n.logs[p]
    else n.core.last + 1 - n.core.lanes[p].confirmed <= n.core.config.maxRollbackFrames
  }

  lemma ChoiceExactly(n: Node, p: nat, choice: Choice)
    requires NodeOk(n) && n.core.last + 1 < LIMIT && p < n.core.config.playerCount
    requires choice == ChoiceFor(n.core, n.core.last + 1, p)
    ensures choice.Use? == Offers(n, p)
    ensures choice.Use? ==>
      var f := n.core.last + 1;
      choice == if f in n.logs[p] then Use(n.logs[p][f], false)
                else Use(Predicted(n.core.config, n.core.lanes[p].ring, f), true)
  {
    Unfolded(n);
    LaneHeld(n, p);
    var f := n.core.last + 1;
    if Finds(n.core.lanes[p].ring, f) { FindsIsLogged(n.core.lanes[p].ring, n.logs[p], f); }
    if f in n.logs[p] { NoHole(n, p); }
  }

  /** The next frame can be simulated exactly when every seat offers what it must; then known input is used as it
      is, and only input that is not known is predicted. */
  lemma AdvancesExactly(n: Node)
    requires NodeOk(n) && n.core.last + 1 < LIMIT
    ensures var d, f := Prepared(n.core, n.core.last + 1), n.core.last + 1;
      && d.canAdvance == (forall p: nat :: p < n.core.config.playerCount ==> Offers(n, p))
      && (d.canAdvance ==> forall p: nat :: p < n.core.config.playerCount ==>
            && d.predicted[p] == (f !in n.logs[p])
            && d.inputs[p] == if f in n.logs[p] then n.logs[p][f]
                              else Predicted(n.core.config, n.core.lanes[p].ring, f))
  {
    Unfolded(n);
    var f := n.core.last + 1;
    PreparedChoices(n.core, f, 0, NO_DECISION);
    forall p: nat | p < n.core.config.playerCount
      ensures ChoiceFor(n.core, f, p).Use? == Offers(n, p)
      ensures ChoiceFor(n.core, f, p).Use? ==>
        ChoiceFor(n.core, f, p) == if f in n.logs[p] then Use(n.logs[p][f], false)
                                   else Use(Predicted(n.core.config, n.core.lanes[p].ring, f), true)
    {
      ChoiceExactly(n, p, ChoiceFor(n.core, f, p));
    }
  }

  /** A rewind that is taken settles everything: it forgets the frames from `first` on and keeps those before, no
      rollback is pending any more, and no frame that is left on record was simulated with a wrong input. */
  lemma RewindSettles(n: Node, first: nat, f: nat)
    requires NodeOk(n) && MayRewind(n.core, first)
    ensures var c := CoreState.Rewound(n.core, first);
      && c.last == first - 1 && c.rollback == NONE
      && c.Simulated(f) == (n.core.Simulated(f) && f < first)
      && (c.Simulated(f) ==> c.used[f % RING] == n.core.used[f % RING])
      && !MispredictedAt(n.(core := c), f)
  {
    Unfolded(n);
    assert RowOk(n.core, n.logs, f % RING);
    var m := n.(core := CoreState.Rewound(n.core, first));
    forall p: nat | p < MAX_PLAYERS && p < m.core.config.playerCount ensures !Mispredicted(m, p, f) {
      if n.core.Simulated(f) { RecordedInput(n, p, f); }
    }
  }

  // ---------------------------------------------------------------- when a confirmed row is there

  predicate Known(n: Node, p: nat, f: nat)
    requires p < MAX_PLAYERS
  {
    f <= n.core.lanes[p].confirmed && Finds(n.core.lanes[p].ring, f)
  }

  lemma SeatIsConfirmed(n: Node, p: nat, f: nat)
    requires NodeOk(n) && p < MAX_PLAYERS && p < n.core.config.playerCount && n.core.Simulated(f) && Known(n, p, f)
    requires n.core.rollback == NONE || f < n.core.rollback
    ensures SeatConfirmed(n.core, f, p)
  {
    Unfolded(n);
    LaneHeld(n, p);
    FindsIsLogged(n.core.lanes[p].ring, n.logs[p], f);
    RecordedInput(n, p, f);
  }

  /** A confirmed row can be read exactly when its frame is simulated and on record, no rollback is pending to it
      or before it, and every seat's input is confirmed and still in the ring: known input then never differs
      from what was simulated. */
  lemma RowExactly(n: Node, f: nat)
    requires NodeOk(n)
    ensures HasConfirmedRow(n.core, f)
      == (&& f <= n.core.last && (n.core.rollback == NONE || f < n.core.rollback) && n.core.Simulated(f)
          && forall p: nat :: p < MAX_PLAYERS && p < n.core.config.playerCount ==> Known(n, p, f))
  {
    Unfolded(n);
    if HasConfirmedRow(n.core, f) {
      forall p: nat | p < MAX_PLAYERS && p < n.core.config.playerCount ensures Known(n, p, f) {
        assert SeatConfirmed(n.core, f, p);
      }
    } else if n.core.Simulated(f) && (n.core.rollback == NONE || f < n.core.rollback) {
      if forall p: nat :: p < MAX_PLAYERS && p < n.core.config.playerCount ==> Known(n, p, f) {
        forall p | 0 <= p < n.core.config.playerCount ensures SeatConfirmed(n.core, f, p) { SeatIsConfirmed(n, p, f); }
      }
    }
  }

  /** Any frame within the rollback limit of the newest one ever simulated can be read as soon as it is simulated,
      settled and confirmed for every seat; and it is what is known of every seat. */
  lemma RowIsThere(n: Node, f: nat)
    requires NodeOk(n) && n.high - n.core.config.maxRollbackFrames < f <= n.core.last
    requires n.core.rollback == NONE || f < n.core.rollback
    requires forall p :: 0 <= p < n.core.config.playerCount ==> f <= n.core.lanes[p].confirmed
    ensures HasConfirmedRow(n.core, f)
    ensures forall p: nat :: p < n.core.config.playerCount ==>
      f in n.logs[p] && ConfirmedRow(n.core, f)[p] == n.logs[p][f]
  {
    Unfolded(n);
    forall p: nat | p < MAX_PLAYERS && p < n.core.config.playerCount ensures Known(n, p, f) {
      LaneHeld(n, p);
      RetainedIsFound(n.core.lanes[p].ring, n.logs[p], Floor(n, p), f);
    }
    RowExactly(n, f);
    forall p: nat | p < n.core.config.playerCount ensures f in n.logs[p] && ConfirmedRow(n.core, f)[p] == n.logs[p][f] {
      ConfirmedRowIsActual(n, f, p);
    }
  }
}
