/** A viewer as a value. Its world is compared with the one reference: the initializer of a segment followed
    by exactly that segment's inputs up to a frame. Restoring and ticking are functions of their arguments
    that may fail. */
module PlaybackState {
  import opened InputLane
  import opened Options
  import opened Words
  import opened StageStream

  const BUFFER_FRAMES: nat := 90

  type Restore<World> = Event -> Option<World>
  type Tick<!World> = (World, Packet) -> Option<World>

  datatype Player<World> = Player(
    position: nat, target: nat, serial: Word, bootstrapped: bool, initialized: bool, restore: bool, hasRestored: bool,
    paused: bool, seeking: bool, following: bool, liveRequested: bool, failed: bool, world: Option<World>)

  /** How far playback may go: to the end of an ended stream, else a buffer short of what was received. */
  function Edge(h: History): nat
    requires h.segments != [] ==> h.segments[0].checkpoint.frame <= h.next
  {
    if h.segments == [] then 0
    else if h.ended then h.next
    else
      var span := h.next - h.segments[0].checkpoint.frame;
      h.next - (if BUFFER_FRAMES < span then BUFFER_FRAMES else span)
  }

  /** The deterministic replay of a checkpoint and the inputs after it. */
  function Replayed<World>(restore: Restore<World>, tick: Tick<World>, checkpoint: Event,
      inputs: seq<Packet>): Option<World> {
    if inputs == [] then restore(checkpoint)
    else
      var before := Replayed(restore, tick, checkpoint, inputs[..|inputs| - 1]);
      if before == None then None else tick(before.value, inputs[|inputs| - 1])
  }

  /** The world of a segment at a frame: its checkpoint followed by its inputs before that frame. */
  function WorldAt<World>(restore: Restore<World>, tick: Tick<World>, s: Segment, frame: nat): Option<World>
    requires s.Contains(frame)
  {
    Replayed(restore, tick, s.checkpoint, s.inputs[..frame - s.checkpoint.frame])
  }

  lemma WorldAtStart<World>(restore: Restore<World>, tick: Tick<World>, s: Segment)
    ensures WorldAt(restore, tick, s, s.checkpoint.frame) == restore(s.checkpoint)
  {
    assert s.inputs[..0] == [];
  }

  lemma WorldAtNext<World>(restore: Restore<World>, tick: Tick<World>, s: Segment, frame: nat, packet: Packet)
    requires s.Contains(frame) && frame < s.End() && packet == s.inputs[frame - s.checkpoint.frame]
    ensures var world := WorldAt(restore, tick, s, frame);
      WorldAt(restore, tick, s, frame + 1) == if world == None then None else tick(world.value, packet)
  {
    var n := frame - s.checkpoint.frame;
    assert s.inputs[..n + 1][..n] == s.inputs[..n] && s.inputs[..n + 1][n] == s.inputs[n];
  }

  /** Inputs still to come do not change it. */
  lemma WorldAtGrows<World>(restore: Restore<World>, tick: Tick<World>, s: Segment, s': Segment, frame: nat)
    requires s.Contains(frame) && s'.checkpoint == s.checkpoint && s.inputs <= s'.inputs
    ensures WorldAt(restore, tick, s', frame) == WorldAt(restore, tick, s, frame)
  {
    var n := frame - s.checkpoint.frame;
    assert s'.inputs[..n] == s.inputs[..n];
  }

  // ---------------------------------------------------------------- what a viewer does

  /** Going to a frame: the world is rebuilt only if it lies ahead or belongs to another segment. */
  function Requested<World>(p: Player<World>, h: History, frame: nat, live: bool): Option<Player<World>> {
    var at := Located(h, frame);
    if at == None || at.value >= |h.segments| then None else
      Some(Aimed(p, frame, live, h.segments[at.value].checkpoint.serial))
  }

  function Aimed<World>(p: Player<World>, frame: nat, live: bool, serial: Word): Player<World> {
    var again := p.restore || !p.initialized || frame < p.position || !p.hasRestored || p.serial != serial;
    p.(restore := again, initialized := true, target := frame, seeking := true, liveRequested := live,
        following := false, paused := false)
  }

  function Rebuilt<World>(p: Player<World>, h: History, restore: Restore<World>): Player<World> {
    var at := Located(h, p.target);
    if at == None || at.value >= |h.segments| then p.(failed := true) else
      var checkpoint := h.segments[at.value].checkpoint;
      var world := restore(checkpoint);
      if world == None then p.(failed := true)
      else PlacedAt(p, checkpoint, world)
  }

  function PlacedAt<World>(p: Player<World>, checkpoint: Event, world: Option<World>): Player<World> {
    p.(serial := checkpoint.serial, hasRestored := true, position := checkpoint.frame, restore := false, world := world)
  }

  /** A segment that has not been restored is installed at its first frame. */
  function Installed<World>(p: Player<World>, s: Segment, restore: Restore<World>): Player<World> {
    if p.hasRestored && p.serial == s.checkpoint.serial then p
    else if p.position != s.checkpoint.frame || restore(s.checkpoint) == None then p.(failed := true)
    else p.(serial := s.checkpoint.serial, hasRestored := true, world := restore(s.checkpoint))
  }

  function Arrived<World>(p: Player<World>): Player<World> { p.(seeking := false, following := p.liveRequested) }

  /** One tick, and whether another may follow. */
  function Ticked<World>(p: Player<World>, packet: Packet, tick: Tick<World>): (Player<World>, bool) {
    if p.world == None then (p.(failed := true), false) else
      var world := tick(p.world.value, packet);
      if world == None then (p.(failed := true), false) else
        var q := p.(position := p.position + 1, world := world);
        if q.seeking && q.position == q.target then (Arrived(q), false) else (q, true)
  }

  function Limit<World>(p: Player<World>, h: History): nat
    requires HistoryOk(h)
  {
    FirstIsBefore(h);
    if p.seeking then p.target else Edge(h)
  }

  /** One turn of the loop of `Step`, and whether another may follow. */
  function Turn<World>(p: Player<World>, h: History, restore: Restore<World>, tick: Tick<World>): (Player<World>, bool)
    requires HistoryOk(h)
  {
    if p.position >= Limit(p, h) then (if p.seeking then Arrived(p) else p, false) else
      LocatedExactly(h, p.position);
      var at := Located(h, p.position);
      if at == None then (p, false) else
        var s := h.segments[at.value];
        if p.position - s.checkpoint.frame >= |s.inputs| then (p, false) else
          Fed(p, s, s.inputs[p.position - s.checkpoint.frame], restore, tick)
  }

  /** The segment installed if need be, and one of its inputs ticked. */
  function Fed<World>(p: Player<World>, s: Segment, packet: Packet, restore: Restore<World>,
      tick: Tick<World>): (Player<World>, bool) {
    var q := Installed(p, s, restore);
    if q.failed then (q, false) else Ticked(q, packet, tick)
  }

  /** Turns until one is the last, the time is up, or the budget is spent. */
  function Turns<World>(p: Player<World>, h: History, restore: Restore<World>, tick: Tick<World>,
                        timeUp: nat -> bool, n: nat, budget: nat): Player<World>
    requires HistoryOk(h) && n <= budget
    decreases budget - n
  {
    if n == budget then p else
      var (q, more) := Turn(p, h, restore, tick);
      if !more || timeUp(n) then q else Turns(q, h, restore, tick, timeUp, n + 1, budget)
  }

  function Stepped<World>(p: Player<World>, h: History, restore: Restore<World>, tick: Tick<World>,
                          timeUp: nat -> bool, budget: nat): Player<World>
    requires HistoryOk(h)
  {
    if !p.bootstrapped || (p.paused && !p.seeking) || p.failed then p else
      var q := if p.restore then Rebuilt(p, h, restore) else p;
      if q.failed then q else Turns(q, h, restore, tick, timeUp, 0, budget)
  }

  lemma FirstIsBefore(h: History)
    requires HistoryOk(h)
    ensures h.segments != [] ==> h.segments[0].checkpoint.frame <= h.next
  {
    if |h.segments| > 1 { Ordered(h.segments, 0, |h.segments| - 1); }
  }

  // ---------------------------------------------------------------- playback is a pure replay

  /** The world is the replay of segment `i` up to the position. */
  ghost predicate Home<World(!new)>(p: Player<World>, h: History, restore: Restore<World>, tick: Tick<World>, i: nat) {
    && i < |h.segments| && p.serial == h.segments[i].checkpoint.serial && h.segments[i].Contains(p.position)
    && p.world.Some? && p.world == WorldAt(restore, tick, h.segments[i], p.position)
  }

  ghost predicate Reachable(h: History, frame: nat) {
    h.segments != [] && h.segments[0].checkpoint.frame <= frame <= h.next
  }

  ghost predicate PlayerOk<World(!new)>(p: Player<World>, h: History, restore: Restore<World>, tick: Tick<World>) {
    && (p.bootstrapped ==> p.initialized && (p.restore || p.hasRestored))
    && (p.restore ==> p.seeking)
    && (p.seeking ==> Reachable(h, p.target) && (!p.restore ==> p.position <= p.target))
    && (p.hasRestored ==> exists i :: Home(p, h, restore, tick, i))
  }

  /** A later history of the same stream. */
  ghost predicate Grows(h: History, h': History) {
    && |h.segments| <= |h'.segments| && h.next <= h'.next
    && forall i :: 0 <= i < |h.segments| ==>
         h'.segments[i].checkpoint == h.segments[i].checkpoint && h.segments[i].inputs <= h'.segments[i].inputs
  }

  lemma AcceptGrows(h: History, e: Event)
    requires AdmitsEvent(h, e) && HistoryOk(h)
    ensures Grows(h, EventAdded(h, e))
  {}

  lemma InputGrows(h: History, q: Packet)
    requires AdmitsInput(h, q)
    ensures Grows(h, InputAdded(h, q))
  {}

  lemma HomeGrows<World(!new)>(p: Player<World>, h: History, h': History, restore: Restore<World>, tick: Tick<World>,
      i: nat)
    requires Grows(h, h') && Home(p, h, restore, tick, i)
    ensures Home(p, h', restore, tick, i)
  {
    WorldAtGrows(restore, tick, h.segments[i], h'.segments[i], p.position);
  }

  /** Receiving more never disturbs the viewer. */
  lemma ReceiveKeeps<World(!new)>(p: Player<World>, h: History, h': History, restore: Restore<World>, tick: Tick<World>)
    requires PlayerOk(p, h, restore, tick) && Grows(h, h')
    ensures PlayerOk(p, h', restore, tick)
  {
    if p.hasRestored {
      var i: nat :| Home(p, h, restore, tick, i);
      HomeGrows(p, h, h', restore, tick, i);
    }
  }

  lemma HomeMoves<World(!new)>(p: Player<World>, q: Player<World>, h: History, restore: Restore<World>,
      tick: Tick<World>)
    requires p.hasRestored ==> exists i :: Home(p, h, restore, tick, i)
    requires q.position == p.position && q.serial == p.serial && q.world == p.world && q.hasRestored == p.hasRestored
    ensures q.hasRestored ==> exists i :: Home(q, h, restore, tick, i)
  {
    if p.hasRestored {
      var i: nat :| Home(p, h, restore, tick, i);
      assert Home(q, h, restore, tick, i);
    }
  }

  /** A request within what was received is granted, and leaves the world alone until the next step. */
  lemma RequestKeeps<World(!new)>(p: Player<World>, h: History, restore: Restore<World>, tick: Tick<World>, frame: nat,
      live: bool)
    requires HistoryOk(h) && PlayerOk(p, h, restore, tick)
    ensures Requested(p, h, frame, live).Some? <==> Reachable(h, frame)
    ensures Requested(p, h, frame, live).Some? ==> PlayerOk(Requested(p, h, frame, live).value, h, restore, tick)
  {
    LocatedExactly(h, frame);
    if Reachable(h, frame) { HomeMoves(p, Requested(p, h, frame, live).value, h, restore, tick); }
  }

  lemma RebuildKeeps<World(!new)>(p: Player<World>, h: History, restore: Restore<World>, tick: Tick<World>)
    requires HistoryOk(h) && PlayerOk(p, h, restore, tick) && p.restore && !p.failed
    ensures PlayerOk(Rebuilt(p, h, restore), h, restore, tick)
    ensures Rebuilt(p, h, restore).failed ==> ReplayFails(Rebuilt(p, h, restore), h, restore, tick)
  {
    LocatedExactly(h, p.target);
    var i, q := Located(h, p.target).value, Rebuilt(p, h, restore);
    if q.failed {
      WorldAtStart(restore, tick, h.segments[i]);
      HomeMoves(p, q, h, restore, tick);
    } else {
      WorldAtStart(restore, tick, h.segments[i]);
      assert Home(q, h, restore, tick, i);
    }
  }

  /** The reference replay of segment `i` does not get as far as `frame`: its checkpoint cannot be restored,
      or one of its inputs before that frame cannot be ticked after all those before it. */
  ghost predicate StopsShort<World(!new)>(h: History, restore: Restore<World>, tick: Tick<World>, i: nat, frame: nat) {
    i < |h.segments| && h.segments[i].Contains(frame) && WorldAt(restore, tick, h.segments[i], frame) == None
  }

  /** Why a viewer may fail: the checkpoint it was asked to rebuild from cannot be restored, or the replay of
      the segment that owns its position does not get past that position. */
  ghost predicate ReplayFails<World(!new)>(q: Player<World>, h: History, restore: Restore<World>, tick: Tick<World>) {
    var at := Located(h, if q.restore then q.target else q.position);
    && at.Some? && at.value < |h.segments|
    && StopsShort(h, restore, tick, at.value,
                  if q.restore then h.segments[at.value].checkpoint.frame else q.position + 1)
  }

  /** The segment that holds the next input is the restored one, or begins right here. */
  lemma HomeOrNext<World(!new)>(p: Player<World>, h: History, restore: Restore<World>, tick: Tick<World>, i: nat,
      j: nat)
    requires HistoryOk(h) && Home(p, h, restore, tick, i) && j < |h.segments| && Owns(h.segments, j, p.position)
    ensures p.serial == h.segments[j].checkpoint.serial ==> i == j
    ensures p.serial != h.segments[j].checkpoint.serial ==> p.position == h.segments[j].checkpoint.frame
  {
    if i < j { Ordered(h.segments, i, j); }
    if j < i {
      Ordered(h.segments, j, i);
      if j + 1 < i { Ordered(h.segments, j + 1, i); }
    }
  }

  /** Either the viewer is home in the segment that owns its position, or that segment begins there. */
  lemma HomeOrStart<World(!new)>(p: Player<World>, h: History, restore: Restore<World>, tick: Tick<World>, j: nat)
    requires HistoryOk(h) && PlayerOk(p, h, restore, tick) && p.hasRestored
    requires j < |h.segments| && Owns(h.segments, j, p.position)
    ensures p.serial == h.segments[j].checkpoint.serial ==> Home(p, h, restore, tick, j)
    ensures p.serial != h.segments[j].checkpoint.serial ==> p.position == h.segments[j].checkpoint.frame
  {
    var i: nat :| Home(p, h, restore, tick, i);
    HomeOrNext(p, h, restore, tick, i, j);
  }

  /** A segment installed at its first frame is the replay of nothing after its checkpoint. */
  lemma StartIsHome<World(!new)>(q: Player<World>, h: History, restore: Restore<World>, tick: Tick<World>, j: nat)
    requires j < |h.segments| && q.serial == h.segments[j].checkpoint.serial
      && q.position == h.segments[j].checkpoint.frame
    requires q.world.Some? && q.world == restore(h.segments[j].checkpoint)
    ensures Home(q, h, restore, tick, j)
  {
    WorldAtStart(restore, tick, h.segments[j]);
  }

  lemma InstallKeeps<World(!new)>(p: Player<World>, h: History, restore: Restore<World>, tick: Tick<World>, j: nat,
      q: Player<World>)
    requires j < |h.segments| && p.hasRestored && !p.failed && q == Installed(p, h.segments[j], restore)
    requires p.serial == h.segments[j].checkpoint.serial ==> Home(p, h, restore, tick, j)
    requires p.serial != h.segments[j].checkpoint.serial ==> p.position == h.segments[j].checkpoint.frame
    ensures if q.failed then
        restore(h.segments[j].checkpoint) == None && p.position == h.segments[j].checkpoint.frame
        && q == p.(failed := true)
      else Home(q, h, restore, tick, j) && q == p.(serial := q.serial, world := q.world)
  {
    if p.serial != h.segments[j].checkpoint.serial && !q.failed { StartIsHome(q, h, restore, tick, j); }
  }

  lemma TickHome<World(!new)>(p: Player<World>, h: History, restore: Restore<World>, tick: Tick<World>, j: nat,
      packet: Packet)
    requires Home(p, h, restore, tick, j) && p.position < h.segments[j].End() && !p.failed
    requires packet == h.segments[j].inputs[p.position - h.segments[j].checkpoint.frame]
    ensures var (q, more) := Ticked(p, packet, tick);
      if q.failed then StopsShort(h, restore, tick, j, p.position + 1) && q == p.(failed := true) && !more
      else Home(q, h, restore, tick, j) && q.position == p.position + 1
  {
    WorldAtNext(restore, tick, h.segments[j], p.position, packet);
  }

  /** A checkpoint that cannot be restored stops the replay at once. */
  lemma NeverStarts<World(!new)>(h: History, restore: Restore<World>, tick: Tick<World>, j: nat)
    requires j < |h.segments| && restore(h.segments[j].checkpoint) == None && h.segments[j].inputs != []
    ensures StopsShort(h, restore, tick, j, h.segments[j].checkpoint.frame + 1)
  {
    WorldAtStart(restore, tick, h.segments[j]);
    WorldAtNext(restore, tick, h.segments[j], h.segments[j].checkpoint.frame, h.segments[j].inputs[0]);
  }

  lemma EdgeWithin(h: History)
    requires HistoryOk(h)
    ensures h.segments != [] ==>
      h.segments[0].checkpoint.frame <= h.next && h.segments[0].checkpoint.frame <= Edge(h) <= h.next
  {
    FirstIsBefore(h);
  }

  /** Short of the limit there is always an input, in the segment that owns the position. */
  lemma InputAhead<World(!new)>(p: Player<World>, h: History, restore: Restore<World>, tick: Tick<World>)
    requires HistoryOk(h) && PlayerOk(p, h, restore, tick) && p.hasRestored && p.position < h.next
    ensures Located(h, p.position).Some?
    ensures var j := Located(h, p.position).value;
      j < |h.segments| && Owns(h.segments, j, p.position) && p.position < h.segments[j].End()
  {
    var i: nat :| Home(p, h, restore, tick, i);
    if i > 0 { Ordered(h.segments, 0, i); }
    LocatedExactly(h, p.position);
    var j := Located(h, p.position).value;
    if j + 1 < |h.segments| { assert Follows(h.segments, j + 1); }
  }

  /** Ready to take turns. */
  ghost predicate Ready<World(!new)>(p: Player<World>, h: History, restore: Restore<World>, tick: Tick<World>) {
    PlayerOk(p, h, restore, tick) && p.hasRestored && !p.restore && !p.failed
  }

  lemma TurnShort<World(!new)>(p: Player<World>, h: History, restore: Restore<World>, tick: Tick<World>)
    requires HistoryOk(h) && Ready(p, h, restore, tick)
    requires p.position >= Limit(p, h)
    ensures var (q, more) := Turn(p, h, restore, tick);
      Ready(q, h, restore, tick) && !more && q == (if p.seeking then Arrived(p) else p)
  {
    HomeMoves(p, Arrived(p), h, restore, tick);
  }

  /** A turn short of the limit installs the segment that owns the position and ticks its next input. */
  lemma TurnIs<World(!new)>(p: Player<World>, h: History, restore: Restore<World>, tick: Tick<World>, j: nat)
    requires HistoryOk(h) && p.position < Limit(p, h) && Located(h, p.position) == Some(j)
    requires j < |h.segments| && h.segments[j].checkpoint.frame <= p.position < h.segments[j].End()
    ensures Turn(p, h, restore, tick) == Fed(p, h.segments[j], NextPacket(h, j, p.position), restore, tick)
  {}

  function NextPacket(h: History, j: nat, position: nat): Packet
    requires j < |h.segments| && h.segments[j].checkpoint.frame <= position < h.segments[j].End()
  {
    h.segments[j].inputs[position - h.segments[j].checkpoint.frame]
  }

  lemma FedMoves<World(!new)>(p: Player<World>, h: History, restore: Restore<World>, tick: Tick<World>, j: nat,
      packet: Packet)
    requires HistoryOk(h) && Ready(p, h, restore, tick) && (p.seeking ==> p.position < p.target)
    requires Located(h, p.position) == Some(j) && j < |h.segments| && Owns(h.segments, j, p.position)
    requires h.segments[j].checkpoint.frame <= p.position < h.segments[j].End()
      && packet == NextPacket(h, j, p.position)
    ensures var (q, more) := Fed(p, h.segments[j], packet, restore, tick);
      TurnOk(p, q, more, h, restore, tick, j)
  {
    HomeOrStart(p, h, restore, tick, j);
    var q := Installed(p, h.segments[j], restore);
    InstallKeeps(p, h, restore, tick, j, q);
    if q.failed {
      NeverStarts(h, restore, tick, j);
      HomeMoves(p, q, h, restore, tick);
    } else {
      FedTicks(p, q, h, restore, tick, j, packet);
    }
  }

  lemma FedTicks<World(!new)>(p: Player<World>, q: Player<World>, h: History, restore: Restore<World>,
      tick: Tick<World>, j: nat, packet: Packet)
    requires Ready(p, h, restore, tick) && (p.seeking ==> p.position < p.target)
    requires Located(h, p.position) == Some(j) && j < |h.segments|
    requires h.segments[j].checkpoint.frame <= p.position < h.segments[j].End()
      && packet == NextPacket(h, j, p.position)
    requires Home(q, h, restore, tick, j) && q == p.(serial := q.serial, world := q.world)
    ensures var (r, more) := Ticked(q, packet, tick);
      TurnOk(p, r, more, h, restore, tick, j)
  {
    TickHome(q, h, restore, tick, j, packet);
    AfterTick(p, q, h, restore, tick, j, packet);
  }

  lemma TurnMoves<World(!new)>(p: Player<World>, h: History, restore: Restore<World>, tick: Tick<World>)
    requires HistoryOk(h) && Ready(p, h, restore, tick) && p.position < Limit(p, h)
    ensures Located(h, p.position).Some? && Located(h, p.position).value < |h.segments|
    ensures var (q, more) := Turn(p, h, restore, tick);
      TurnOk(p, q, more, h, restore, tick, Located(h, p.position).value)
  {
    EdgeWithin(h);
    InputAhead(p, h, restore, tick);
    var j := Located(h, p.position).value;
    TurnIs(p, h, restore, tick, j);
    FedMoves(p, h, restore, tick, j, NextPacket(h, j, p.position));
  }

  /** What a turn short of the limit comes to. */
  ghost predicate TurnOk<World(!new)>(p: Player<World>, q: Player<World>, more: bool, h: History,
      restore: Restore<World>, tick: Tick<World>,
                                      j: nat)
  {
    if q.failed then ReplayFails(q, h, restore, tick) && !more && PlayerOk(q, h, restore, tick)
    else
      && Ready(q, h, restore, tick) && q.position == p.position + 1 && Home(q, h, restore, tick, j)
      && q.target == p.target && q.bootstrapped == p.bootstrapped
      && more == !(p.seeking && q.position == p.target) && q.seeking == (p.seeking && more)
  }

  lemma AfterTick<World(!new)>(p: Player<World>, q: Player<World>, h: History, restore: Restore<World>,
      tick: Tick<World>, j: nat,
                               packet: Packet)
    requires Ready(p, h, restore, tick) && q == p.(serial := q.serial, world := q.world) && Home(q, h, restore, tick, j)
    requires p.position < h.segments[j].End() && (p.seeking ==> p.position < p.target)
    requires var (r, more) := Ticked(q, packet, tick);
      if r.failed then r == q.(failed := true) && !more
      else Home(r, h, restore, tick, j) && r.position == q.position + 1
    ensures var (r, more) := Ticked(q, packet, tick);
      && PlayerOk(r, h, restore, tick)
      && (!r.failed ==> Ready(r, h, restore, tick) && r.target == p.target && r.bootstrapped == p.bootstrapped
                        && more == !(p.seeking && r.position == p.target) && r.seeking == (p.seeking && more))
  {
    var (r, more) := Ticked(q, packet, tick);
    if r.failed { assert Home(r, h, restore, tick, j); }
  }

  lemma {:induction false} TurnsKeep<World(!new)>(p: Player<World>, h: History, restore: Restore<World>,
      tick: Tick<World>,
                                                  timeUp: nat -> bool, n: nat, budget: nat)
    requires HistoryOk(h) && n <= budget && Ready(p, h, restore, tick)
    ensures var q := Turns(p, h, restore, tick, timeUp, n, budget);
      PlayerOk(q, h, restore, tick) && (q.failed ==> ReplayFails(q, h, restore, tick))
    decreases budget - n
  {
    if n == budget { return; }
    var (q, more) := Turn(p, h, restore, tick);
    if p.position >= Limit(p, h) { TurnShort(p, h, restore, tick); } else { TurnMoves(p, h, restore, tick); }
    if more && !timeUp(n) { TurnsKeep(q, h, restore, tick, timeUp, n + 1, budget); }
  }

  /** Whatever a viewer is asked to do, its world stays the replay of the segment it restored, and it fails
      only because restoring or ticking failed. */
  lemma StepKeeps<World(!new)>(p: Player<World>, h: History, restore: Restore<World>, tick: Tick<World>,
                               timeUp: nat -> bool, budget: nat)
    requires HistoryOk(h) && PlayerOk(p, h, restore, tick)
    ensures var q := Stepped(p, h, restore, tick, timeUp, budget);
      PlayerOk(q, h, restore, tick) && (q.failed && !p.failed ==> ReplayFails(q, h, restore, tick))
  {
    if !p.bootstrapped || (p.paused && !p.seeking) || p.failed { return; }
    var q := p;
    if p.restore {
      q := Rebuilt(p, h, restore);
      RebuildKeeps(p, h, restore, tick);
    }
    if !q.failed { TurnsKeep(q, h, restore, tick, timeUp, 0, budget); }
  }

  /** A paused viewer that is not seeking stays exactly where it is. */
  lemma PausedStays<World(!new)>(p: Player<World>, h: History, restore: Restore<World>, tick: Tick<World>,
                                 timeUp: nat -> bool, budget: nat)
    requires HistoryOk(h) && p.paused && !p.seeking
    ensures Stepped(p, h, restore, tick, timeUp, budget) == p
  {}

  /** How far playback may go in a good history. */
  function EdgeOf(h: History): nat
    requires HistoryOk(h)
  {
    FirstIsBefore(h);
    Edge(h)
  }

  /** A live viewer stays ninety frames behind what was received, or at the start while there are fewer; once the
      stream has ended it may go to the end. */
  lemma EdgeLags(h: History)
    requires HistoryOk(h) && h.segments != []
    ensures var span := h.next - h.segments[0].checkpoint.frame;
      h.next - EdgeOf(h) == if h.ended then 0 else if span < 90 then span else 90
  {
    FirstIsBefore(h);
  }

  /** What a granted request latches, and that it rebuilds only for a frame that lies behind, in another segment, or
      before anything was restored. */
  lemma RequestLatches<World(!new)>(p: Player<World>, h: History, frame: nat, live: bool)
    requires HistoryOk(h) && Requested(p, h, frame, live).Some?
    ensures Located(h, frame).Some? && Located(h, frame).value < |h.segments|
    ensures var q := Requested(p, h, frame, live).value;
      && q.target == frame && q.seeking && q.liveRequested == live && !q.following && !q.paused && q.initialized
      && q.position == p.position && q.world == p.world && q.failed == p.failed
      && q.restore == (p.restore || !p.initialized || !p.hasRestored || frame < p.position
                       || p.serial != h.segments[Located(h, frame).value].checkpoint.serial)
  {
    LocatedExactly(h, frame);
  }

  /** What may have changed of a viewer's intentions: it has arrived. */
  predicate Heads<World>(p: Player<World>, q: Player<World>) {
    && q.liveRequested == p.liveRequested
    && (q.seeking == p.seeking ==> q.following == p.following)
    && (q.seeking != p.seeking ==> p.seeking && q.following == p.liveRequested)
  }

  /** Only the world, the position and the checkpoint it was restored from may differ. */
  predicate SameHeads<World(!new)>(p: Player<World>, q: Player<World>) {
    q.seeking == p.seeking && q.following == p.following && q.liveRequested == p.liveRequested
  }

  lemma InstalledHeads<World(!new)>(p: Player<World>, s: Segment, restore: Restore<World>, q: Player<World>)
    requires q == Installed(p, s, restore)
    ensures SameHeads(p, q)
  {
    if q != p {
      assert q == p.(failed := true) || q == p.(serial := q.serial, hasRestored := true, world := q.world);
    }
  }

  lemma TickedHeads<World(!new)>(p: Player<World>, packet: Packet, tick: Tick<World>, q: Player<World>)
    requires q == Ticked(p, packet, tick).0
    ensures Heads(p, q)
  {}

  lemma FedHeads<World(!new)>(p: Player<World>, s: Segment, packet: Packet, restore: Restore<World>, tick: Tick<World>,
      r: Player<World>)
    requires r == Fed(p, s, packet, restore, tick).0
    ensures Heads(p, r)
  {
    var q := Installed(p, s, restore);
    InstalledHeads(p, s, restore, q);
    if !q.failed { TickedHeads(q, packet, tick, r); }
  }

  lemma TurnHeads<World(!new)>(p: Player<World>, h: History, restore: Restore<World>, tick: Tick<World>,
      q: Player<World>)
    requires HistoryOk(h) && q == Turn(p, h, restore, tick).0
    ensures Heads(p, q)
  {
    LocatedExactly(h, p.position);
    var at := Located(h, p.position);
    if p.position < Limit(p, h) && at.Some? {
      if p.position < h.segments[at.value].End() {
        TurnIs(p, h, restore, tick, at.value);
        FedHeads(p, h.segments[at.value], NextPacket(h, at.value, p.position), restore, tick, q);
      } else {
        TurnStops(p, h, restore, tick, at.value);
      }
    }
  }

  /** Without an input the turn changes nothing. */
  lemma TurnStops<World(!new)>(p: Player<World>, h: History, restore: Restore<World>, tick: Tick<World>, j: nat)
    requires HistoryOk(h) && p.position < Limit(p, h) && Located(h, p.position) == Some(j)
    requires j < |h.segments| && h.segments[j].End() <= p.position
    ensures Turn(p, h, restore, tick) == (p, false)
  {}

  lemma {:induction false} TurnsHead<World(!new)>(p: Player<World>, h: History, restore: Restore<World>,
      tick: Tick<World>, timeUp: nat -> bool, n: nat, budget: nat)
    requires HistoryOk(h) && n <= budget
    ensures Heads(p, Turns(p, h, restore, tick, timeUp, n, budget))
    decreases budget - n
  {
    if n == budget { return; }
    var (q, more) := Turn(p, h, restore, tick);
    TurnHeads(p, h, restore, tick, q);
    if more && !timeUp(n) { TurnsHead(q, h, restore, tick, timeUp, n + 1, budget); }
  }

  /** Arriving, and only arriving, makes a viewer follow the live edge, and only if it went there to go live. */
  lemma ArrivalFollows<World(!new)>(p: Player<World>, h: History, restore: Restore<World>, tick: Tick<World>,
                                    timeUp: nat -> bool, budget: nat)
    requires HistoryOk(h)
    ensures var q := Stepped(p, h, restore, tick, timeUp, budget);
      && q.liveRequested == p.liveRequested
      && q.following == if p.seeking && !q.seeking then p.liveRequested else p.following
  {
    if !p.bootstrapped || (p.paused && !p.seeking) || p.failed { return; }
    var q := if p.restore then Rebuilt(p, h, restore) else p;
    if !q.failed { TurnsHead(q, h, restore, tick, timeUp, 0, budget); }
  }

  /** Where `turns` turns of plain playback lead: as many frames on, but not past the edge. */
  function PlayedTo(position: nat, edge: nat, turns: nat): nat {
    if edge <= position then position else if position + turns < edge then position + turns else edge
  }

  lemma {:induction false} TurnsPlay<World(!new)>(p: Player<World>, h: History, restore: Restore<World>,
      tick: Tick<World>, timeUp: nat -> bool, n: nat, budget: nat)
    requires HistoryOk(h) && n <= budget && Ready(p, h, restore, tick) && !p.seeking && forall k: nat :: !timeUp(k)
    ensures var q := Turns(p, h, restore, tick, timeUp, n, budget);
      if q.failed then ReplayFails(q, h, restore, tick)
      else !q.seeking && q.position == PlayedTo(p.position, EdgeOf(h), budget - n)
    decreases budget - n
  {
    if n == budget { return; }
    var (q, more) := Turn(p, h, restore, tick);
    if p.position >= Limit(p, h) { TurnShort(p, h, restore, tick); } else {
      TurnMoves(p, h, restore, tick);
      if more { TurnsPlay(q, h, restore, tick, timeUp, n + 1, budget); }
    }
  }

  /** A playing viewer with time enough goes on by its whole budget, or to the edge if that is nearer, unless the
      replay cannot be carried out. */
  lemma PlaysByBudget<World(!new)>(p: Player<World>, h: History, restore: Restore<World>, tick: Tick<World>,
                                   timeUp: nat -> bool, budget: nat)
    requires HistoryOk(h) && PlayerOk(p, h, restore, tick) && p.bootstrapped && !p.paused && !p.seeking && !p.failed
    requires forall k: nat :: !timeUp(k)
    ensures var q := Stepped(p, h, restore, tick, timeUp, budget);
      if q.failed then ReplayFails(q, h, restore, tick)
      else !q.seeking && q.position == PlayedTo(p.position, EdgeOf(h), budget)
  {
    TurnsPlay(p, h, restore, tick, timeUp, 0, budget);
  }

  // ---------------------------------------------------------------- where a seek ends

  /** The segment that a seek to `target` must show. */
  function OwnerOf(h: History, target: nat): nat
    requires HistoryOk(h) && Located(h, target).Some?
    ensures OwnerOf(h, target) < |h.segments| && Owns(h.segments, OwnerOf(h, target), target)
  {
    LocatedExactly(h, target);
    Located(h, target).value
  }

  /** On the way to its target in the target's own segment, or about to be put there. */
  ghost predicate Bound<World(!new)>(p: Player<World>, h: History)
    requires HistoryOk(h)
  {
    p.seeking && Located(h, p.target).Some?
    && (p.restore || p.serial == h.segments[OwnerOf(h, p.target)].checkpoint.serial)
  }

  /** At its target, showing the replay of the target's own segment up to it. */
  ghost predicate Shows<World(!new)>(p: Player<World>, h: History, restore: Restore<World>, tick: Tick<World>,
      target: nat)
    requires HistoryOk(h)
  {
    !p.seeking && p.position == target && Located(h, target).Some? && Home(p, h, restore, tick, OwnerOf(h, target))
  }

  lemma RequestIsBound<World(!new)>(p: Player<World>, h: History, frame: nat, live: bool)
    requires HistoryOk(h) && Requested(p, h, frame, live).Some?
    ensures Bound(Requested(p, h, frame, live).value, h) && Requested(p, h, frame, live).value.target == frame
  {
    LocatedExactly(h, frame);
  }

  lemma SerialNamesSegment(h: History, i: nat, j: nat)
    requires HistoryOk(h) && i < |h.segments| && j < |h.segments|
      && h.segments[i].checkpoint.serial == h.segments[j].checkpoint.serial
    ensures i == j
  {
    if i < j { Ordered(h.segments, i, j); }
    if j < i { Ordered(h.segments, j, i); }
  }

  /** Before the target, the owner of the position is the owner of the target if the position is in it. */
  lemma StaysHome<World(!new)>(p: Player<World>, h: History, restore: Restore<World>, tick: Tick<World>, i: nat)
    requires HistoryOk(h) && Located(h, p.target).Some? && i == OwnerOf(h, p.target)
    requires Home(p, h, restore, tick, i) && p.position < p.target && Located(h, p.position).Some?
    ensures OwnerOf(h, p.position) == i
  {
    OwnerIsUnique(h.segments, i, OwnerOf(h, p.position), p.position);
  }

  lemma BoundHome<World(!new)>(p: Player<World>, h: History, restore: Restore<World>, tick: Tick<World>)
    requires HistoryOk(h) && Ready(p, h, restore, tick) && Bound(p, h)
    ensures Home(p, h, restore, tick, OwnerOf(h, p.target))
  {
    var i: nat :| Home(p, h, restore, tick, i);
    SerialNamesSegment(h, i, OwnerOf(h, p.target));
  }

  lemma TurnTowards<World(!new)>(p: Player<World>, h: History, restore: Restore<World>, tick: Tick<World>)
    requires HistoryOk(h) && Ready(p, h, restore, tick) && Bound(p, h)
    ensures var (q, more) := Turn(p, h, restore, tick);
      if q.failed then ReplayFails(q, h, restore, tick) && !more
      else if more
      then Ready(q, h, restore, tick) && Bound(q, h) && q.target == p.target && q.position == p.position + 1
      else Shows(q, h, restore, tick, p.target)
  {
    BoundHome(p, h, restore, tick);
    var i := OwnerOf(h, p.target);
    if p.position >= Limit(p, h) {
      TurnShort(p, h, restore, tick);
      assert Home(Arrived(p), h, restore, tick, i);
    } else {
      TurnMoves(p, h, restore, tick);
      StaysHome(p, h, restore, tick, i);
    }
  }

  lemma {:induction false} TurnsTowards<World(!new)>(p: Player<World>, h: History, restore: Restore<World>,
      tick: Tick<World>,
                                                     timeUp: nat -> bool, n: nat, budget: nat)
    requires HistoryOk(h) && n <= budget && Ready(p, h, restore, tick) && Bound(p, h)
    ensures var q := Turns(p, h, restore, tick, timeUp, n, budget);
      if q.failed then ReplayFails(q, h, restore, tick)
      else if q.seeking then Ready(q, h, restore, tick) && Bound(q, h) && q.target == p.target
      else Shows(q, h, restore, tick, p.target)
    ensures var q := Turns(p, h, restore, tick, timeUp, n, budget);
      !q.failed && q.seeking && (forall k :: n <= k < budget ==> !timeUp(k)) ==> q.position == p.position + (budget - n)
    decreases budget - n
  {
    if n == budget { return; }
    var (q, more) := Turn(p, h, restore, tick);
    TurnTowards(p, h, restore, tick);
    if more && !timeUp(n) { TurnsTowards(q, h, restore, tick, timeUp, n + 1, budget); }
  }

  /** Where a seek ends does not depend on where it began: unless a callback fails, the viewer is either
      still bound for its target or at it, showing the replay of the segment that owns it up to it. */
  lemma SeekEndsAtTarget<World(!new)>(p: Player<World>, h: History, restore: Restore<World>, tick: Tick<World>,
                                      timeUp: nat -> bool, budget: nat)
    requires HistoryOk(h) && PlayerOk(p, h, restore, tick) && Bound(p, h) && p.bootstrapped && !p.failed
    ensures var q := Stepped(p, h, restore, tick, timeUp, budget);
      if q.failed then ReplayFails(q, h, restore, tick)
      else if q.seeking then Bound(q, h) && q.target == p.target
      else Shows(q, h, restore, tick, p.target)
  {
    var q := Placed(p, h, restore, tick);
    if !q.failed { TurnsTowards(q, h, restore, tick, timeUp, 0, budget); }
  }

  /** The player that takes the turns of a step. */
  lemma Placed<World(!new)>(p: Player<World>, h: History, restore: Restore<World>, tick: Tick<World>)
    returns (q: Player<World>)
    requires HistoryOk(h) && PlayerOk(p, h, restore, tick) && Bound(p, h) && p.bootstrapped && !p.failed
    ensures q == if p.restore then Rebuilt(p, h, restore) else p
    ensures if q.failed then ReplayFails(q, h, restore, tick)
      else Ready(q, h, restore, tick) && Bound(q,
            h) && q.target == p.target && h.segments[0].checkpoint.frame <= q.position <= q.target
  {
    q := p;
    if p.restore {
      q := Rebuilt(p, h, restore);
      RebuildKeeps(p, h, restore, tick);
    }
    if !q.failed {
      BoundHome(q, h, restore, tick);
      if OwnerOf(h, p.target) > 0 { Ordered(h.segments, 0, OwnerOf(h, p.target)); }
    }
  }

  /** With time enough a seek arrives: one step of more turns than there are frames to the target. */
  lemma SeekArrives<World(!new)>(p: Player<World>, h: History, restore: Restore<World>, tick: Tick<World>,
                                 timeUp: nat -> bool, budget: nat)
    requires HistoryOk(h) && PlayerOk(p, h, restore, tick) && Bound(p, h) && p.bootstrapped && !p.failed
    requires forall k: nat :: !timeUp(k)
    requires budget > p.target - h.segments[0].checkpoint.frame
    ensures var q := Stepped(p, h, restore, tick, timeUp, budget);
      q.failed || Shows(q, h, restore, tick, p.target)
  {
    var q := Placed(p, h, restore, tick);
    if !q.failed { TurnsTowards(q, h, restore, tick, timeUp, 0, budget); }
  }

  /** The seam before segment `i`: one viewer has come to the end of the segment before, the other has installed
      segment `i` at its first frame. */
  ghost predicate Across<World>(p: Player<World>, q: Player<World>, h: History, i: nat) {
    && 0 < i < |h.segments| && p.position == h.segments[i].checkpoint.frame
    && p.serial == h.segments[i - 1].checkpoint.serial && q.serial == h.segments[i].checkpoint.serial
  }

  /** Replaying the segment before to its end does not give what the checkpoint of segment `i` restores. */
  ghost predicate Tears<World(!new)>(h: History, restore: Restore<World>, tick: Tick<World>, i: nat)
    requires 0 < i < |h.segments|
  {
    WorldAt(restore, tick, h.segments[i - 1], h.segments[i - 1].End()) != restore(h.segments[i].checkpoint)
  }

  /** No segment but the last is empty, so only neighbours meet. */
  lemma Apart(segments: seq<Segment>, i: nat, j: nat)
    requires Chained(segments) && i + 1 < j < |segments|
    ensures segments[i].End() < segments[j].checkpoint.frame
  {
    Ordered(segments, i, i + 1);
    Ordered(segments, i + 1, j);
    assert Follows(segments, i + 2);
  }

  /** Viewers at the same frame in different segments stand at a seam, on either side of it. */
  lemma HomesMeet<World(!new)>(p: Player<World>, q: Player<World>, h: History, restore: Restore<World>,
      tick: Tick<World>, i: nat, j: nat)
    requires HistoryOk(h) && Home(p, h, restore, tick, i) && Home(q, h, restore, tick, j)
    requires p.position == q.position && i < j
    ensures j == i + 1 && Across(p, q, h, j)
    ensures p.world == WorldAt(restore, tick, h.segments[i], h.segments[i].End())
    ensures q.world == restore(h.segments[j].checkpoint)
  {
    Ordered(h.segments, i, j);
    if i + 1 < j { Apart(h.segments, i, j); }
    WorldAtStart(restore, tick, h.segments[j]);
  }

  lemma AcrossIsHome<World(!new)>(p: Player<World>, q: Player<World>, h: History, restore: Restore<World>,
      tick: Tick<World>, i: nat, j: nat, k: nat)
    requires HistoryOk(h) && Home(p, h, restore, tick, i) && Home(q, h, restore, tick, j) && Across(p, q, h, k)
    ensures i == k - 1 && j == k
  {
    SerialNamesSegment(h, i, k - 1);
    SerialNamesSegment(h, j, k);
  }

  lemma WorldsMeet<World(!new)>(p: Player<World>, q: Player<World>, h: History, restore: Restore<World>,
      tick: Tick<World>, i: nat, j: nat)
    requires HistoryOk(h) && Home(p, h, restore, tick, i) && Home(q, h, restore, tick, j) && p.position == q.position
    ensures (p.world != q.world) == ((i < j && Tears(h, restore, tick, j)) || (j < i && Tears(h, restore, tick, i)))
    ensures i < j ==> Across(p, q, h, j)
    ensures j < i ==> Across(q, p, h, i)
  {
    if i < j { HomesMeet(p, q, h, restore, tick, i, j); }
    if j < i { HomesMeet(q, p, h, restore, tick, j, i); }
  }

  /** Two viewers of the same stream at the same frame show different worlds exactly when they stand on either
      side of a seam that tears, however they came there. */
  lemma SamePositionSameWorld<World(!new)>(p: Player<World>, q: Player<World>, h: History, restore: Restore<World>,
      tick: Tick<World>)
    requires HistoryOk(h) && PlayerOk(p, h, restore, tick) && PlayerOk(q, h, restore, tick) && p.hasRestored
      && q.hasRestored
    requires p.position == q.position
    ensures (p.world != q.world)
      == exists k :: 0 < k < |h.segments| && (Across(p, q, h, k) || Across(q, p, h, k)) && Tears(h, restore, tick, k)
  {
    var i: nat :| Home(p, h, restore, tick, i);
    var j: nat :| Home(q, h, restore, tick, j);
    WorldsMeet(p, q, h, restore, tick, i, j);
    forall k | 0 < k < |h.segments| && (Across(p, q, h, k) || Across(q, p, h, k)) && Tears(h, restore, tick, k)
      ensures p.world != q.world
    {
      if Across(p, q, h, k) { AcrossIsHome(p, q, h, restore, tick, i, j, k); }
      else { AcrossIsHome(q, p, h, restore, tick, j, i, k); }
    }
  }
}
