/** A viewer that pauses, plays, seeks and follows a received stream. It owns its history; the title's world
    and its two callbacks stand for the native adapter. */
module SpectatorStagePlaybacks {
  import opened InputLane
  import opened Options
  import opened Words
  import opened StageStream
  import opened SpectatorStageHistories
  import opened PlaybackState

  datatype Action = Pause | Play | Seek | Live

  /** Where a viewer starts: at the last node of the newest segment that is not ahead, else at its checkpoint. */
  function BootstrapTarget(s: Segment, nodes: nat, frame: nat): nat
    requires nodes <= |s.nodes|
  {
    if nodes == 0 then s.checkpoint.frame
    else if s.nodes[nodes - 1].frame <= frame then s.nodes[nodes - 1].frame
    else BootstrapTarget(s, nodes - 1, frame)
  }

  function StartOf(s: Segment): nat { if s.nodes == [] then s.checkpoint.frame else s.nodes[|s.nodes| - 1].frame }

  class SpectatorStagePlayback<World(!new)> {
    const history: SpectatorStageHistory
    const restoreWorld: Restore<World>
    const tickWorld: Tick<World>
    var position: nat
    var target: nat
    var restoredSerial: Word
    var bootstrapped: bool
    var initialized: bool
    var restore: bool
    var hasRestored: bool
    var paused: bool
    var seeking: bool
    var following: bool
    var liveRequested: bool
    var failed: bool
    var world: Option<World>

    ghost function State(): Player<World>
      reads this
    {
      Player(position, target, restoredSerial, bootstrapped, initialized, restore, hasRestored, paused, seeking,
          following, liveRequested, failed, world)
    }

    ghost predicate Valid()
      reads this, history
    {
      && history.Valid() && (bootstrapped ==> history.segments != [])
      && PlayerOk(State(), history.State(), restoreWorld, tickWorld)
    }

    constructor (restoring: Restore<World>, ticking: Tick<World>)
      ensures Valid() && fresh(history) && history.State() == NO_HISTORY && !bootstrapped
    {
      history := new SpectatorStageHistory();
      restoreWorld, tickWorld := restoring, ticking;
      position, target, restoredSerial, world := 0, 0, 0, None;
      bootstrapped, initialized, restore, hasRestored := false, false, false, false;
      paused, seeking, following, liveRequested, failed := false, false, false, false, false;
    }

    /** Going to a frame that has been received; refused otherwise. */
    method Request(frame: nat, live: bool) returns (ok: bool)
      requires Valid()
      modifies this
      ensures Valid() && ok == Reachable(history.State(), frame) && bootstrapped == old(bootstrapped)
      ensures ok ==>
        Requested(old(State()), history.State(), frame, live) == Some(State()) && Bound(State(), history.State())
      ensures !ok ==> State() == old(State())
    {
      RequestKeeps(State(), history.State(), restoreWorld, tickWorld, frame, live);
      var at := history.Locate(frame);
      if at == None { return false; }
      RequestIsBound(State(), history.State(), frame, live);
      Aim(frame, live, history.segments[at.value].checkpoint.serial);
      ok := true;
    }

    method Aim(frame: nat, live: bool, serial: Word)
      modifies this
      ensures State() == Aimed(old(State()), frame, live, serial)
    {
      restore := restore || !initialized || frame < position || !hasRestored || restoredSerial != serial;
      initialized, target, seeking := true, frame, true;
      liveRequested, following, paused := live, false, false;
    }

    method FindBootstrapTarget(s: Segment, frame: nat) returns (start: nat)
      ensures start == BootstrapTarget(s, |s.nodes|, frame)
    {
      start := s.checkpoint.frame;
      var i := 0;
      while i < |s.nodes|
        invariant 0 <= i <= |s.nodes| && start == BootstrapTarget(s, i, frame)
      {
        if s.nodes[i].frame <= frame { start := s.nodes[i].frame; }
        i := i + 1;
      }
    }

    /** The relay's bootstrap, taken once and only if it matches all that was received, sends the viewer to the
        last boss mark or checkpoint. */
    method ReceiveBootstrap(e: Event) returns (ok: bool)
      requires Valid() && e.kind == BootstrapEvent
      modifies this
      ensures Valid() && ok == (!old(bootstrapped) && history.BootstrapMatches(e))
      ensures !ok ==> State() == old(State())
      ensures ok ==>
        bootstrapped && Bound(State(), history.State()) && history.segments != []
        && target == StartOf(history.State().Last())
    {
      if bootstrapped || !history.BootstrapMatches(e) { return false; }
      var segment := history.segments[|history.segments| - 1];
      var start := FindBootstrapTarget(segment, e.frame);
      assert SegmentOk(segment);
      FirstIsBefore(history.State());
      if |history.segments| > 1 { Ordered(history.segments, 0, |history.segments| - 1); }
      ok := Request(start, false);
      HomeMoves(State(), State().(bootstrapped := true), history.State(), restoreWorld, tickWorld);
      bootstrapped := true;
    }

    method ReceiveEvent(e: Event) returns (ok: bool)
      requires Valid()
      modifies this, history
      ensures Valid()
      ensures e.kind == BootstrapEvent ==> history.State() == old(history.State())
      ensures e.kind != BootstrapEvent ==> State() == old(State()) && ok == AcceptEvent(old(history.State()), e).Some?
      ensures e.kind != BootstrapEvent ==>
        history.State() == (if ok then AcceptEvent(old(history.State()), e).value else old(history.State()))
      ensures e.kind == BootstrapEvent ==> ok == (!old(bootstrapped) && old(history.BootstrapMatches(e)))
      ensures !ok ==> State() == old(State())
      ensures e.kind == BootstrapEvent && ok ==>
        bootstrapped && Bound(State(), history.State()) && history.segments != []
        && target == StartOf(history.State().Last())
    {
      if e.kind == BootstrapEvent {
        ok := ReceiveBootstrap(e);
      } else {
        ghost var h := history.State();
        ok := history.AcceptEvent(e);
        if ok {
          AcceptGrows(h, e);
          ReceiveKeeps(State(), h, history.State(), restoreWorld, tickWorld);
        }
      }
    }

    method ReceiveInput(p: Packet) returns (ok: bool)
      requires Valid()
      modifies history
      ensures Valid() && ok == AcceptInput(old(history.State()), p).Some?
      ensures history.State() == if ok then AcceptInput(old(history.State()), p).value else old(history.State())
    {
      ghost var h := history.State();
      ok := history.AcceptInput(p);
      if ok {
        InputGrows(h, p);
        ReceiveKeeps(State(), h, history.State(), restoreWorld, tickWorld);
      }
    }

    method CurrentEdge() returns (edge: nat)
      requires history.Valid()
      ensures edge == (EdgeWithin(history.State()); Edge(history.State()))
    {
      EdgeWithin(history.State());
      if history.segments == [] { return 0; }
      var first, received := history.segments[0].checkpoint.frame, history.next;
      var span := received - first;
      edge := if history.ended then received else received - (if BUFFER_FRAMES < span then BUFFER_FRAMES else span);
    }

    method SetPaused(flag: bool)
      requires Valid()
      modifies this
      ensures Valid() && State() == old(State()).(paused := flag)
    {
      HomeMoves(State(), State().(paused := flag), history.State(), restoreWorld, tickWorld);
      paused := flag;
    }

    method SeekTo(frame: nat) returns (ok: bool)
      requires Valid()
      modifies this
      ensures Valid() && bootstrapped == old(bootstrapped) && (!ok ==> State() == old(State()))
      ensures ok == (EdgeWithin(history.State()); frame <= Edge(history.State()) && Reachable(history.State(), frame))
      ensures ok ==> Bound(State(), history.State()) && target == frame && paused == old(paused) && !liveRequested
    {
      var edge := CurrentEdge();
      if frame > edge { return false; }
      var was := paused;
      ok := Request(frame, false);
      if ok { SetPaused(was); }
    }

    method GoLive() returns (ok: bool)
      requires Valid()
      modifies this
      ensures Valid() && bootstrapped == old(bootstrapped) && (!ok ==> State() == old(State()))
      ensures ok == (EdgeWithin(history.State()); Reachable(history.State(), Edge(history.State())))
      ensures ok ==>
        Bound(State(), history.State()) && (EdgeWithin(history.State()); target == Edge(history.State()))
        && liveRequested && !paused
    {
      var edge := CurrentEdge();
      ok := Request(edge, true);
    }

    /** Pausing and playing only set a flag; a seek keeps the flag; going live lands a buffer short of the end. */
    method Control(action: Action, frame: nat) returns (ok: bool)
      requires Valid()
      modifies this
      ensures Valid()
      ensures !old(bootstrapped) || old(failed) ==> !ok
      ensures !ok ==> State() == old(State())
      ensures ok ==> match action
        case Pause => State() == old(State()).(paused := true)
        case Play => State() == old(State()).(paused := false)
        case Seek =>
          (EdgeWithin(history.State()); frame <= Edge(history.State())) && Bound(State(),
              history.State()) && target == frame
          && paused == old(paused) && !liveRequested
        case Live =>
          (EdgeWithin(history.State()); target == Edge(history.State())) && Bound(State(),
              history.State()) && liveRequested && !paused
      ensures old(bootstrapped) && !old(failed) ==>
        (ok <==> (action == Seek ==> (EdgeWithin(history.State()); frame <= Edge(history.State()))
                                     && Reachable(history.State(), frame)))
    {
      if !bootstrapped || failed { return false; }
      match action {
        case Pause => SetPaused(true); ok := true;
        case Play => SetPaused(false); ok := true;
        case Seek => ok := SeekTo(frame);
        case Live => EdgeWithin(history.State()); ok := GoLive();
      }
    }

    method Rebuild()
      requires history.Valid()
      modifies this
      ensures State() == Rebuilt(old(State()), history.State(), restoreWorld)
    {
      var at := history.Locate(target);
      if at == None { failed := true; return; }
      var checkpoint := history.segments[at.value].checkpoint;
      var restored := restoreWorld(checkpoint);
      if restored == None { failed := true; return; }
      Place(checkpoint, restored);
    }

    method Place(checkpoint: Event, restored: Option<World>)
      modifies this
      ensures State() == PlacedAt(old(State()), checkpoint, restored)
    {
      restoredSerial, hasRestored, world := checkpoint.serial, true, restored;
      position, restore := checkpoint.frame, false;
    }

    method Install(s: Segment)
      modifies this
      ensures State() == Installed(old(State()), s, restoreWorld)
    {
      if !hasRestored || restoredSerial != s.checkpoint.serial {
        if position != s.checkpoint.frame { failed := true; return; }
        var restored := restoreWorld(s.checkpoint);
        if restored == None { failed := true; return; }
        restoredSerial, hasRestored, world := s.checkpoint.serial, true, restored;
      }
    }

    method TakeTick(packet: Packet) returns (more: bool)
      modifies this
      ensures (State(), more) == Ticked(old(State()), packet, tickWorld)
    {
      var ticked := if world == None then None else tickWorld(world.value, packet);
      if ticked == None { failed := true; return false; }
      world, position := ticked, position + 1;
      if seeking && position == target {
        seeking, following := false, liveRequested;
        return false;
      }
      more := true;
    }

    method TakeTurn() returns (more: bool)
      requires history.Valid()
      modifies this
      ensures (State(), more) == Turn(old(State()), history.State(), restoreWorld, tickWorld)
    {
      FirstIsBefore(history.State());
      var edge := CurrentEdge();
      if position >= (if seeking then target else edge) {
        if seeking { seeking, following := false, liveRequested; }
        return false;
      }
      var at := history.Locate(position);
      if at == None || position - history.segments[at.value].checkpoint.frame >= |history.segments[at.value].inputs| {
        return false;
      }
      var s := history.segments[at.value];
      more := Advance(s, s.inputs[position - s.checkpoint.frame]);
    }

    method Advance(s: Segment, packet: Packet) returns (more: bool)
      modifies this
      ensures (State(), more) == Fed(old(State()), s, packet, restoreWorld, tickWorld)
    {
      Install(s);
      if failed { return false; }
      more := TakeTick(packet);
    }

    /** Restores if a request asked for it, then ticks until the limit, the budget or the time runs out. */
    method Step(timeUp: nat -> bool, budget: nat) returns (ok: bool)
      requires Valid()
      modifies this
      ensures Valid() && ok == !failed
      ensures State() == Stepped(old(State()), history.State(), restoreWorld, tickWorld, timeUp, budget)
      ensures failed && !old(failed) ==> ReplayFails(State(), history.State(), restoreWorld, tickWorld)
    {
      StepKeeps(State(), history.State(), restoreWorld, tickWorld, timeUp, budget);
      if !bootstrapped || (paused && !seeking) || failed { return !failed; }
      RunStep(timeUp, budget);
      ok := !failed;
    }

    method RunStep(timeUp: nat -> bool, budget: nat)
      requires history.Valid() && bootstrapped && (paused ==> seeking) && !failed
      modifies this
      ensures State() == Stepped(old(State()), history.State(), restoreWorld, tickWorld, timeUp, budget)
    {
      if restore {
        Rebuild();
        if failed { return; }
      }
      ghost var start := State();
      var n := 0;
      while n < budget
        invariant 0 <= n <= budget
        invariant Turns(start, history.State(), restoreWorld, tickWorld, timeUp, 0, budget)
               == Turns(State(), history.State(), restoreWorld, tickWorld, timeUp, n, budget)
      {
        var more := TakeTurn();
        if !more || timeUp(n) { return; }
        n := n + 1;
      }
    }
  }
}
