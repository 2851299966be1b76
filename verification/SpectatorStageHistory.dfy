/** What a viewer has received: segments that each begin with a checkpoint, in the order of the stream. */
module SpectatorStageHistories {
  import opened InputLane
  import opened Options
  import opened Words
  import opened StageStream

  class SpectatorStageHistory {
    var segments: seq<Segment>
    var next: Word
    var serial: Word
    var bytes: nat
    var frames: nat
    var ended: bool

    ghost function State(): History
      reads this
    {
      History(segments, next, serial, bytes, frames, ended)
    }

    ghost predicate Valid()
      reads this
    {
      HistoryOk(State()) && bytes <= HISTORY_MAX_BYTES && frames <= HISTORY_MAX_FRAMES
    }

    constructor ()
      ensures Valid() && State() == NO_HISTORY
    {
      segments, next, serial, bytes, frames, ended := [], 0, 0, 0, 0, false;
    }

    method Clear()
      modifies this
      ensures Valid() && State() == NO_HISTORY
    {
      segments, next, serial, bytes, frames, ended := [], 0, 0, 0, 0, false;
    }

    /** A stage event, if it continues the stream and there is room; otherwise nothing changes. */
    method AcceptEvent(e: Event) returns (ok: bool)
      requires Valid()
      modifies this
      ensures Valid() && ok == StageStream.AcceptEvent(old(State()), e).Some?
      ensures State() == if ok then StageStream.AcceptEvent(old(State()), e).value else old(State())
    {
      if !e.Valid() || e.kind == BootstrapEvent { return false; }
      if segments == [] {
        if e.kind != CheckpointEvent { return false; }
      } else {
        var previous := segments[|segments| - 1].checkpoint;
        if ended || e.identity != previous.identity || e.serial <= serial || e.frame != next { return false; }
        if e.kind != CheckpointEvent && e.stage != previous.stage { return false; }
        if e.kind == CheckpointEvent && e.frame <= previous.frame { return false; }
      }
      if EventSize(e) > HISTORY_MAX_BYTES - bytes { return false; }
      if e.kind == NodeEvent && e.checkpoint != segments[|segments| - 1].checkpoint.serial { return false; }
      ghost var before := State();
      assert AdmitsEvent(before, e);
      EventKeeps(before, e);
      Append(e);
      ok := true;
    }

    method Append(e: Event)
      requires AdmitsEvent(State(), e)
      modifies this
      ensures State() == EventAdded(old(State()), e)
    {
      if e.kind == CheckpointEvent {
        segments, next := segments + [Segment(e, [], [], false)], e.frame;
      } else if e.kind == NodeEvent {
        var last := segments[|segments| - 1];
        segments := segments[|segments| - 1 := last.(nodes := last.nodes + [e])];
      } else {
        segments, ended := segments[|segments| - 1 := segments[|segments| - 1].(ended := true)], true;
      }
      serial, bytes := e.serial, bytes + EventSize(e);
    }

    method AllInputsValid(inputs: Inputs, players: nat) returns (ok: bool)
      requires players <= MAX_PLAYERS
      ensures ok == InputsValid(inputs, players)
    {
      var i := 0;
      while i < players
        invariant 0 <= i <= players && InputsValid(inputs, i)
      {
        if !inputs[i].Valid() { return false; }
        i := i + 1;
      }
      ok := true;
    }

    /** The inputs of the next frame, if there is room; otherwise nothing changes. */
    method AcceptInput(p: Packet) returns (ok: bool)
      requires Valid()
      modifies this
      ensures Valid() && ok == StageStream.AcceptInput(old(State()), p).Some?
      ensures State() == if ok then StageStream.AcceptInput(old(State()), p).value else old(State())
    {
      if segments == [] || ended || p.frame != next || p.frame == INVALID_FRAME || frames >= HISTORY_MAX_FRAMES
        || 24 + 12 * p.playerCount as int > HISTORY_MAX_BYTES - bytes { return false; }
      var last := segments[|segments| - 1];
      var id := last.checkpoint.identity;
      if p.sessionId != id.sessionId || p.gameplayAbi != id.gameplayAbi || p.playerCount != id.playerCount {
        return false;
      }
      assert SegmentOk(last);
      ok := AllInputsValid(p.inputs, p.playerCount);
      if !ok { return; }
      InputKeeps(State(), p);
      segments := segments[|segments| - 1 := last.(inputs := last.inputs + [p])];
      next, frames, bytes := next + 1, frames + 1, bytes + (24 + 12 * p.playerCount as int);
    }

    /** The segment a frame belongs to, searched from the newest. */
    method Locate(frame: nat) returns (found: Option<nat>)
      requires Valid()
      ensures found == Located(State(), frame)
      ensures found.Some? <==> segments != [] && segments[0].checkpoint.frame <= frame <= next
      ensures found.Some? ==> found.value < |segments| && Owns(segments, found.value, frame)
    {
      LocatedExactly(State(), frame);
      var i := |segments|;
      while i > 0
        invariant 0 <= i <= |segments| && Located(State(), frame) == LocateIn(segments, i, frame)
      {
        i := i - 1;
        if segments[i].Contains(frame) { return Some(i); }
      }
      found := None;
    }

    predicate BootstrapMatches(e: Event)
      reads this
    {
      && segments != [] && e.kind == BootstrapEvent
      && var checkpoint := segments[|segments| - 1].checkpoint;
      e.Valid() && e.identity == checkpoint.identity && e.frame == next && e.stage == checkpoint.stage
      && e.serial == serial
    }
  }
}
