/** The spectator stream: stage events and confirmed inputs, and the history a receiver builds from them. */
module StageStream {
  import opened InputLane
  import opened Options
  import opened Words

  const HISTORY_MAX_FRAMES: nat := 108000
  const HISTORY_MAX_BYTES: nat := 16777216
  const EVENT_HEADER: nat := 32
  const MAX_STATE: nat := 61440
  const MAX_STAGE: nat := 65535

  /** The games that take part: '6', '7', '8', 'A', 'B' and 'F'. */
  predicate Cooperative(game: Byte) { game == 54 || game == 55 || game == 56 || game == 65 || game == 66 || game == 70 }

  datatype Identity = Identity(game: Byte, playerCount: Byte, sessionId: nat, gameplayAbi: Word)
  {
    predicate Valid() { Cooperative(game) && 2 <= playerCount <= MAX_PLAYERS && sessionId != 0 && gameplayAbi != 0 }
  }

  datatype EventKind = CheckpointEvent | NodeEvent | EndEvent | BootstrapEvent

  datatype NodeKind = StageNode | BossNode

  datatype Event = Event(
    identity: Identity, kind: EventKind, frame: Word, stage: Word, serial: Word,
    schema: Word, checkpoint: Word, node: NodeKind, bossSlots: Byte, state: Bytes)
  {
    predicate Valid() {
      && identity.Valid() && frame != INVALID_FRAME && stage <= MAX_STAGE && serial != 0
      && match kind {
        case CheckpointEvent => schema != 0 && state != [] && |state| <= MAX_STATE
        case NodeEvent => state == [] && checkpoint != 0 && (node == BossNode <==> bossSlots != 0)
        case EndEvent => state == []
        case BootstrapEvent => state == []
      }
    }
  }

  type Inputs = s: seq<FrameInput> | |s| == MAX_PLAYERS witness [NEUTRAL, NEUTRAL, NEUTRAL]

  datatype Packet = Packet(sessionId: nat, gameplayAbi: Word, playerCount: Byte, frame: Word, inputs: Inputs)

  predicate InputsValid(inputs: Inputs, players: nat)
    requires players <= MAX_PLAYERS
  {
    forall i :: 0 <= i < players ==> inputs[i].Valid()
  }

  /** What the packet encoder accepts. */
  predicate Encodes(p: Packet) {
    p.frame != INVALID_FRAME && 2 <= p.playerCount <= MAX_PLAYERS && InputsValid(p.inputs, p.playerCount)
  }

  datatype Segment = Segment(checkpoint: Event, inputs: seq<Packet>, nodes: seq<Event>, ended: bool)
  {
    function End(): nat { checkpoint.frame + |inputs| }

    predicate Contains(frame: nat) { checkpoint.frame <= frame <= End() }
  }

  datatype History = History(segments: seq<Segment>, next: Word, serial: Word, bytes: nat, frames: nat, ended: bool)
  {
    function Last(): Segment
      requires segments != []
    {
      segments[|segments| - 1]
    }
  }

  const NO_HISTORY := History([], 0, 0, 0, 0, false)

  function EventSize(e: Event): nat { EVENT_HEADER + (if e.kind == EndEvent then 0 else 8) + |e.state| }

  function PacketSize(p: Packet): nat { 24 + 12 * p.playerCount as int }

  // ---------------------------------------------------------------- what a history accepts

  /** Every condition but room. */
  predicate AdmitsEvent(h: History, e: Event) {
    && e.Valid() && e.kind != BootstrapEvent
    && if h.segments == [] then e.kind == CheckpointEvent else
      var previous := h.Last().checkpoint;
      && !h.ended && e.identity == previous.identity && e.serial > h.serial && e.frame == h.next
      && (e.kind != CheckpointEvent ==> e.stage == previous.stage)
      && (e.kind == CheckpointEvent ==> e.frame > previous.frame)
      && (e.kind == NodeEvent ==> e.checkpoint == previous.serial)
  }

  function EventAdded(h: History, e: Event): History
    requires AdmitsEvent(h, e)
  {
    var segments :=
      if e.kind == CheckpointEvent then h.segments + [Segment(e, [], [], false)]
      else if e.kind == NodeEvent then h.segments[|h.segments| - 1 := h.Last().(nodes := h.Last().nodes + [e])]
      else h.segments[|h.segments| - 1 := h.Last().(ended := true)];
    History(segments, if e.kind == CheckpointEvent then e.frame else h.next, e.serial, h.bytes + EventSize(e), h.frames,
            h.ended || e.kind == EndEvent)
  }

  function AcceptEvent(h: History, e: Event): Option<History> {
    if AdmitsEvent(h, e) && EventSize(e) <= HISTORY_MAX_BYTES - h.bytes then Some(EventAdded(h, e)) else None
  }

  predicate AdmitsInput(h: History, p: Packet) {
    && h.segments != [] && !h.ended && p.frame == h.next && p.frame != INVALID_FRAME
    && var checkpoint := h.Last().checkpoint;
    && p.sessionId == checkpoint.identity.sessionId && p.gameplayAbi == checkpoint.identity.gameplayAbi
    && p.playerCount == checkpoint.identity.playerCount && p.playerCount <= MAX_PLAYERS
    && InputsValid(p.inputs, p.playerCount)
  }

  function InputAdded(h: History, p: Packet): History
    requires AdmitsInput(h, p)
  {
    History(h.segments[|h.segments| - 1 := h.Last().(inputs := h.Last().inputs + [p])], h.next + 1, h.serial,
            h.bytes + PacketSize(p), h.frames + 1, h.ended)
  }

  function AcceptInput(h: History, p: Packet): Option<History> {
    if AdmitsInput(h, p) && h.frames < HISTORY_MAX_FRAMES && PacketSize(p) <= HISTORY_MAX_BYTES - h.bytes
    then Some(InputAdded(h, p)) else None
  }

  // ---------------------------------------------------------------- what every history keeps

  ghost predicate SegmentOk(s: Segment) {
    && s.checkpoint.Valid() && s.checkpoint.kind == CheckpointEvent
    && (forall k :: 0 <= k < |s.inputs| ==> s.inputs[k].frame == s.checkpoint.frame + k)
    && forall k :: 0 <= k < |s.nodes| ==> s.Contains(s.nodes[k].frame)
  }

  /** A segment starts where the one before ends, which was not empty, and was numbered later. */
  ghost predicate Follows(segments: seq<Segment>, i: nat)
    requires 0 < i < |segments|
  {
    && segments[i].checkpoint.frame == segments[i - 1].End() && segments[i - 1].inputs != []
    && segments[i].checkpoint.serial > segments[i - 1].checkpoint.serial
  }

  ghost predicate Chained(segments: seq<Segment>) {
    && (forall i :: 0 <= i < |segments| ==> SegmentOk(segments[i]))
    && forall i :: 0 < i < |segments| ==> Follows(segments, i)
  }

  ghost predicate HistoryOk(h: History) {
    && Chained(h.segments)
    && if h.segments == [] then h == NO_HISTORY
       else h.next == h.Last().End() && h.Last().checkpoint.serial <= h.serial && (h.ended ==> h.Last().ended)
  }

  lemma EventKeeps(h: History, e: Event)
    requires HistoryOk(h) && AdmitsEvent(h, e)
    ensures HistoryOk(EventAdded(h, e))
  {
    var h' := EventAdded(h, e);
    if e.kind == CheckpointEvent {
      Extends(h.segments, Segment(e, [], [], false));
    } else {
      assert h.Last().Contains(e.frame);
      Replaces(h.segments, h'.Last());
    }
  }

  lemma Extends(segments: seq<Segment>, s: Segment)
    requires Chained(segments) && SegmentOk(s)
    requires segments != [] ==>
      var last := segments[|segments| - 1];
      s.checkpoint.frame == last.End() && last.inputs != [] && s.checkpoint.serial > last.checkpoint.serial
    ensures Chained(segments + [s])
  {
    var after := segments + [s];
    forall i | 0 < i < |after| ensures Follows(after, i) {
      if i < |segments| { assert Follows(segments, i); }
    }
  }

  lemma Replaces(segments: seq<Segment>, s: Segment)
    requires segments != [] && Chained(segments) && SegmentOk(s)
    requires s.checkpoint == segments[|segments| - 1].checkpoint
    ensures Chained(segments[|segments| - 1 := s])
  {
    var after := segments[|segments| - 1 := s];
    forall i | 0 < i < |after| ensures Follows(after, i) { assert Follows(segments, i); }
  }

  lemma InputKeeps(h: History, p: Packet)
    requires HistoryOk(h) && AdmitsInput(h, p)
    ensures HistoryOk(InputAdded(h, p))
  {
    Replaces(h.segments, InputAdded(h, p).Last());
  }

  // ---------------------------------------------------------------- finding a frame

  /** The newest segment among the first `n` that contains a frame. */
  function LocateIn(segments: seq<Segment>, n: nat, frame: nat): Option<nat>
    requires n <= |segments|
  {
    if n == 0 then None
    else if segments[n - 1].Contains(frame) then Some(n - 1)
    else LocateIn(segments, n - 1, frame)
  }

  function Located(h: History, frame: nat): Option<nat> { LocateIn(h.segments, |h.segments|, frame) }

  /** Of two segments the earlier one ends no later than the other begins. */
  lemma {:induction false} Ordered(segments: seq<Segment>, i: nat, j: nat)
    requires Chained(segments) && i < j < |segments|
    ensures segments[i].End() <= segments[j].checkpoint.frame
      && segments[i].checkpoint.frame < segments[j].checkpoint.frame
    ensures segments[i].checkpoint.serial < segments[j].checkpoint.serial
  {
    assert Follows(segments, j);
    if i < j - 1 { Ordered(segments, i, j - 1); }
  }

  /** The segment that a frame belongs to: it begins no later, and the next one, if any, begins after it. */
  ghost predicate Owns(segments: seq<Segment>, i: nat, frame: nat)
    requires i < |segments|
  {
    segments[i].Contains(frame) && (i + 1 < |segments| ==> frame < segments[i + 1].checkpoint.frame)
  }

  lemma {:induction false} LocateSome(segments: seq<Segment>, n: nat, frame: nat)
    requires Chained(segments) && 0 < n <= |segments|
    requires segments[0].checkpoint.frame <= frame <= segments[n - 1].End()
    ensures LocateIn(segments, n, frame).Some?
    ensures var i := LocateIn(segments, n, frame).value;
      i < n && segments[i].Contains(frame) && (i + 1 < n ==> frame < segments[i + 1].checkpoint.frame)
  {
    if !segments[n - 1].Contains(frame) {
      assert n > 1;
      assert Follows(segments, n - 1);
      LocateSome(segments, n - 1, frame);
    }
  }

  lemma {:induction false} LocateOutside(segments: seq<Segment>, n: nat, frame: nat)
    requires n <= |segments| && LocateIn(segments, n, frame).Some?
    ensures LocateIn(segments, n, frame).value < n && segments[LocateIn(segments, n, frame).value].Contains(frame)
  {
    if !segments[n - 1].Contains(frame) { LocateOutside(segments, n - 1, frame); }
  }

  /** A frame is found exactly when it lies between the first checkpoint and the end of what was received,
      and then in the one segment that owns it. */
  lemma LocatedExactly(h: History, frame: nat)
    requires HistoryOk(h)
    ensures Located(h, frame).Some? <==> h.segments != [] && h.segments[0].checkpoint.frame <= frame <= h.next
    ensures Located(h, frame).Some? ==>
      Located(h, frame).value < |h.segments| && Owns(h.segments, Located(h, frame).value, frame)
  {
    var n := |h.segments|;
    if h.segments != [] && h.segments[0].checkpoint.frame <= frame <= h.next {
      LocateSome(h.segments, n, frame);
    } else if Located(h, frame).Some? {
      LocateOutside(h.segments, n, frame);
      var i := Located(h, frame).value;
      if i > 0 { Ordered(h.segments, 0, i); }
      if i < n - 1 { Ordered(h.segments, i, n - 1); }
      assert false;
    }
  }

  lemma OwnerIsUnique(segments: seq<Segment>, i: nat, j: nat, frame: nat)
    requires Chained(segments) && i < |segments| && j < |segments| && Owns(segments, i, frame)
      && Owns(segments, j, frame)
    ensures i == j
  {
    if i < j {
      if i + 1 < j { Ordered(segments, i + 1, j); }
    } else if j < i {
      if j + 1 < i { Ordered(segments, j + 1, i); }
    }
  }
}
