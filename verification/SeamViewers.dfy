/** A finding about playback, with two viewers that show it: at the frame where one segment ends and the next
    begins, a viewer that played there keeps the end of the old segment, and a viewer that sought there shows
    what the new checkpoint restores. */
module SeamViewers {
  import opened InputLane
  import opened Options
  import opened Words
  import opened StageStream
  import opened PlaybackState

  /** A title whose world is a number: its checkpoints hold it, and every frame adds one. */
  function RestoreNumber(e: Event): Option<nat> { if e.state == [] then None else Some(e.state[0]) }

  function AddOne(world: nat, packet: Packet): Option<nat> { Some(world + 1) }

  const SESSION := Identity(54, 2, 1, 1)

  function EventAt(kind: EventKind, frame: Word, serial: Word, state: Bytes): Event {
    Event(SESSION, kind, frame, 1, serial, 1, 0, StageNode, 0, state)
  }

  const FIRST := EventAt(CheckpointEvent, 0, 1, [0])
  const SECOND := EventAt(CheckpointEvent, 1, 2, [5])
  const LAST := EventAt(EndEvent, 1, 3, [])
  const FRAME := Packet(1, 1, 2, 0, [NEUTRAL, NEUTRAL, NEUTRAL])

  /** A stream of two segments, ended: a checkpoint, one frame, a checkpoint, the end. */
  ghost predicate Receives(h: History) {
    && AcceptEvent(NO_HISTORY, FIRST).Some?
    && var a := AcceptEvent(NO_HISTORY, FIRST).value;
    && AcceptInput(a, FRAME).Some?
    && var b := AcceptInput(a, FRAME).value;
    && AcceptEvent(b, SECOND).Some?
    && AcceptEvent(AcceptEvent(b, SECOND).value, LAST) == Some(h)
  }

  ghost predicate IsStream(h: History) {
    && HistoryOk(h) && h.next == 1 && h.ended
    && h.segments == [Segment(FIRST, [FRAME], [], false), Segment(SECOND, [], [], true)]
  }

  lemma Stream() returns (h: History)
    ensures Receives(h) && IsStream(h)
  {
    var b := FirstHalf();
    var c := AcceptEvent(b, SECOND).value;
    EventKeeps(b, SECOND);
    assert c.segments == [Segment(FIRST, [FRAME], [], false), Segment(SECOND, [], [], false)];
    h := AcceptEvent(c, LAST).value;
    EventKeeps(c, LAST);
    assert h.segments == [Segment(FIRST, [FRAME], [], false), Segment(SECOND, [], [], true)];
  }

  lemma FirstHalf() returns (b: History)
    ensures AcceptEvent(NO_HISTORY, FIRST).Some?
    ensures AcceptInput(AcceptEvent(NO_HISTORY, FIRST).value, FRAME) == Some(b)
    ensures HistoryOk(b) && b.segments == [Segment(FIRST, [FRAME], [], false)] && b.next == 1 && b.serial == 1
    ensures !b.ended && b.bytes <= 200
  {
    var a := AcceptEvent(NO_HISTORY, FIRST).value;
    EventKeeps(NO_HISTORY, FIRST);
    assert a.segments == [Segment(FIRST, [], [], false)];
    assert InputsValid(FRAME.inputs, 2);
    b := AcceptInput(a, FRAME).value;
    InputKeeps(a, FRAME);
    assert a.Last().inputs + [FRAME] == [FRAME];
  }

  lemma Finds(h: History)
    requires IsStream(h)
    ensures Located(h, 0) == Some(0) && Located(h, 1) == Some(1) && Edge(h) == 1
  {
    LocatedExactly(h, 0);
    LocatedExactly(h, 1);
  }

  /** A step with a budget of one turn and time enough. */
  function OneStep(p: Player<nat>, h: History): Player<nat>
    requires HistoryOk(h)
  {
    Stepped(p, h, RestoreNumber, AddOne, n => false, 1)
  }

  lemma OneTurn(p: Player<nat>, h: History)
    requires HistoryOk(h) && p.bootstrapped && !p.paused && !p.failed && !p.restore
    ensures OneStep(p, h) == Turn(p, h, RestoreNumber, AddOne).0
  {
    var (q, more) := Turn(p, h, RestoreNumber, AddOne);
    assert Turns(q, h, RestoreNumber, AddOne, n => false, 1, 1) == q;
  }

  /** A viewer of this stream, not paused and going nowhere. */
  function Idle(position: nat, target: nat, serial: Word, world: nat): Player<nat> {
    Player(position, target, serial, true, true, false, true, false, false, false, false, false, Some(world))
  }

  const NEW: Player<nat> := Player(0, 0, 0, false, false, false, false, false, false, false, false, false, None)

  /** The bootstrap sends a new viewer to the last checkpoint, and the next step restores it. */
  lemma Boots(h: History)
    requires IsStream(h)
    ensures Requested(NEW, h, 1, false).Some?
    ensures OneStep(Requested(NEW, h, 1, false).value.(bootstrapped := true), h) == Idle(1, 1, 2, 5)
  {
    Finds(h);
    var p := Requested(NEW, h, 1, false).value.(bootstrapped := true);
    var placed := Rebuilt(p, h, RestoreNumber);
    assert OneStep(p, h) == OneStep(placed, h);
    OneTurn(placed, h);
  }

  lemma SeeksBack(h: History)
    requires IsStream(h)
    ensures Requested(Idle(1, 1, 2, 5), h, 0, false).Some?
    ensures OneStep(Requested(Idle(1, 1, 2, 5), h, 0, false).value, h) == Idle(0, 0, 1, 0)
  {
    Finds(h);
    var p := Requested(Idle(1, 1, 2, 5), h, 0, false).value;
    var placed := Rebuilt(p, h, RestoreNumber);
    assert OneStep(p, h) == OneStep(placed, h);
    OneTurn(placed, h);
  }

  lemma PlaysOn(h: History)
    requires IsStream(h)
    ensures OneStep(Idle(0, 0, 1, 0), h) == Idle(1, 0, 1, 1)
  {
    Finds(h);
    OneTurn(Idle(0, 0, 1, 0), h);
  }

  lemma Stays(h: History, target: nat, serial: Word, world: nat)
    requires IsStream(h)
    ensures OneStep(Idle(1, target, serial, world), h) == Idle(1, target, serial, world)
  {
    Finds(h);
    OneTurn(Idle(1, target, serial, world), h);
  }

  /** Two viewers of one received stream, both at its frame 1 and going nowhere, show different worlds: one was
      sent there by its bootstrap, the other sought back to frame 0 and played on. Neither moves again by itself. */
  lemma ViewersDiffer() returns (h: History, sent: Player<nat>, back: Player<nat>, played: Player<nat>)
    ensures Receives(h) && HistoryOk(h) && Requested(NEW, h, 1, false).Some? && Requested(sent, h, 0, false).Some?
    ensures sent == OneStep(Requested(NEW, h, 1, false).value.(bootstrapped := true), h)
    ensures back == OneStep(Requested(sent, h, 0, false).value, h) && played == OneStep(back, h)
    ensures sent.position == played.position == 1 && sent.world == Some(5) && played.world == Some(1)
    ensures OneStep(sent, h) == sent && OneStep(played, h) == played && !sent.failed && !played.failed
  {
    h := Stream();
    sent, back, played := Idle(1, 1, 2, 5), Idle(0, 0, 1, 0), Idle(1, 0, 1, 1);
    Boots(h);
    SeeksBack(h);
    PlaysOn(h);
    Stays(h, 1, 2, 5);
    Stays(h, 0, 1, 1);
  }
}
