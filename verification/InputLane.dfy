/** One player's lane of the rollback core: a ring of 256 input slots, the end of the contiguously known
    prefix, and the write-once log the ring stands for. */
module InputLane {

  const RING: nat := 256
  const MAX_PLAYERS: nat := 3
  const MAX_WINDOW: nat := 32

  /** One past the largest frame number; -1 stands for "no frame". */
  const LIMIT: nat := 0xFFFF_FFFF
  const NONE: int := -1

  datatype Axis = Finite(value: real) | NotFinite

  datatype FrameInput = FrameInput(
    buttons: bv16, analogMode: nat, x: Axis, y: Axis, unlimited: bool, touchUsed: bool, touchBomb: bool)
  {
    predicate Valid() { analogMode <= MAX_ANALOG_MODE && x.Finite? && y.Finite? }
  }

  const MAX_ANALOG_MODE: nat := 4
  const DIRECT_TOUCH: nat := 2
  const DIRECT_TOUCH_DELTA: nat := 3
  const DIRECT_TOUCH_BEGIN: nat := 4
  const ZERO := Finite(0.0)
  const NEUTRAL := FrameInput(0, 0, ZERO, ZERO, false, false, false)

  datatype InputSlot = InputSlot(frame: int, input: FrameInput, present: bool)

  const EMPTY_SLOT := InputSlot(NONE, NEUTRAL, false)

  type Frames = seq<InputSlot>

  datatype Lane = Lane(ring: Frames, confirmed: int)

  type Log = map<int, FrameInput>

  predicate Finds(ring: Frames, frame: nat)
    requires |ring| == RING
  {
    ring[frame % RING].frame == frame && ring[frame % RING].present
  }

  function Stored(ring: Frames, frame: nat, input: FrameInput): Frames
    requires |ring| == RING
  {
    ring[frame % RING := InputSlot(frame, input, true)]
  }

  /** The frontier moved over every consecutive slot that is present. */
  function Advanced(ring: Frames, confirmed: int): (c: int)
    requires |ring| == RING && NONE <= confirmed < LIMIT
    ensures confirmed <= c < LIMIT
    decreases LIMIT - confirmed
  {
    if confirmed + 1 < LIMIT && Finds(ring, confirmed + 1) then Advanced(ring, confirmed + 1) else confirmed
  }

  function Submitted(lane: Lane, frame: nat, input: FrameInput): Lane
    requires |lane.ring| == RING && NONE <= lane.confirmed < LIMIT
  {
    var ring := Stored(lane.ring, frame, input);
    Lane(ring, Advanced(ring, lane.confirmed))
  }

  // ---------------------------------------------------------------- the ring refines the log

  ghost predicate SlotOk(s: InputSlot, k: nat, log: Log) {
    if s.present then 0 <= s.frame < LIMIT && s.frame % RING == k && s.frame in log && log[s.frame] == s.input
    else s.frame == NONE
  }

  /** Every slot is empty or shows a logged input of a frame that belongs there. */
  ghost predicate Shows(ring: Frames, log: Log) {
    |ring| == RING && forall k :: 0 <= k < RING ==> SlotOk(ring[k], k, log)
  }

  /** A slot never goes back: it is at least as new as every logged frame that belongs there. */
  ghost predicate NeverBack(ring: Frames, log: Log)
    requires |ring| == RING
  {
    forall f :: f in log ==> 0 <= f < LIMIT && f <= ring[f % RING].frame
  }

  /** Everything logged from `floor` on is still in the ring. */
  ghost predicate Retained(ring: Frames, log: Log, floor: int)
    requires |ring| == RING
  {
    forall f :: f in log && floor <= f ==> 0 <= f && ring[f % RING].frame == f
  }

  /** `confirmed` is exactly the end of the contiguous prefix of the log. */
  ghost predicate PrefixEnds(log: Log, confirmed: int) {
    NONE <= confirmed < LIMIT && (forall f :: 0 <= f <= confirmed ==> f in log) && confirmed + 1 !in log
  }

  lemma PrefixUnique(log: Log, a: int, b: int)
    requires PrefixEnds(log, a) && PrefixEnds(log, b)
    ensures a == b
  {
    assert (a + 1 in log <==> a + 1 <= b) || b < a;
  }

  ghost predicate LaneOk(lane: Lane, log: Log, floor: int) {
    && Shows(lane.ring, log) && NeverBack(lane.ring, log) && Retained(lane.ring, log, floor)
    && PrefixEnds(log, lane.confirmed) && floor <= lane.confirmed + 1
  }

  lemma FindsIsLogged(ring: Frames, log: Log, f: nat)
    requires Shows(ring, log) && Finds(ring, f)
    ensures f < LIMIT && f in log && ring[f % RING].input == log[f]
  {
    assert SlotOk(ring[f % RING], f % RING, log);
  }

  lemma RetainedIsFound(ring: Frames, log: Log, floor: int, f: nat)
    requires Shows(ring, log) && Retained(ring, log, floor) && f in log && floor <= f
    ensures Finds(ring, f) && ring[f % RING].input == log[f]
  {
    assert SlotOk(ring[f % RING], f % RING, log);
  }

  /** With everything past the frontier retained, the ring's own walk ends where the log's prefix ends. */
  lemma {:induction false} AdvancedIsPrefix(ring: Frames, log: Log, floor: int, confirmed: int)
    requires Shows(ring, log) && Retained(ring, log, floor) && floor <= confirmed + 1
    requires NONE <= confirmed < LIMIT && forall f :: 0 <= f <= confirmed ==> f in log
    requires forall f :: f in log ==> f < LIMIT
    ensures PrefixEnds(log, Advanced(ring, confirmed))
    decreases LIMIT - confirmed
  {
    if confirmed + 1 in log { RetainedIsFound(ring, log, floor, confirmed + 1); }
    if confirmed + 1 < LIMIT && Finds(ring, confirmed + 1) {
      FindsIsLogged(ring, log, confirmed + 1);
      AdvancedIsPrefix(ring, log, floor, confirmed + 1);
    }
  }

  /** A new frame may replace the occupant of its slot if that one is older and below the floor. */
  ghost predicate Admits(ring: Frames, f: nat, floor: int)
    requires |ring| == RING
  {
    f < LIMIT && (ring[f % RING].present ==> ring[f % RING].frame < f && ring[f % RING].frame < floor)
  }

  lemma RingAfterStore(ring: Frames, log: Log, floor: int, f: nat, input: FrameInput)
    requires Shows(ring, log) && NeverBack(ring, log) && Retained(ring, log, floor) && Admits(ring, f, floor)
    ensures f !in log
    ensures Shows(Stored(ring, f, input), log[f := input])
    ensures NeverBack(Stored(ring, f, input), log[f := input])
      && Retained(Stored(ring, f, input), log[f := input], floor)
  {
    var at := f % RING;
    assert SlotOk(ring[at], at, log);
    var ring', log' := Stored(ring, f, input), log[f := input];
    forall k | 0 <= k < RING ensures SlotOk(ring'[k], k, log') { assert SlotOk(ring[k], k, log); }
  }

  /** Storing an admitted frame writes the log once more, moves the frontier to the new end of the
      prefix, and never back. */
  lemma LaneAfterStore(lane: Lane, log: Log, floor: int, f: nat, input: FrameInput)
    requires LaneOk(lane, log, floor) && Admits(lane.ring, f, floor)
    ensures f !in log && f > lane.confirmed
    ensures LaneOk(Submitted(lane, f, input), log[f := input], floor)
    ensures Submitted(lane, f, input).confirmed >= lane.confirmed
  {
    RingAfterStore(lane.ring, log, floor, f, input);
    AdvancedIsPrefix(Stored(lane.ring, f, input), log[f := input], floor, lane.confirmed);
  }

  lemma RaiseFloor(lane: Lane, log: Log, floor: int, floor': int)
    requires LaneOk(lane, log, floor) && floor <= floor' <= lane.confirmed + 1
    ensures LaneOk(lane, log, floor')
  {}

  // ---------------------------------------------------------------- prediction

  /** The nearest known frame at or before `g`, looking back over `count` frames. */
  function NearestKnown(ring: Frames, g: int, count: nat): (r: int)
    requires |ring| == RING && NONE <= g
    ensures r == NONE || (0 <= r <= g && g - r < count && Finds(ring, r))
    decreases count
  {
    if g < 0 || count == 0 then NONE
    else if Finds(ring, g) then g
    else NearestKnown(ring, g - 1, count - 1)
  }

  /** The newest known frame is the nearest. */
  lemma {:induction false} NearestIsNewest(ring: Frames, g: int, count: nat, f: nat)
    requires |ring| == RING && g - count < f <= g && Finds(ring, f) && forall h: nat :: f < h <= g ==> !Finds(ring, h)
    ensures NearestKnown(ring, g, count) == f
    decreases count
  {
    if f < g { NearestIsNewest(ring, g - 1, count - 1, f); }
  }

  lemma {:induction false} NoneIsNearest(ring: Frames, g: int, count: nat)
    requires |ring| == RING && NONE <= g && forall h: nat :: g - count < h <= g ==> !Finds(ring, h)
    ensures NearestKnown(ring, g, count) == NONE
    decreases count
  {
    if g >= 0 && count > 0 { NoneIsNearest(ring, g - 1, count - 1); }
  }
}
