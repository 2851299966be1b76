/** The state of the rollback input core as a value, and its operations as functions on that value. */
module CoreState {
  import opened Folding
  import opened InputLane

  datatype CoreConfig = CoreConfig(
    sessionId: nat, playerCount: nat, localPlayer: nat, inputDelay: nat, maxRollbackFrames: nat,
    predictableButtons: bv16, directionButtons: bv16, maxDirectionPredictionFrames: nat,
    maxDirectTouchDeltaPredictionFrames: nat, directTouchIsAbsolute: bool, allowPrediction: bool)
  {
    predicate Usable() {
      && 2 <= playerCount <= MAX_PLAYERS && localPlayer < playerCount
      && 0 < maxRollbackFrames < RING / 2 && inputDelay < RING / 4
    }
  }

  const NO_CONFIG := CoreConfig(0, 2, 0, 0, 8, 0xFFFF, 0, 255, 0, false, true)

  /** The inputs a frame was simulated with, and which of them were predictions. */
  datatype UsedSlot = UsedSlot(frame: int, inputs: seq<FrameInput>, predicted: seq<bool>)

  const NO_INPUTS: seq<FrameInput> := [NEUTRAL, NEUTRAL, NEUTRAL]
  const NO_MASK: seq<bool> := [false, false, false]
  const EMPTY_USED := UsedSlot(NONE, NO_INPUTS, NO_MASK)

  datatype FrameDecision = FrameDecision(canAdvance: bool, predicted: seq<bool>, inputs: seq<FrameInput>)
  {
    predicate Shaped() { |predicted| == MAX_PLAYERS && |inputs| == MAX_PLAYERS }
  }

  const NO_DECISION := FrameDecision(false, NO_MASK, NO_INPUTS)

  datatype RemoteInputResult =
    Accepted | Duplicate | PredictionCorrect | RollbackRequired | ConflictingConfirmedInput | TooOld | InvalidPlayer

  datatype CoreData = Core(
    config: CoreConfig, configured: bool, lanes: seq<Lane>, used: seq<UsedSlot>, peerAck: seq<int>,
    last: int, rollback: int)
  {
    predicate Shaped() {
      && |lanes| == MAX_PLAYERS && (forall p :: 0 <= p < MAX_PLAYERS ==> LaneShaped(lanes[p]))
      && |used| == RING && (forall k :: 0 <= k < RING ==> UsedShaped(used[k]))
      && |peerAck| == MAX_PLAYERS && (forall p :: 0 <= p < MAX_PLAYERS ==> NONE <= peerAck[p] < LIMIT)
      && NONE <= last < LIMIT && NONE <= rollback < LIMIT
      && (configured ==> config.Usable()) && config.localPlayer < MAX_PLAYERS && config.playerCount <= MAX_PLAYERS
    }

    /** A frame that left the history when a newer one was simulated. */
    predicate TooOldFrame(frame: nat) {
      last != NONE && frame <= last && last - frame >= RING
    }

    predicate Simulated(frame: nat)
      requires Shaped()
    {
      used[frame % RING].frame == frame
    }

    function Local(): Lane
      requires Shaped()
    {
      lanes[config.localPlayer]
    }

    predicate Remote(player: nat) {
      configured && player < config.playerCount && player != config.localPlayer
    }
  }

  type Core = c: CoreData | c.Shaped() witness Cleared()

  predicate LaneShaped(lane: Lane) { |lane.ring| == RING && NONE <= lane.confirmed < LIMIT }

  predicate UsedShaped(slot: UsedSlot) { |slot.inputs| == MAX_PLAYERS && |slot.predicted| == MAX_PLAYERS }

  // ---------------------------------------------------------------- reset

  function Filled<T>(x: T): (r: seq<T>)
    ensures |r| == RING && forall k :: 0 <= k < RING ==> r[k] == x
  {
    seq(RING, k requires 0 <= k < RING => x)
  }

  function EmptyLane(): Lane { Lane(Filled(EMPTY_SLOT), NONE) }

  function Cleared(): (c: CoreData)
    ensures c.Shaped()
  {
    Core(NO_CONFIG, false, [EmptyLane(), EmptyLane(), EmptyLane()], Filled(EMPTY_USED), [NONE, NONE, NONE], NONE, NONE)
  }

  /** The first `count` frames hold neutral input. */
  function LeadIn(ring: Frames, count: nat): (r: Frames)
    requires |ring| == RING && count <= RING
    ensures |r| == RING
    ensures forall k :: 0 <= k < RING ==> r[k] == if k < count then InputSlot(k, NEUTRAL, true) else ring[k]
  {
    seq(RING, k requires 0 <= k < RING => if k < count then InputSlot(k, NEUTRAL, true) else ring[k])
  }

  function ResetTo(config: CoreConfig): (c: Core)
  {
    if !config.Usable() then Cleared() else
      var ring := LeadIn(Filled(EMPTY_SLOT), config.inputDelay);
      Cleared().(config := config, configured := true,
                 lanes := Cleared().lanes[config.localPlayer := Lane(ring, Advanced(ring, NONE))])
  }

  // ---------------------------------------------------------------- local input

  function LocalFrameForCapture(c: Core, capture: nat): int {
    if !c.configured || capture >= LIMIT - c.config.inputDelay then NONE else capture + c.config.inputDelay
  }

  function WithInput(c: Core, player: nat, frame: nat, input: FrameInput): (c': Core)
    requires player < MAX_PLAYERS
  {
    c.(lanes := c.lanes[player := Submitted(c.lanes[player], frame, input)])
  }

  function Scheduled(c: Core, capture: nat, input: FrameInput): (r: (Core, bool))
  {
    var frame := LocalFrameForCapture(c, capture);
    if frame == NONE then (c, false)
    else if Finds(c.Local().ring, frame) && c.Local().ring[frame % RING].input != input then (c, false)
    else (WithInput(c, c.config.localPlayer, frame, input), true)
  }

  // ---------------------------------------------------------------- remote input

  function Submit(c: Core, player: nat, frame: nat, input: FrameInput): (r: (Core, RemoteInputResult))
    requires frame < LIMIT
  {
    if !c.Remote(player) then (c, InvalidPlayer)
    else if c.TooOldFrame(frame) then (c, TooOld)
    else if Finds(c.lanes[player].ring, frame) then
      (c, if c.lanes[player].ring[frame % RING].input == input then Duplicate else ConflictingConfirmedInput)
    else
      var stored := WithInput(c, player, frame, input);
      var used := c.used[frame % RING];
      if used.frame != frame || c.last == NONE || frame > c.last then (stored, Accepted)
      else if !used.predicted[player] then
        (stored, if used.inputs[player] == input then Duplicate else ConflictingConfirmedInput)
      else if used.inputs[player] == input then (stored, PredictionCorrect)
      else (stored.(rollback := if c.rollback == NONE || frame < c.rollback then frame else c.rollback),
            RollbackRequired)
  }

  /** The answer to a sample that is not too old: by the slot that may know it, and by what its frame was simulated
      with. Only a prediction that was wrong asks for a rollback. */
  lemma SubmitAnswers(c: Core, player: nat, frame: nat, input: FrameInput)
    requires c.Remote(player) && frame < LIMIT && !c.TooOldFrame(frame)
    ensures var r := Submit(c, player, frame, input);
      var slot, used := c.lanes[player].ring[frame % RING], c.used[frame % RING];
      var known := slot.present && slot.frame == frame;
      var played := used.frame == frame && c.last != NONE && frame <= c.last;
      && (r.1 == Duplicate) == (if known then slot.input == input
                                else played && !used.predicted[player] && used.inputs[player] == input)
      && (r.1 == ConflictingConfirmedInput) == (if known then slot.input != input
                                                else played && !used.predicted[player] && used.inputs[player] != input)
      && (r.1 == PredictionCorrect) == (!known && played && used.predicted[player] && used.inputs[player] == input)
      && (r.1 == RollbackRequired) == (!known && played && used.predicted[player] && used.inputs[player] != input)
      && (r.1 == Accepted) == (!known && !played)
      && r.0.rollback == (if r.1 == RollbackRequired && (c.rollback == NONE || frame < c.rollback) then frame
                          else c.rollback)
  {}

  // ---------------------------------------------------------------- simulation

  /** The buttons that are still held: the predictable ones, without directions once these are stale. */
  function HeldButtons(buttons: bv16, predictable: bv16, directions: bv16, stale: bool): (held: bv16)
    ensures !stale ==> held == buttons & predictable
    ensures stale ==> held == buttons & predictable & !directions
  {
    var held := buttons & predictable;
    if stale then held & !directions else held
  }

  /** What a held input looks like `distance` frames later. */
  function Repeated(config: CoreConfig, input: FrameInput, distance: nat): FrameInput {
    var buttons := HeldButtons(input.buttons, config.predictableButtons, config.directionButtons,
                               distance > config.maxDirectionPredictionFrames);
    var p := input.(buttons := buttons, touchBomb := false);
    if p.analogMode == DIRECT_TOUCH_DELTA || p.analogMode == DIRECT_TOUCH_BEGIN then
      var hold := p.analogMode == DIRECT_TOUCH_DELTA && distance <= config.maxDirectTouchDeltaPredictionFrames;
      p.(analogMode := DIRECT_TOUCH_DELTA, x := if hold then p.x else ZERO, y := if hold then p.y else ZERO)
    else if p.analogMode == DIRECT_TOUCH && !config.directTouchIsAbsolute && distance > 1 then p.(x := ZERO, y := ZERO)
    else p
  }

  /** Held buttons, and never a bomb. */
  lemma RepeatedButtons(config: CoreConfig, input: FrameInput, distance: nat)
    ensures var p := Repeated(config, input, distance);
      && p.buttons == HeldButtons(input.buttons, config.predictableButtons, config.directionButtons,
                                  distance > config.maxDirectionPredictionFrames)
      && !p.touchBomb && p.unlimited == input.unlimited && p.touchUsed == input.touchUsed
  {}

  /** Held axes: a touch that moves keeps moving for a while, one that has just begun stays put, a relative one
      stays put after a frame, and everything else is held as it is. */
  lemma RepeatedAxes(config: CoreConfig, input: FrameInput, distance: nat)
    ensures var p, mode := Repeated(config, input, distance), input.analogMode;
      && p.analogMode == (if mode == DIRECT_TOUCH_BEGIN then DIRECT_TOUCH_DELTA else mode)
      && var held :=
           if mode == DIRECT_TOUCH_BEGIN then false
           else if mode == DIRECT_TOUCH_DELTA then distance <= config.maxDirectTouchDeltaPredictionFrames
           else mode != DIRECT_TOUCH || config.directTouchIsAbsolute || distance <= 1;
         p.x == (if held then input.x else ZERO) && p.y == (if held then input.y else ZERO)
  {}

  function Predicted(config: CoreConfig, ring: Frames, frame: nat): FrameInput
    requires |ring| == RING
  {
    var nearest := NearestKnown(ring, frame - 1, RING);
    if nearest == NONE then NEUTRAL else Repeated(config, ring[nearest % RING].input, frame - nearest)
  }

  /** A prediction repeats the newest input known before the frame, however old within a ring. */
  lemma PredictionRepeatsNewest(config: CoreConfig, ring: Frames, frame: nat, f: nat)
    requires |ring| == RING && f < frame <= f + RING && Finds(ring, f) && forall g: nat :: f < g < frame ==>
      !Finds(ring, g)
    ensures Predicted(config, ring, frame) == Repeated(config, ring[f % RING].input, frame - f)
  {
    NearestIsNewest(ring, frame - 1, RING, f);
  }

  /** With none known it is neutral. */
  lemma PredictionWithoutInput(config: CoreConfig, ring: Frames, frame: nat)
    requires |ring| == RING && forall g: nat :: frame - 1 - RING < g < frame ==> !Finds(ring, g)
    ensures Predicted(config, ring, frame) == NEUTRAL
  {
    NoneIsNearest(ring, frame - 1, RING);
  }

  datatype Choice = Stall | Use(input: FrameInput, predicted: bool)

  /** The input of one player for the next frame: exact, predicted within the rollback limit, or none. */
  function ChoiceFor(c: Core, frame: nat, player: nat): Choice
    requires player < MAX_PLAYERS
  {
    var lane := c.lanes[player];
    if !c.config.allowPrediction && lane.confirmed < frame then Stall
    else if player != c.config.localPlayer && frame - lane.confirmed > c.config.maxRollbackFrames then Stall
    else if Finds(lane.ring, frame) then Use(lane.ring[frame % RING].input, false)
    else if player == c.config.localPlayer then Stall
    else if frame <= lane.confirmed then Stall // a hole inside confirmed history
    else Use(Predicted(c.config, lane.ring, frame), true)
  }

  function PreparedFrom(c: Core, frame: nat, player: nat, d: FrameDecision): (r: FrameDecision)
    requires c.configured && player <= c.config.playerCount && d.Shaped()
    ensures r.Shaped()
    decreases c.config.playerCount - player
  {
    if player == c.config.playerCount then d.(canAdvance := true) else
      match ChoiceFor(c, frame, player)
      case Stall => d
      case Use(input, predicted) =>
        PreparedFrom(c, frame, player + 1,
          d.(inputs := d.inputs[player := input], predicted := d.predicted[player := d.predicted[player] || predicted]))
  }

  function Prepared(c: Core, frame: int): (d: FrameDecision)
    requires NONE <= frame < LIMIT
    ensures d.Shaped()
  {
    if !c.configured || frame == NONE then NO_DECISION else PreparedFrom(c, frame, 0, NO_DECISION)
  }

  /** A frame may advance exactly when every player has a choice, and then uses those choices. */
  lemma {:induction false} PreparedChoices(c: Core, frame: nat, player: nat, d: FrameDecision)
    requires c.configured && player <= c.config.playerCount && d.Shaped() && !d.canAdvance
    ensures var r := PreparedFrom(c, frame, player, d);
      && (r.canAdvance <==> forall p :: player <= p < c.config.playerCount ==> ChoiceFor(c, frame, p).Use?)
      && (forall p :: 0 <= p < player || c.config.playerCount <= p < MAX_PLAYERS ==>
            r.inputs[p] == d.inputs[p] && r.predicted[p] == d.predicted[p])
      && (r.canAdvance ==> forall p :: player <= p < c.config.playerCount ==>
            r.inputs[p] == ChoiceFor(c, frame, p).input
            && r.predicted[p] == (d.predicted[p] || ChoiceFor(c, frame, p).predicted))
    decreases c.config.playerCount - player
  {
    if player < c.config.playerCount && ChoiceFor(c, frame, player).Use? {
      var use := ChoiceFor(c, frame, player);
      PreparedChoices(c, frame, player + 1,
        d.(inputs := d.inputs[player := use.input],
            predicted := d.predicted[player := d.predicted[player] || use.predicted]));
    }
  }

  /** Without prediction only the next frame, decided exactly, may be marked. */
  predicate MayMark(c: Core, frame: nat, d: FrameDecision)
    requires frame < LIMIT && d.Shaped()
  {
    && c.configured && d.canAdvance
    && (c.config.allowPrediction ||
        (frame == c.last + 1 && d.predicted == NO_MASK && Prepared(c, frame).canAdvance
         && d.inputs == Prepared(c, frame).inputs))
  }

  function Marked(c: Core, frame: nat, d: FrameDecision): (c': Core)
    requires frame < LIMIT && d.Shaped()
  {
    c.(used := c.used[frame % RING := UsedSlot(frame, d.inputs, d.predicted)],
       last := if frame > c.last then frame else c.last)
  }

  predicate SimulatedAll(c: Core, first: nat, last: int)
  {
    forall f :: first <= f <= last ==> c.used[f % RING].frame == f
  }

  predicate MayRewind(c: Core, first: int)
  {
    && c.configured && c.config.allowPrediction && NONE < first <= c.last && c.last - first < RING
    && (c.rollback == NONE || first <= c.rollback) && SimulatedAll(c, first, c.last)
  }

  function Forgotten(used: seq<UsedSlot>, first: nat): (r: seq<UsedSlot>)
    requires |used| == RING
    ensures |r| == RING && forall k :: 0 <= k < RING ==> r[k] == if used[k].frame >= first then EMPTY_USED else used[k]
  {
    seq(RING, k requires 0 <= k < RING => if used[k].frame >= first then EMPTY_USED else used[k])
  }

  function Rewound(c: Core, first: nat): (c': Core)
    requires first < LIMIT
  {
    c.(used := Forgotten(c.used, first), last := first - 1, rollback := NONE)
  }

  // ---------------------------------------------------------------- queries

  /** The row replays and spectators read: computed, reconciled and contiguously confirmed. */
  predicate HasConfirmedRow(c: Core, frame: int)
  {
    && c.configured && frame != NONE && 0 <= frame <= c.last && (c.rollback == NONE || frame < c.rollback)
    && c.Simulated(frame)
    && forall p :: 0 <= p < c.config.playerCount ==> SeatConfirmed(c, frame, p)
  }

  predicate SeatConfirmed(c: Core, frame: nat, p: nat)
    requires p < MAX_PLAYERS
  {
    && frame <= c.lanes[p].confirmed && Finds(c.lanes[p].ring, frame)
    && c.lanes[p].ring[frame % RING].input == c.used[frame % RING].inputs[p]
  }

  function ConfirmedRow(c: Core, frame: nat): (row: seq<FrameInput>)
    requires c.configured
    ensures |row| == MAX_PLAYERS
  {
    seq(MAX_PLAYERS, p requires 0 <= p < MAX_PLAYERS =>
      if p < c.config.playerCount then c.used[frame % RING].inputs[p] else NEUTRAL)
  }

  /** The lowest of the remote players' frontiers, none while one of them has none. */
  function Lowest(values: seq<int>, local: nat, count: nat, p: nat, lowest: int): int
    requires p <= count <= |values|
    decreases count - p
  {
    if p == count then lowest
    else if p == local then Lowest(values, local, count, p + 1, lowest)
    else if values[p] == NONE then NONE
    else Lowest(values, local, count, p + 1, if lowest == NONE || values[p] < lowest then values[p] else lowest)
  }

  /** The lowest frontier reaches a frame exactly when every one of them does. */
  lemma {:induction false} LowestReaches(values: seq<int>, local: nat, count: nat, p: nat, lowest: int, f: nat)
    requires p <= count <= |values| && NONE <= lowest && forall q :: 0 <= q < |values| ==> NONE <= values[q]
    requires lowest != NONE || (p < count && (p != local || p + 1 < count))
    ensures f <= Lowest(values, local, count, p, lowest) <==>
      (lowest == NONE || f <= lowest) && forall q :: p <= q < count && q != local ==> f <= values[q]
    decreases count - p
  {
    if p < count {
      if p == local {
        LowestReaches(values, local, count, p + 1, lowest, f);
      } else if values[p] != NONE {
        LowestReaches(values, local, count, p + 1, if lowest == NONE || values[p] < lowest then values[p] else lowest,
            f);
      }
    }
  }

  // ---------------------------------------------------------------- packets

  datatype PacketData = InputPacket(
    sessionId: nat, sequence: nat, ackSequence: nat, latestFrame: int, ackFrame: int, firstInputFrame: int,
    senderFrame: int, frameAdvantage: int, senderPlayer: nat, playerCount: nat, inputs: seq<FrameInput>)
  {
    predicate InRange() {
      && NONE <= latestFrame < LIMIT && NONE <= ackFrame < LIMIT && NONE <= firstInputFrame < LIMIT
    }

    /** The samples are exactly the frames from `firstInputFrame` through `latestFrame`. */
    predicate Consistent() {
      if inputs == [] then firstInputFrame == NONE
      else firstInputFrame != NONE && latestFrame != NONE && firstInputFrame + |inputs| - 1 == latestFrame
    }
  }

  type InputPacket = p: PacketData | p.InRange() witness NO_PACKET

  const NO_PACKET: PacketData := InputPacket(0, 0, 0, NONE, NONE, NONE, NONE, 0, 0, 0, [])

  function FirstUnacknowledged(c: Core, peer: nat, latest: nat): nat
    requires peer < MAX_PLAYERS
  {
    if c.peerAck[peer] == NONE then if latest + 1 > MAX_WINDOW then latest + 1 - MAX_WINDOW else 0
    else c.peerAck[peer] + 1
  }

  /** The retained local inputs from `first` on, at most `count` of them, up to the first gap. */
  function Samples(ring: Frames, first: nat, latest: nat, count: nat): (r: seq<FrameInput>)
    requires |ring| == RING
    ensures |r| <= count && first + |r| <= if first <= latest then latest + 1 else first
    decreases count
  {
    if count == 0 || first > latest || !Finds(ring, first) then []
    else [ring[first % RING].input] + Samples(ring, first + 1, latest, count - 1)
  }

  lemma {:induction false} SamplesFound(ring: Frames, first: nat, latest: nat, count: nat)
    requires |ring| == RING
    ensures var r := Samples(ring, first, latest, count);
      && (forall f :: first <= f < first + |r| ==> Finds(ring, f) && r[f - first] == ring[f % RING].input)
      && (|r| == count || first + |r| > latest || !Finds(ring, first + |r|))
    decreases count
  {
    if count != 0 && first <= latest && Finds(ring, first) { SamplesFound(ring, first + 1, latest, count - 1); }
  }

  function Built(c: Core, peer: nat, latest: nat, sequence: nat, ackSequence: nat): InputPacket
    requires latest < LIMIT
  {
    if !c.Remote(peer) then NO_PACKET else
      var first := FirstUnacknowledged(c, peer, latest);
      var samples := Samples(c.Local().ring, first, latest, MAX_WINDOW);
      InputPacket(c.config.sessionId, sequence, ackSequence,
        if samples == [] then latest else first + |samples| - 1, c.lanes[peer].confirmed,
        if samples == [] then NONE else first, NONE, 0, c.config.localPlayer, c.config.playerCount, samples)
  }

  predicate Addressed(c: Core, packet: InputPacket) {
    && packet.sessionId == c.config.sessionId && packet.playerCount == c.config.playerCount
    && c.Remote(packet.senderPlayer) && |packet.inputs| <= MAX_WINDOW && packet.Consistent()
  }

  predicate Plausible(c: Core, packet: InputPacket)
    requires c.configured
  {
    && packet.ackFrame <= c.Local().confirmed
    && (packet.inputs != [] ==> packet.latestFrame < c.last + 1 + RING)
  }

  function OldestRecoverable(c: Core): int {
    if c.last == NONE || c.last < c.config.maxRollbackFrames then 0 else c.last - c.config.maxRollbackFrames + 1
  }

  datatype Verdict = Pass | Refuse | Conflict

  /** Whether one sample may be committed: it is expired, or overwrites nothing still needed and
      contradicts nothing already known. */
  function SampleVerdict(c: Core, player: nat, frame: nat, input: FrameInput): Verdict
    requires player < MAX_PLAYERS
  {
    var occupant, used := c.lanes[player].ring[frame % RING], c.used[frame % RING];
    if !input.Valid() then Refuse
    else if c.TooOldFrame(frame) then Pass
    else if occupant.present && occupant.frame != frame &&
      (occupant.frame >= OldestRecoverable(c) || occupant.frame == c.lanes[player].confirmed) then Refuse
    else if Finds(c.lanes[player].ring, frame) then if occupant.input == input then Pass else Conflict
    else if used.frame == frame && c.last != NONE && frame <= c.last && !used.predicted[player]
    && used.inputs[player] != input then Conflict
    else Pass
  }

  function VerdictFrom(c: Core, packet: InputPacket, i: nat): (v: Verdict)
    requires packet.senderPlayer < MAX_PLAYERS && i <= |packet.inputs|
    requires i < |packet.inputs| ==> 0 <= packet.firstInputFrame
    ensures v == Pass <==> forall k :: i <= k < |packet.inputs| ==>
      SampleVerdict(c, packet.senderPlayer, packet.firstInputFrame + k, packet.inputs[k]) == Pass
    decreases |packet.inputs| - i
  {
    if i == |packet.inputs| then Pass else
      var v := SampleVerdict(c, packet.senderPlayer, packet.firstInputFrame + i, packet.inputs[i]);
      if v != Pass then v else VerdictFrom(c, packet, i + 1)
  }

  function Acknowledged(c: Core, packet: InputPacket): (c': Core)
    requires packet.senderPlayer < MAX_PLAYERS
  {
    if packet.ackFrame > c.peerAck[packet.senderPlayer] && packet.ackFrame != NONE then
      c.(peerAck := c.peerAck[packet.senderPlayer := packet.ackFrame])
    else c
  }

  function Rank(r: RemoteInputResult): nat {
    match r
    case ConflictingConfirmedInput => 6
    case TooOld => 5
    case RollbackRequired => 4
    case PredictionCorrect => 3
    case Accepted => 2
    case Duplicate => 1
    case InvalidPlayer => 7
  }

  function Worse(a: RemoteInputResult, b: RemoteInputResult): RemoteInputResult {
    if Rank(b) > Rank(a) then b else a
  }

  datatype Applied = Applied(core: Core, ok: bool, worst: RemoteInputResult)

  /** The commit loop, which gives up at a conflict. */
  function CommitFrom(c: Core, packet: InputPacket, i: nat, worst: RemoteInputResult): (r: Applied)
    requires i <= |packet.inputs| && packet.Consistent()
    decreases |packet.inputs| - i, 1
  {
    if i == |packet.inputs| then Applied(c, true, worst)
    else Continued(Submit(c, packet.senderPlayer, packet.firstInputFrame + i, packet.inputs[i]), packet, i, worst)
  }

  function Continued(r: (Core, RemoteInputResult), packet: InputPacket, i: nat, worst: RemoteInputResult): Applied
    requires i < |packet.inputs| && packet.Consistent()
    decreases |packet.inputs| - i, 0
  {
    if r.1 == ConflictingConfirmedInput || r.1 == InvalidPlayer then Applied(r.0, false, r.1)
    else CommitFrom(r.0, packet, i + 1, Worse(worst, r.1))
  }

  function Apply(c: Core, packet: InputPacket): (r: Applied)
  {
    if !Addressed(c, packet) || !Plausible(c, packet) then Applied(c, false, InvalidPlayer) else
      match VerdictFrom(c, packet, 0)
      case Refuse => Applied(c, false, InvalidPlayer)
      case Conflict => Applied(c, false, ConflictingConfirmedInput)
      case Pass => CommitFrom(Acknowledged(c, packet), packet, 0, Duplicate)
  }

  // ---------------------------------------------------------------- a packet is applied whole or not at all

  /** Submitting this sample would not report a conflict. */
  predicate Clean(c: Core, player: nat, frame: nat, input: FrameInput)
    requires player < MAX_PLAYERS
  {
    var used := c.used[frame % RING];
    || c.TooOldFrame(frame)
    || (if Finds(c.lanes[player].ring, frame) then c.lanes[player].ring[frame % RING].input == input
        else !(used.frame == frame && c.last != NONE && frame <= c.last
               && !used.predicted[player] && used.inputs[player] != input))
  }

  lemma SubmitClean(c: Core, player: nat, frame: nat, input: FrameInput)
    requires c.Remote(player) && frame < LIMIT && Clean(c, player, frame, input)
    ensures Submit(c, player, frame, input).1 != ConflictingConfirmedInput
    ensures Submit(c, player, frame, input).1 != InvalidPlayer
    ensures Submit(c, player, frame, input).0.Remote(player)
  {}

  lemma SubmitKeepsClean(c: Core, player: nat, frame: nat, input: FrameInput, other: nat, value: FrameInput, next: Core)
    requires c.Remote(player) && frame < LIMIT && frame < other < frame + RING && Clean(c, player, other, value)
    requires next == Submit(c, player, frame, input).0
    ensures Clean(next, player, other, value)
  {}

  ghost predicate CleanFrom(c: Core, packet: InputPacket, i: nat)
    requires c.Remote(packet.senderPlayer)
  {
    forall u: int :: Folded(CleanMark, u) ==> forall k :: i <= k < |packet.inputs| && 0 <= packet.firstInputFrame ==>
      Clean(c, packet.senderPlayer, packet.firstInputFrame + k, packet.inputs[k])
  }

  lemma CleanRest(c: Core, packet: InputPacket, i: nat, next: Core, result: RemoteInputResult)
    requires packet.Consistent() && c.Remote(packet.senderPlayer)
    requires i < |packet.inputs| <= MAX_WINDOW && CleanFrom(c, packet, i)
    requires (next, result) == Submit(c, packet.senderPlayer, packet.firstInputFrame + i, packet.inputs[i])
    ensures result != ConflictingConfirmedInput && result != InvalidPlayer
    ensures next.Remote(packet.senderPlayer) && CleanFrom(next, packet, i + 1)
  {
    var first, sender := packet.firstInputFrame, packet.senderPlayer;
    assert Folded(CleanMark, 0);
    SubmitClean(c, sender, first + i, packet.inputs[i]);
    forall k | i + 1 <= k < |packet.inputs| ensures Clean(next, sender, first + k, packet.inputs[k]) {
      SubmitKeepsClean(c, sender, first + i, packet.inputs[i], first + k, packet.inputs[k], next);
    }
  }

  /** Once every sample has passed, committing cannot fail, whatever state the core is in. */
  lemma {:induction false} CommitSucceeds(c: Core, packet: InputPacket, i: nat, worst: RemoteInputResult)
    requires packet.Consistent() && c.Remote(packet.senderPlayer)
    requires i <= |packet.inputs| <= MAX_WINDOW && CleanFrom(c, packet, i)
    ensures CommitFrom(c, packet, i, worst).ok
    decreases |packet.inputs| - i
  {
    if i < |packet.inputs| {
      var r := Submit(c, packet.senderPlayer, packet.firstInputFrame + i, packet.inputs[i]);
      var next, result := r.0, r.1;
      CleanRest(c, packet, i, next, result);
      CommitSucceeds(next, packet, i + 1, Worse(worst, result));
    }
  }

  /** What each sample from position `i` on is answered, one after another. */
  function Answers(c: Core, packet: InputPacket, i: nat): seq<RemoteInputResult>
    requires packet.Consistent() && i <= |packet.inputs|
    decreases |packet.inputs| - i
  {
    if i == |packet.inputs| then [] else
      var r := Submit(c, packet.senderPlayer, packet.firstInputFrame + i, packet.inputs[i]);
      [r.1] + Answers(r.0, packet, i + 1)
  }

  lemma {:induction false} WorstOfAll(c: Core, packet: InputPacket, i: nat, worst: RemoteInputResult)
    requires packet.Consistent() && i <= |packet.inputs| && CommitFrom(c, packet, i, worst).ok
    ensures var w, answers := CommitFrom(c, packet, i, worst).worst, Answers(c, packet, i);
      && (w == worst || w in answers) && Rank(worst) <= Rank(w)
      && (forall a :: a in answers ==> Rank(a) <= Rank(w) && a != ConflictingConfirmedInput && a != InvalidPlayer)
    decreases |packet.inputs| - i
  {
    if i < |packet.inputs| {
      var r := CommitStep(c, packet, i, worst);
      WorstOfAll(r.0, packet, i + 1, Worse(worst, r.1));
      WorstJoins(worst, r.1, CommitFrom(c, packet, i, worst).worst, Answers(r.0, packet, i + 1),
        Answers(c, packet, i));
    }
  }

  lemma WorstJoins(worst: RemoteInputResult, x: RemoteInputResult, w: RemoteInputResult, rest: seq<RemoteInputResult>,
      answers: seq<RemoteInputResult>)
    requires (w == Worse(worst, x) || w in rest) && Rank(Worse(worst, x)) <= Rank(w) && answers == [x] + rest
    requires x != ConflictingConfirmedInput && x != InvalidPlayer
    requires forall a :: a in rest ==> Rank(a) <= Rank(w) && a != ConflictingConfirmedInput && a != InvalidPlayer
    ensures (w == worst || w in answers) && Rank(worst) <= Rank(w)
    ensures forall a :: a in answers ==> Rank(a) <= Rank(w) && a != ConflictingConfirmedInput && a != InvalidPlayer
  {
    assert x in answers;
  }

  lemma CommitStep(c: Core, packet: InputPacket, i: nat, worst: RemoteInputResult)
    returns (r: (Core, RemoteInputResult))
    requires packet.Consistent() && i < |packet.inputs| && CommitFrom(c, packet, i, worst).ok
    ensures CommitFrom(c, packet, i, worst) == CommitFrom(r.0, packet, i + 1, Worse(worst, r.1))
    ensures Answers(c, packet, i) == [r.1] + Answers(r.0, packet, i + 1)
    ensures r.1 != ConflictingConfirmedInput && r.1 != InvalidPlayer
  {
    r := Submit(c, packet.senderPlayer, packet.firstInputFrame + i, packet.inputs[i]);
    StepGoesOn(r, packet, i, worst, CommitFrom(c, packet, i, worst));
  }

  lemma StepGoesOn(r: (Core, RemoteInputResult), packet: InputPacket, i: nat, worst: RemoteInputResult, a: Applied)
    requires i < |packet.inputs| && packet.Consistent() && a == Continued(r, packet, i, worst) && a.ok
    ensures a == CommitFrom(r.0, packet, i + 1, Worse(worst, r.1))
    ensures r.1 != ConflictingConfirmedInput && r.1 != InvalidPlayer
  {}

  /** An accepted packet reports the worst answer to any of its samples: first that one has expired, then that a
      rollback is needed, then that a prediction was correct, then that one was new. */
  lemma ReportsWorst(c: Core, packet: InputPacket)
    requires Apply(c, packet).ok
    ensures packet.senderPlayer < MAX_PLAYERS && packet.Consistent()
    ensures var answers := Answers(Acknowledged(c, packet), packet, 0);
      Apply(c, packet).worst ==
        if TooOld in answers then TooOld
        else if RollbackRequired in answers then RollbackRequired
        else if PredictionCorrect in answers then PredictionCorrect
        else if RemoteInputResult.Accepted in answers then RemoteInputResult.Accepted
        else Duplicate
  {
    WholeOrNothing(c, packet);
    WorstOfAll(Acknowledged(c, packet), packet, 0, Duplicate);
  }

  /** A refused packet changes nothing; an accepted one has run its whole commit loop. */
  lemma WholeOrNothing(c: Core, packet: InputPacket)
    ensures var r := Apply(c, packet);
      && (!r.ok ==> r.core == c)
      && (r.ok <==> Addressed(c, packet) && Plausible(c, packet) && VerdictFrom(c, packet, 0) == Pass)
  {
    if Addressed(c, packet) && Plausible(c, packet) && VerdictFrom(c, packet, 0) == Pass {
      var a, sender := Acknowledged(c, packet), packet.senderPlayer;
      forall k | 0 <= k < |packet.inputs| ensures Clean(a, sender, packet.firstInputFrame + k, packet.inputs[k]) {
        assert SampleVerdict(c, sender, packet.firstInputFrame + k, packet.inputs[k]) == Pass;
      }
      assert CleanFrom(a, packet, 0);
      CommitSucceeds(a, packet, 0, Duplicate);
    }
  }
}
