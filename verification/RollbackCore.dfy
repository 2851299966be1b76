/** The rollback input core: rings of actual and of used inputs, updated in place. Every operation is
    proved to compute its function on the state value (`CoreState`). */
module RollbackCores {
  import opened InputLane
  import opened CoreState
  import opened Folding

  function WithSlot(c: Core, player: nat, frame: nat, slot: InputSlot): Core
    requires player < MAX_PLAYERS
  {
    c.(lanes := c.lanes[player := c.lanes[player].(ring := c.lanes[player].ring[frame % RING := slot])])
  }

  lemma SameSlotAgain(c: Core, player: nat, frame: nat)
    requires player < MAX_PLAYERS
    ensures WithSlot(c, player, frame, c.lanes[player].ring[frame % RING]) == c
  {
    var ring := c.lanes[player].ring;
    assert ring[frame % RING := ring[frame % RING]] == ring;
    assert c.lanes[player := c.lanes[player]] == c.lanes;
  }

  lemma MoveOver<T>(a: seq<T>, x: T, b: seq<T>)
    ensures a + ([x] + b) == (a + [x]) + b
  {}

  /** What is left of the commit loop from sample `i` on comes out as `whole`. */
  ghost predicate Leaves(c: Core, packet: InputPacket, i: nat, worst: RemoteInputResult, whole: Applied)
    requires packet.Consistent() && i <= |packet.inputs|
  {
    forall u: int :: Folded(CommitMark, u) ==> CommitFrom(c, packet, i, worst) == whole
  }

  lemma PredictedAt(config: CoreConfig, ring: Frames, frame: nat, distance: nat)
    requires |ring| == RING && distance <= frame
    requires NearestKnown(ring, frame - 1, RING) == if distance == 0 then NONE else frame - distance
    ensures Predicted(config, ring, frame) ==
      if distance == 0 then NEUTRAL else Repeated(config, ring[(frame - distance) % RING].input, distance)
  {}

  lemma NearestStep(ring: Frames, at: nat, left: nat, nearest: int, known: bool)
    requires |ring| == RING && 0 < left && nearest == NearestKnown(ring, at, left) && known == Finds(ring, at)
    ensures if known then nearest == at else nearest == NearestKnown(ring, at - 1, left - 1)
  {}

  class RollbackCore {
    const inputs: array2<InputSlot>
    const used: array<UsedSlot>

    var config: CoreConfig
    var configured: bool
    var confirmedThrough: seq<int>
    var peerAckOfLocal: seq<int>
    var lastSimulatedFrame: int
    var rollbackFrame: int

    ghost predicate Valid()
      reads this, used
    {
      && inputs.Length0 == MAX_PLAYERS && inputs.Length1 == RING && used.Length == RING
      && (forall k :: 0 <= k < RING ==> UsedShaped(used[k]))
      && |confirmedThrough| == MAX_PLAYERS && |peerAckOfLocal| == MAX_PLAYERS
      && (forall p :: 0 <= p < MAX_PLAYERS ==> NONE <= confirmedThrough[p] < LIMIT)
      && (forall p :: 0 <= p < MAX_PLAYERS ==> NONE <= peerAckOfLocal[p] < LIMIT)
      && NONE <= lastSimulatedFrame < LIMIT && NONE <= rollbackFrame < LIMIT
      && (configured ==> config.Usable()) && config.localPlayer < MAX_PLAYERS && config.playerCount <= MAX_PLAYERS
    }

    ghost function Row(p: nat): (r: Frames)
      requires inputs.Length0 == MAX_PLAYERS && inputs.Length1 == RING && p < MAX_PLAYERS
      reads inputs
      ensures |r| == RING && forall k :: 0 <= k < RING ==> r[k] == inputs[p, k]
    {
      seq(RING, k requires 0 <= k < RING reads inputs => inputs[p, k])
    }

    ghost function Lanes(): (r: seq<Lane>)
      requires Valid()
      reads this, inputs, used
      ensures |r| == MAX_PLAYERS && forall p :: 0 <= p < MAX_PLAYERS ==> r[p] == Lane(Row(p), confirmedThrough[p])
    {
      seq(MAX_PLAYERS, p requires 0 <= p < MAX_PLAYERS && Valid() reads this, inputs,
          used => Lane(Row(p), confirmedThrough[p]))
    }

    ghost function State(): Core
      requires Valid()
      reads this, inputs, used
    {
      Core(config, configured, Lanes(), used[..], peerAckOfLocal, lastSimulatedFrame, rollbackFrame)
    }

    constructor ()
      ensures Valid() && State() == Cleared() && fresh(inputs) && fresh(used)
    {
      inputs := new InputSlot[MAX_PLAYERS, RING]((_, _) => EMPTY_SLOT);
      used := new UsedSlot[RING](_ => EMPTY_USED);
      config, configured := NO_CONFIG, false;
      confirmedThrough, peerAckOfLocal := [NONE, NONE, NONE], [NONE, NONE, NONE];
      lastSimulatedFrame, rollbackFrame := NONE, NONE;
      new;
      StateIsCleared();
    }

    lemma StateIsCleared()
      requires Valid() && config == NO_CONFIG && !configured && lastSimulatedFrame == rollbackFrame == NONE
      requires confirmedThrough == [NONE, NONE, NONE] == peerAckOfLocal
      requires forall p, k :: 0 <= p < MAX_PLAYERS && 0 <= k < RING ==> inputs[p, k] == EMPTY_SLOT
      requires forall k :: 0 <= k < RING ==> used[k] == EMPTY_USED
      ensures State() == Cleared()
    {
      forall p | 0 <= p < MAX_PLAYERS ensures Lanes()[p] == Cleared().lanes[p] {
        assert Row(p) == Filled(EMPTY_SLOT);
      }
      assert Lanes() == Cleared().lanes;
      assert used[..] == Filled(EMPTY_USED);
    }

    method Clear()
      requires Valid()
      modifies this, inputs, used
      ensures Valid() && State() == Cleared()
    {
      configured, config := false, NO_CONFIG;
      forall p, k | 0 <= p < MAX_PLAYERS && 0 <= k < RING { inputs[p, k] := EMPTY_SLOT; }
      forall k | 0 <= k < RING { used[k] := EMPTY_USED; }
      confirmedThrough, peerAckOfLocal := [NONE, NONE, NONE], [NONE, NONE, NONE];
      lastSimulatedFrame, rollbackFrame := NONE, NONE;
      StateIsCleared();
    }

    /** Refuses an unusable configuration, and starts every session with a neutral lead-in for the
        local input delay. */
    method Reset(config: CoreConfig) returns (ok: bool)
      requires Valid()
      modifies this, inputs, used
      ensures Valid() && State() == ResetTo(config) && ok == config.Usable()
    {
      Clear();
      if config.playerCount < 2 || config.playerCount > MAX_PLAYERS || config.localPlayer >= config.playerCount ||
         config.maxRollbackFrames == 0 || config.maxRollbackFrames >= RING / 2 || config.inputDelay >= RING / 4 {
        return false;
      }
      this.config, configured := config, true;
      LeadInSlots();
      AdvanceConfirmedThrough(config.localPlayer);
      return true;
    }

    method LeadInSlots()
      requires Valid() && configured && State().Local().ring == Filled(EMPTY_SLOT)
      modifies inputs
      ensures Valid() && State() == old(State()).(lanes := old(State()).lanes[config.localPlayer :=
        Lane(LeadIn(Filled(EMPTY_SLOT), config.inputDelay), confirmedThrough[config.localPlayer])])
    {
      ghost var before := State();
      var frame := 0;
      while frame < config.inputDelay
        invariant frame <= config.inputDelay && Row(config.localPlayer) == LeadIn(Filled(EMPTY_SLOT), frame)
        invariant forall p :: 0 <= p < MAX_PLAYERS && p != config.localPlayer ==> Row(p) == before.lanes[p].ring
      {
        inputs[config.localPlayer, frame] := InputSlot(frame, NEUTRAL, true);
        frame := frame + 1;
        assert Row(config.localPlayer) == LeadIn(Filled(EMPTY_SLOT), frame);
        assert forall p :: 0 <= p < MAX_PLAYERS && p != config.localPlayer ==> Row(p) == before.lanes[p].ring;
      }
      assert Lanes() == before.lanes[config.localPlayer :=
        Lane(LeadIn(Filled(EMPTY_SLOT), config.inputDelay), confirmedThrough[config.localPlayer])];
    }

    method AdvanceConfirmedThrough(player: nat)
      requires Valid() && player < MAX_PLAYERS
      modifies this`confirmedThrough
      ensures Valid()
      ensures State() == old(State()).(lanes := old(State()).lanes[player :=
        Lane(Row(player), Advanced(Row(player), old(confirmedThrough)[player]))])
    {
      ghost var before := State();
      var next := confirmedThrough[player] + 1;
      while next < LIMIT && inputs[player, next % RING].frame == next && inputs[player, next % RING].present
        invariant Valid() && next == confirmedThrough[player] + 1 <= LIMIT
        invariant confirmedThrough == old(confirmedThrough)[player := next - 1]
        invariant Advanced(Row(player), next - 1) == Advanced(Row(player), old(confirmedThrough)[player])
        decreases LIMIT - next
      {
        confirmedThrough := confirmedThrough[player := next];
        next := next + 1;
      }
      assert Lanes() == before.lanes[player := Lane(Row(player), Advanced(Row(player), old(confirmedThrough)[player]))];
    }

    method IsKnown(player: nat, frame: nat) returns (known: bool)
      requires Valid() && player < MAX_PLAYERS
      ensures known == Finds(Row(player), frame)
    {
      var slot;
      known, slot := FindInputSlot(player, frame);
    }

    /** The slot of a known input, if the frame is known and still in the ring. */
    method FindInputSlot(player: nat, frame: nat) returns (found: bool, slot: InputSlot)
      requires Valid() && player < MAX_PLAYERS
      ensures found == Finds(Row(player), frame) && slot == Row(player)[frame % RING]
    {
      slot := inputs[player, frame % RING];
      found := slot.frame == frame && slot.present;
    }

    /** The slot for a frame, emptied first if it belongs to another frame. */
    method GetInputSlot(player: nat, frame: nat) returns (slot: InputSlot)
      requires Valid() && player < MAX_PLAYERS
      modifies inputs
      ensures Valid() && slot == inputs[player, frame % RING] && slot.frame == frame
      ensures State() == WithSlot(old(State()), player, frame, slot)
      ensures slot == if old(State()).lanes[player].ring[frame % RING].frame == frame
        then old(State()).lanes[player].ring[frame % RING] else InputSlot(frame, NEUTRAL, false)
    {
      ghost var before := State();
      if inputs[player, frame % RING].frame != frame {
        inputs[player, frame % RING] := EMPTY_SLOT;
        inputs[player, frame % RING] := inputs[player, frame % RING].(frame := frame);
      }
      slot := inputs[player, frame % RING];
      RowSet(before, player, frame % RING, slot);
    }

    /** One slot of one row has been set. */
    lemma RowSet(before: Core, player: nat, k: nat, slot: InputSlot)
      requires Valid() && player < MAX_PLAYERS && k < RING && inputs[player, k] == slot
      requires forall p, i :: 0 <= p < MAX_PLAYERS && 0 <= i < RING && (p != player || i != k) ==>
        inputs[p, i] == before.lanes[p].ring[i]
      requires forall p :: 0 <= p < MAX_PLAYERS ==> confirmedThrough[p] == before.lanes[p].confirmed
      ensures Lanes() == before.lanes[player := before.lanes[player].(ring := before.lanes[player].ring[k := slot])]
    {
      forall p | 0 <= p < MAX_PLAYERS
        ensures Row(p) == if p == player then before.lanes[p].ring[k := slot] else before.lanes[p].ring {}
    }

    /** Fills the slot `GetInputSlot` returned, and moves the frontier. */
    method StoreInput(player: nat, frame: nat, input: FrameInput, ghost before: Core)
      requires Valid() && player < MAX_PLAYERS && inputs[player, frame % RING].frame == frame
      requires State() == WithSlot(before, player, frame, inputs[player, frame % RING])
      modifies inputs, this`confirmedThrough
      ensures Valid() && State() == WithInput(before, player, frame, input)
    {
      ghost var claimed := State();
      inputs[player, frame % RING] := inputs[player, frame % RING].(input := input, present := true);
      RowSet(claimed, player, frame % RING, InputSlot(frame, input, true));
      assert Row(player) == Stored(before.lanes[player].ring, frame, input);
      ghost var filled := State();
      AdvanceConfirmedThrough(player);
      assert State().lanes == filled.lanes[player := Submitted(before.lanes[player], frame, input)];
      assert filled.lanes[player := Submitted(before.lanes[player], frame, input)] ==
        WithInput(before, player, frame, input).lanes;
    }

    method ScheduleLocalInput(captureFrame: nat, input: FrameInput) returns (ok: bool)
      requires Valid()
      modifies inputs, this`confirmedThrough
      ensures Valid() && State() == Scheduled(old(State()), captureFrame, input).0
      ensures ok == Scheduled(old(State()), captureFrame, input).1
    {
      ghost var before := State();
      if !configured || captureFrame >= LIMIT - config.inputDelay { return false; }
      var frame := captureFrame + config.inputDelay;
      var slot := GetInputSlot(config.localPlayer, frame);
      if slot.present && slot.input != input {
        SameSlotAgain(before, config.localPlayer, frame);
        return false;
      }
      StoreInput(config.localPlayer, frame, input, before);
      return true;
    }

    /** Answers a player's actual input for a frame: new input enters its ring, and a frame simulated with
        another prediction asks for a rollback. */
    method SubmitRemoteInput(player: nat, frame: nat, input: FrameInput) returns (result: RemoteInputResult)
      requires Valid() && frame < LIMIT
      modifies inputs, this`confirmedThrough, this`rollbackFrame
      ensures Valid() && State() == Submit(old(State()), player, frame, input).0
      ensures result == Submit(old(State()), player, frame, input).1
    {
      ghost var before := State();
      if !configured || player >= config.playerCount || player == config.localPlayer { return InvalidPlayer; }
      if FrameIsTooOld(frame) { return TooOld; }
      var slot := GetInputSlot(player, frame);
      if slot.present {
        SameSlotAgain(before, player, frame);
        return if slot.input == input then Duplicate else ConflictingConfirmedInput;
      }
      StoreInput(player, frame, input, before);
      var row := used[frame % RING];
      if row.frame != frame || lastSimulatedFrame == NONE || frame > lastSimulatedFrame { return Accepted; }
      if !row.predicted[player] {
        return if row.inputs[player] == input then Duplicate else ConflictingConfirmedInput;
      }
      if row.inputs[player] == input { return PredictionCorrect; }
      if rollbackFrame == NONE || frame < rollbackFrame { rollbackFrame := frame; }
      return RollbackRequired;
    }

    predicate FrameIsTooOld(frame: nat)
      reads this
    {
      lastSimulatedFrame != NONE && frame <= lastSimulatedFrame && lastSimulatedFrame - frame >= RING
    }

    // ------------------------------------------------------------ simulation

    /** Repeats the nearest earlier known input, or is neutral when there is none in the ring. */
    method PredictInput(player: nat, frame: nat) returns (input: FrameInput)
      requires Valid() && player < MAX_PLAYERS
      ensures input == Predicted(config, Row(player), frame)
    {
      if frame == 0 { return NEUTRAL; }
      var distance := FindNearest(player, frame);
      PredictedAt(config, Row(player), frame, distance);
      if distance == 0 { return NEUTRAL; }
      var _, slot := FindInputSlot(player, frame - distance);
      return Repeated(config, slot.input, distance);
    }

    method FindNearest(player: nat, frame: nat) returns (distance: nat)
      requires Valid() && player < MAX_PLAYERS && 0 < frame
      ensures distance <= frame
      ensures NearestKnown(Row(player), frame - 1, RING) == if distance == 0 then NONE else frame - distance
    {
      ghost var ring, left: nat, at := Row(player), RING, frame - 1;
      ghost var nearest := NearestKnown(ring, at, left);
      var search := if frame < RING then frame else RING;
      distance := 1;
      while distance <= search
        invariant 1 <= distance <= search + 1 && at == frame - distance && left == RING + 1 - distance
        invariant nearest == NearestKnown(ring, at, left)
      {
        var known := IsKnown(player, frame - distance);
        NearestStep(ring, at, left, nearest, known);
        if known { return; }
        distance, at, left := distance + 1, at - 1, left - 1;
      }
      return 0;
    }

    method PrepareFrame(frame: int) returns (decision: FrameDecision)
      requires Valid() && NONE <= frame < LIMIT
      ensures decision.Shaped() && decision == Prepared(State(), frame)
    {
      decision := NO_DECISION;
      if !configured || frame == NONE { return; }
      var player := 0;
      while player < config.playerCount
        invariant player <= config.playerCount && decision.Shaped()
        invariant PreparedFrom(State(), frame, player, decision) == Prepared(State(), frame)
      {
        var confirmed := confirmedThrough[player];
        if !config.allowPrediction && (confirmed == NONE || confirmed < frame) { return; }
        if player != config.localPlayer {
          var distance := if confirmed == NONE then frame + 1 else if frame > confirmed then frame - confirmed else 0;
          if distance > config.maxRollbackFrames { return; }
        }
        var found, slot := FindInputSlot(player, frame);
        if found {
          decision := decision.(inputs := decision.inputs[player := slot.input]);
          assert decision.predicted[player := decision.predicted[player] || false] == decision.predicted;
        } else {
          if player == config.localPlayer { return; }
          if confirmed != NONE && frame <= confirmed { return; }
          var predicted := PredictInput(player, frame);
          decision := decision.(inputs := decision.inputs[player := predicted],
              predicted := decision.predicted[player := true]);
        }
        player := player + 1;
      }
      decision := decision.(canAdvance := true);
    }

    method MarkSimulated(frame: nat, decision: FrameDecision) returns (ok: bool)
      requires Valid() && frame < LIMIT && decision.Shaped()
      modifies used, this`lastSimulatedFrame
      ensures Valid() && ok == MayMark(old(State()), frame, decision)
      ensures State() == if ok then Marked(old(State()), frame, decision) else old(State())
    {
      if !configured || !decision.canAdvance { return false; }
      if !config.allowPrediction {
        var exact := PrepareFrame(frame);
        var next := if lastSimulatedFrame == NONE then 0 else lastSimulatedFrame + 1;
        if frame != next || decision.predicted != NO_MASK || !exact.canAdvance || decision.inputs != exact.inputs {
          return false;
        }
      }
      used[frame % RING] := UsedSlot(frame, decision.inputs, decision.predicted);
      if lastSimulatedFrame == NONE || frame > lastSimulatedFrame { lastSimulatedFrame := frame; }
      return true;
    }

    /** Either the whole interval is on record and is forgotten, or nothing changes. */
    method RewindSimulationTo(firstFrame: int) returns (ok: bool)
      requires Valid() && NONE <= firstFrame < LIMIT
      modifies used, this`lastSimulatedFrame, this`rollbackFrame
      ensures Valid() && ok == MayRewind(old(State()), firstFrame)
      ensures State() == if ok then Rewound(old(State()), firstFrame) else old(State())
    {
      if !configured || !config.allowPrediction || firstFrame == NONE || lastSimulatedFrame == NONE ||
         firstFrame > lastSimulatedFrame || lastSimulatedFrame - firstFrame >= RING ||
         (rollbackFrame != NONE && firstFrame > rollbackFrame) { return false; }
      var frame := firstFrame;
      while true
        invariant firstFrame <= frame <= lastSimulatedFrame && SimulatedAll(State(), firstFrame, frame - 1)
        decreases lastSimulatedFrame - frame
      {
        if used[frame % RING].frame != frame { return false; }
        if frame == lastSimulatedFrame { break; }
        frame := frame + 1;
      }
      ForgetFrom(firstFrame);
      lastSimulatedFrame := if firstFrame == 0 then NONE else firstFrame - 1;
      rollbackFrame := NONE;
      return true;
    }

    method ForgetFrom(firstFrame: nat)
      requires Valid()
      modifies used
      ensures Valid() && used[..] == Forgotten(old(used[..]), firstFrame)
    {
      var k := 0;
      while k < RING
        invariant 0 <= k <= RING
        invariant forall i :: 0 <= i < RING ==>
          used[i] == if i < k && old(used[i]).frame >= firstFrame then EMPTY_USED else old(used[i])
      {
        if used[k].frame != NONE && used[k].frame >= firstFrame { used[k] := EMPTY_USED; }
        k := k + 1;
      }
    }

    // ------------------------------------------------------------ queries

    method ConfirmedInputs(frame: int) returns (ok: bool, row: seq<FrameInput>)
      requires Valid() && NONE <= frame < LIMIT
      ensures ok == HasConfirmedRow(State(), frame)
      ensures ok ==> row == ConfirmedRow(State(), frame)
    {
      ok, row := false, NO_INPUTS;
      if !configured || frame == NONE || lastSimulatedFrame == NONE || frame > lastSimulatedFrame ||
         (rollbackFrame != NONE && rollbackFrame <= frame) { return; }
      var slot := used[frame % RING];
      if slot.frame != frame { return; }
      var seat := 0;
      while seat < config.playerCount
        invariant seat <= config.playerCount && |row| == MAX_PLAYERS
        invariant forall p :: 0 <= p < seat ==> SeatConfirmed(State(), frame, p)
        invariant forall p :: 0 <= p < MAX_PLAYERS ==> row[p] == if p < seat then slot.inputs[p] else NEUTRAL
      {
        if confirmedThrough[seat] == NONE || confirmedThrough[seat] < frame {
          assert !SeatConfirmed(State(), frame, seat);
          return;
        }
        var found, input := FindInputSlot(seat, frame);
        if !found || input.input != slot.inputs[seat] {
          assert !SeatConfirmed(State(), frame, seat);
          return;
        }
        row := row[seat := input.input];
        seat := seat + 1;
      }
      ok := true;
    }

    method ConfirmedThroughAllRemotes() returns (confirmed: int)
      requires Valid()
      ensures confirmed ==
        if configured then Lowest(confirmedThrough, config.localPlayer, config.playerCount, 0, NONE) else NONE
    {
      confirmed := NONE;
      if !configured { return; }
      var player := 0;
      while player < config.playerCount
        invariant player <= config.playerCount
        invariant Lowest(confirmedThrough, config.localPlayer, config.playerCount, player, confirmed)
          == Lowest(confirmedThrough, config.localPlayer, config.playerCount, 0, NONE)
      {
        if player != config.localPlayer {
          var value := confirmedThrough[player];
          if value == NONE { return NONE; }
          if confirmed == NONE || value < confirmed { confirmed := value; }
        }
        player := player + 1;
      }
    }

    method AcknowledgedLocalThroughAllRemotes() returns (minimum: int)
      requires Valid()
      ensures minimum ==
        if configured then Lowest(peerAckOfLocal, config.localPlayer, config.playerCount, 0, NONE) else NONE
    {
      minimum := NONE;
      if !configured { return; }
      var peer := 0;
      while peer < config.playerCount
        invariant peer <= config.playerCount
        invariant Lowest(peerAckOfLocal, config.localPlayer, config.playerCount, peer, minimum)
          == Lowest(peerAckOfLocal, config.localPlayer, config.playerCount, 0, NONE)
      {
        if peer != config.localPlayer {
          if peerAckOfLocal[peer] == NONE { return NONE; }
          if minimum == NONE || peerAckOfLocal[peer] < minimum { minimum := peerAckOfLocal[peer]; }
        }
        peer := peer + 1;
      }
    }

    // ------------------------------------------------------------ packets

    method BuildInputPacket(peer: nat, latestFrame: nat, sequence: nat, ackSequence: nat) returns (packet: PacketData)
      requires Valid() && latestFrame < LIMIT
      ensures packet == Built(State(), peer, latestFrame, sequence, ackSequence)
    {
      packet := NO_PACKET;
      if !configured || peer >= config.playerCount || peer == config.localPlayer { return; }
      var peerAck := peerAckOfLocal[peer];
      var first := if peerAck == NONE then 0 else peerAck + 1;
      if peerAck == NONE && latestFrame + 1 > MAX_WINDOW { first := latestFrame + 1 - MAX_WINDOW; }
      packet := InputPacket(config.sessionId, sequence, ackSequence, latestFrame, confirmedThrough[peer], NONE, NONE, 0,
        config.localPlayer, config.playerCount, []);
      if first > latestFrame { return; }
      var samples := CollectSamples(first, latestFrame);
      assert State().Local().ring == Row(config.localPlayer) &&
        first == FirstUnacknowledged(State(), peer, latestFrame);
      if samples != [] {
        packet := packet.(firstInputFrame := first, latestFrame := first + |samples| - 1, inputs := samples);
      }
    }

    method CollectSamples(first: nat, latestFrame: nat) returns (samples: seq<FrameInput>)
      requires Valid()
      ensures samples == Samples(Row(config.localPlayer), first, latestFrame, MAX_WINDOW)
    {
      samples := [];
      var frame := first;
      ghost var ring, all := Row(config.localPlayer), Samples(Row(config.localPlayer), first, latestFrame, MAX_WINDOW);
      while frame <= latestFrame && |samples| < MAX_WINDOW
        invariant frame == first + |samples| && |samples| <= MAX_WINDOW
        invariant samples + Samples(ring, frame, latestFrame, MAX_WINDOW - |samples|) == all
        decreases MAX_WINDOW - |samples|
      {
        var found, slot := FindInputSlot(config.localPlayer, frame);
        if !found { break; }
        MoveOver(samples, slot.input, Samples(ring, frame + 1, latestFrame, MAX_WINDOW - |samples| - 1));
        samples := samples + [slot.input];
        frame := frame + 1;
      }
      assert Samples(ring, frame, latestFrame, MAX_WINDOW - |samples|) == [];
    }

    /** Validates the whole packet before changing anything; a packet that passes is applied whole. */
    method ApplyInputPacket(packet: InputPacket) returns (ok: bool, worst: RemoteInputResult)
      requires Valid()
      modifies inputs, this`confirmedThrough, this`peerAckOfLocal, this`rollbackFrame
      ensures Valid()
      ensures State() == Apply(old(State()), packet).core && ok == Apply(old(State()), packet).ok
      ensures worst == Apply(old(State()), packet).worst
      ensures !ok ==> State() == old(State())
    {
      WholeOrNothing(State(), packet);
      ok, worst := false, InvalidPlayer;
      if !configured || packet.sessionId != config.sessionId || packet.playerCount != config.playerCount ||
         packet.senderPlayer >= config.playerCount || packet.senderPlayer == config.localPlayer ||
         |packet.inputs| > MAX_WINDOW { return; }
      if |packet.inputs| == 0 {
        if packet.firstInputFrame != NONE { return; }
      } else if packet.firstInputFrame == NONE || packet.latestFrame == NONE ||
        packet.firstInputFrame > LIMIT - (|packet.inputs| - 1) ||
        packet.firstInputFrame + |packet.inputs| - 1 != packet.latestFrame { return; }
      if packet.ackFrame != NONE &&
        (confirmedThrough[config.localPlayer] == NONE
          || packet.ackFrame > confirmedThrough[config.localPlayer]) { return; }
      var nextFrame := if lastSimulatedFrame == NONE then 0 else lastSimulatedFrame + 1;
      if |packet.inputs| != 0 && packet.latestFrame >= nextFrame + RING { return; }
      assert Addressed(State(), packet) && Plausible(State(), packet);
      var verdict := Validate(packet);
      if verdict != Pass {
        if verdict == Conflict { worst := ConflictingConfirmedInput; }
        return;
      }
      ghost var before := State();
      if packet.ackFrame != NONE {
        var ack := peerAckOfLocal[packet.senderPlayer];
        if ack == NONE || packet.ackFrame > ack {
          peerAckOfLocal := peerAckOfLocal[packet.senderPlayer := packet.ackFrame];
        }
      }
      assert State() == Acknowledged(before, packet);
      ok, worst := Commit(packet);
    }

    method Validate(packet: InputPacket) returns (verdict: Verdict)
      requires Valid() && Addressed(State(), packet)
      ensures verdict == VerdictFrom(State(), packet, 0)
    {
      var i := 0;
      ghost var c := State();
      ghost var whole := VerdictFrom(c, packet, 0);
      while i < |packet.inputs|
        invariant i <= |packet.inputs| && VerdictFrom(c, packet, i) == whole
      {
        verdict := CheckSample(packet.senderPlayer, packet.firstInputFrame + i, packet.inputs[i]);
        if verdict != Pass { return; }
        i := i + 1;
      }
      return Pass;
    }

    method CheckSample(player: nat, frame: nat, input: FrameInput) returns (verdict: Verdict)
      requires Valid() && player < MAX_PLAYERS
      ensures verdict == SampleVerdict(State(), player, frame, input)
    {
      if !input.Valid() { return Refuse; }
      if FrameIsTooOld(frame) { return Pass; }
      var occupant := inputs[player, frame % RING];
      var oldestRecoverable := if lastSimulatedFrame == NONE || lastSimulatedFrame < config.maxRollbackFrames then 0
        else lastSimulatedFrame - config.maxRollbackFrames + 1;
      if occupant.present && occupant.frame != frame &&
         (occupant.frame >= oldestRecoverable || occupant.frame == confirmedThrough[player]) { return Refuse; }
      var existing := occupant.frame == frame && occupant.present;
      var row := used[frame % RING];
      if (existing && occupant.input != input) ||
         (!existing && row.frame == frame && lastSimulatedFrame != NONE && frame <= lastSimulatedFrame &&
          !row.predicted[player] && row.inputs[player] != input) { return Conflict; }
      return Pass;
    }

    method Commit(packet: InputPacket) returns (ok: bool, worst: RemoteInputResult)
      requires Valid() && packet.Consistent()
      modifies inputs, this`confirmedThrough, this`rollbackFrame
      ensures Valid() && Applied(State(), ok, worst) == CommitFrom(old(State()), packet, 0, Duplicate)
    {
      worst := Duplicate;
      var i := 0;
      ghost var whole := CommitFrom(State(), packet, 0, Duplicate);
      while i < |packet.inputs|
        invariant i <= |packet.inputs| && Valid() && Leaves(State(), packet, i, worst, whole)
      {
        var result := CommitSample(packet, i, worst, whole);
        if result == ConflictingConfirmedInput || result == InvalidPlayer { return false, result; }
        if Rank(result) > Rank(worst) { worst := result; }
        i := i + 1;
      }
      assert Folded(CommitMark, 0);
      return true, worst;
    }

    method CommitSample(packet: InputPacket, i: nat, ghost worst: RemoteInputResult, ghost whole: Applied)
      returns (result: RemoteInputResult)
      requires Valid() && packet.Consistent() && i < |packet.inputs| && Leaves(State(), packet, i, worst, whole)
      modifies inputs, this`confirmedThrough, this`rollbackFrame
      ensures Valid()
      ensures if result == ConflictingConfirmedInput || result == InvalidPlayer
        then whole == Applied(State(), false, result)
        else Leaves(State(), packet, i + 1, Worse(worst, result), whole)
    {
      assert Folded(CommitMark, 0);
      result := SubmitRemoteInput(packet.senderPlayer, packet.firstInputFrame + i, packet.inputs[i]);
      assert whole == Continued((State(), result), packet, i, worst);
    }
  }
}
