/** The publisher of the spectator stream: every executed frame is recorded in a ring, and confirmed frames
    go out in up to three sends each, resumed where a send failed. */
module SpectatorStagePublishers {
  import opened InputLane
  import opened Options
  import opened Words
  import opened StageStream
  import opened Broadcast

  const CAPACITY: nat := 256

  datatype Requirement = Required | NotRequired | AlreadyPublished | MissingPredecessor

  datatype PublishFailure =
    | NoFailure | InvalidPublisher | MissingRecord | StageCheckpointMissing | CheckpointEncode | CheckpointSend
    | InputUnavailable | InputEncode | InputSend | BossNodeEncode | BossNodeSend

  datatype FrameRecord = FrameRecord(
    frame: Word, stage: Word, schema: Word, initializer: Bytes, inputs: Inputs, hasInputs: bool, bossSlots: Byte)

  const NO_INPUTS: Inputs := [NEUTRAL, NEUTRAL, NEUTRAL]
  const NO_RECORD := FrameRecord(INVALID_FRAME, 0, 0, [], NO_INPUTS, false, 0)
  const NO_IDENTITY := Identity(0, 0, 0, 0)
  const NOT_SHOWN := Shown(0, 0, 0, [], NO_INPUTS, 0)

  predicate RecordOk(r: FrameRecord) {
    r.stage <= MAX_STAGE && |r.initializer| <= MAX_STATE && (r.schema != 0 <==> r.initializer != [])
  }

  function ShownAs(r: FrameRecord, inputs: Inputs): Shown {
    Shown(r.frame, r.stage, r.schema, r.initializer, inputs, r.bossSlots)
  }

  /** Two records that cannot be told apart by the inputs they carry, if both carry any. */
  predicate SameInputs(a: FrameRecord, b: FrameRecord, players: nat)
    requires players <= MAX_PLAYERS
  {
    a.hasInputs && b.hasInputs ==>
      InputsValid(a.inputs, players) && InputsValid(b.inputs, players) && a.inputs[..players] == b.inputs[..players]
  }

  predicate SameRecord(a: FrameRecord, b: FrameRecord, players: nat)
    requires players <= MAX_PLAYERS
  {
    && a.frame == b.frame && a.stage == b.stage && a.schema == b.schema && a.initializer == b.initializer
    && a.bossSlots == b.bossSlots && SameInputs(a, b, players)
  }

  function NextSerial(serial: Word): Word { (serial + 1) % WORD_LIMIT }

  function Chosen(r: FrameRecord, inputs: nat -> Option<Inputs>): Inputs
    requires r.hasInputs || inputs(r.frame).Some?
  {
    if r.hasInputs then r.inputs else inputs(r.frame).value
  }

  predicate Nothing(confirmed: Word, simulated: Word) { confirmed == INVALID_FRAME || simulated == INVALID_FRAME }

  function Least(a: Word, b: Word): Word { if a < b then a else b }

  /** Within one turn of the ring, a slot is shared only by the frame itself. */
  lemma SlotsDiffer(f: nat, next: nat)
    requires next <= f < next + CAPACITY && f % CAPACITY == next % CAPACITY
    ensures f == next
  {}

  class SpectatorStagePublisher {
    var identity: Identity
    var records: array<FrameRecord>
    var firstFrame: Word
    var next: Word
    var stage: Word
    var serial: Word
    var checkpoint: Word
    var phase: nat
    var ended: bool
    ghost var shown: seq<Shown>
    ghost var current: Shown
    ghost var sent: seq<Item>

    ghost function State(): Publisher
      reads this
    {
      Publisher(identity, firstFrame, next, Cursor(serial, checkpoint, stage), phase, ended, shown, current, sent)
    }

    ghost predicate RingOk()
      reads this, records
    {
      && records.Length == CAPACITY && (forall k :: 0 <= k < CAPACITY ==> RecordOk(records[k]))
      && (phase >= 1 ==> current == ShownAs(records[next % CAPACITY], current.inputs))
      && (phase == 0 && 0 < next && records[(next - 1) % CAPACITY].frame == next - 1 && firstFrame < next ==>
            records[(next - 1) % CAPACITY].stage == stage)
    }

    ghost predicate Idle()
      reads this
    {
      identity == NO_IDENTITY && phase == 0 && checkpoint == 0 && !ended && sent == []
    }

    ghost predicate Valid()
      reads this, records
    {
      RingOk() && (Idle() || Good(State()))
    }

    constructor ()
      ensures Valid() && Idle()
    {
      identity, firstFrame, next, stage, serial, checkpoint, phase, ended := NO_IDENTITY, 0, 0, 0, 0, 0, 0, false;
      records := new FrameRecord[CAPACITY](_ => NO_RECORD);
      shown, current, sent := [], NOT_SHOWN, [];
    }

    method Reset(game: Byte, count: Byte, session: nat, abi: Word, first: Word) returns (ok: bool)
      requires Valid()
      modifies this
      ensures Valid() && ok == (Identity(game, count, session, abi).Valid() && first != INVALID_FRAME)
      ensures ok ==> fresh(records) && forall k :: 0 <= k < CAPACITY ==> records[k] == NO_RECORD
      ensures ok ==>
        State() == Publisher(Identity(game, count, session, abi), first, first, START, 0, false, [], NOT_SHOWN, [])
      ensures !ok ==> unchanged(this)
    {
      if !Identity(game, count, session, abi).Valid() || first == INVALID_FRAME { return false; }
      identity, firstFrame, next := Identity(game, count, session, abi), first, first;
      stage, serial, checkpoint, phase, ended := 0, 0, 0, 0, false;
      records := new FrameRecord[CAPACITY](_ => NO_RECORD);
      shown, current, sent := [], NOT_SHOWN, [];
      FreshIsGood(State());
      ok := true;
    }

    /** The frame's record can still be replaced: it is near, and neither published nor on its way out. */
    predicate Replaceable(frame: Word)
      reads this
    {
      next <= frame < next + CAPACITY && (frame == next ==> phase == 0)
    }

    /** Records an executed frame. A published frame, or one on its way out, is never replaced; such a frame is only
        compared with what is held of it. */
    method Record(r: FrameRecord) returns (ok: bool)
      requires Valid()
      modifies records
      ensures Valid() && unchanged(this)
      ensures ok ==> identity.sessionId != 0 && !ended && r.frame != INVALID_FRAME && RecordOk(r)
      ensures ok && Replaceable(r.frame) ==> records[..] == old(records[..])[r.frame % CAPACITY := r]
      ensures !ok || !Replaceable(r.frame) ==> records[..] == old(records[..])
      ensures identity.sessionId != 0 && !ended && r.frame != INVALID_FRAME && RecordOk(r) ==>
        ok == (|| Replaceable(r.frame)
               || (r.frame < next && old(records[r.frame % CAPACITY]).frame != r.frame)
               || (r.frame < next && SameInputs(old(records[r.frame % CAPACITY]), r, identity.playerCount))
               || (r.frame == next && SameRecord(old(records[r.frame % CAPACITY]), r, identity.playerCount)))
    {
      if identity.sessionId == 0 || ended || r.frame == INVALID_FRAME || r.stage > MAX_STAGE
        || |r.initializer| > MAX_STATE
        || (r.schema != 0) != (r.initializer != []) { return false; }
      var slot := r.frame % CAPACITY;
      if r.frame < next { return records[slot].frame != r.frame || SameInputs(records[slot], r, identity.playerCount); }
      if r.frame - next >= CAPACITY { return false; }
      if r.frame == next && phase != 0 { return SameRecord(records[slot], r, identity.playerCount); }
      if slot == next % CAPACITY { SlotsDiffer(r.frame, next); }
      records[slot] := r;
      ok := true;
    }

    predicate Asked(frame: Word, stage: Word)
      reads this
    {
      identity.sessionId != 0 && frame != INVALID_FRAME && stage <= MAX_STAGE && firstFrame <= frame
    }

    /** Every frame from `a` to `b`, exclusive, is in the ring. */
    predicate Covered(a: nat, b: nat)
      requires records.Length == CAPACITY
      reads this, records
    {
      forall f :: a <= f < b ==> records[f % CAPACITY].frame == f
    }

    predicate Answerable(frame: Word)
      requires records.Length == CAPACITY
      reads this, records
    {
      frame == firstFrame || (0 < frame && Covered(next, frame) && records[(frame - 1) % CAPACITY].frame == frame - 1)
    }

    /** Whether the title must capture an initializer for a frame, from the record of the frame before. For
        the frame that goes out next this is exactly whether `Publish` would refuse it without one. */
    method NeedsCheckpoint(frame: Word, stage: Word) returns (r: Requirement)
      requires Valid()
      ensures r == AlreadyPublished <==> Asked(frame, stage) && frame < next
      ensures r == Required || r == NotRequired <==>
        Asked(frame, stage) && next <= frame < next + CAPACITY && Answerable(frame)
      ensures r == Required && frame != firstFrame ==> 0 < frame && records[(frame - 1) % CAPACITY].stage != stage
      ensures r == NotRequired ==> 0 < frame && records[(frame - 1) % CAPACITY].stage == stage
      ensures frame == next && phase == 0 && (r == Required || r == NotRequired) ==>
        (r == Required <==> checkpoint == 0 || stage != this.stage)
    {
      if identity.sessionId == 0 || frame == INVALID_FRAME || stage > MAX_STAGE || frame < firstFrame {
        return MissingPredecessor;
      }
      if frame < next { return AlreadyPublished; }
      if frame - next >= CAPACITY { return MissingPredecessor; }
      if frame == firstFrame { return Required; }
      var pending := next;
      while pending < frame
        invariant next <= pending <= frame && Covered(next, pending)
      {
        if records[pending % CAPACITY].frame != pending { return MissingPredecessor; }
        pending := pending + 1;
      }
      var predecessor := records[(frame - 1) % CAPACITY];
      if predecessor.frame != frame - 1 { return MissingPredecessor; }
      r := if predecessor.stage == stage then NotRequired else Required;
    }

    // -------------------------------------------------------------- publishing

    /** The record of the frame that goes out next. */
    function Pending(): FrameRecord
      requires records.Length == CAPACITY
      reads this, records
    {
      records[next % CAPACITY]
    }

    /** Sends one event, if it can be encoded; its serial is taken once it is out. */
    method SendEvent(event: Event, send: nat -> bool, attempts: nat, unencoded: PublishFailure, unsent: PublishFailure)
      returns (failure: PublishFailure, out: seq<Item>, tried: nat)
      modifies this`serial
      ensures failure == if !event.Valid() then unencoded else if !send(attempts) then unsent else NoFailure
      ensures attempts <= tried && out == if event.Valid() && send(attempts) then [Stage(event)] else []
      ensures serial == if event.Valid() && send(attempts) then event.serial else old(serial)
    {
      if !event.Valid() { return unencoded, [], attempts; }
      if !send(attempts) { return unsent, [], attempts + 1; }
      serial := event.serial;
      return NoFailure, [Stage(event)], attempts + 1;
    }

    /** First the checkpoint, if the frame begins a stage. */
    method OpenFrame(send: nat -> bool, attempts: nat) returns (failure: PublishFailure, out: seq<Item>, tried: nat)
      requires Valid() && identity.sessionId != 0 && !ended && phase == 0 && Pending().frame == next != INVALID_FRAME
      modifies this`serial, this`checkpoint, this`stage, this`phase, this`current, this`sent
      ensures Valid() && sent == old(sent) + out && attempts <= tried
      ensures failure == NoFailure ==>
        && Opens(old(State()).cursor, ShownAs(Pending(), NO_INPUTS))
        && State() == OpenSent(old(State()), ShownAs(Pending(), NO_INPUTS))
      ensures failure != NoFailure ==> State() == old(State())
      ensures match failure
        case NoFailure => true
        case StageCheckpointMissing => Pending().initializer == [] && (checkpoint == 0 || Pending().stage != stage)
        case CheckpointEncode => Pending().initializer != [] && serial + 1 == WORD_LIMIT
        case CheckpointSend => Pending().initializer != [] && !send(attempts)
        case _ => false
    {
      var record := records[next % CAPACITY];
      failure, out, tried := NoFailure, [], attempts;
      ghost var before, s := State(), ShownAs(record, NO_INPUTS);
      if record.initializer != [] {
        var event := Event(identity, CheckpointEvent, next, record.stage, NextSerial(serial), record.schema, 0,
            StageNode, 0, record.initializer);
        failure, out, tried := SendEvent(event, send, attempts, CheckpointEncode, CheckpointSend);
        if failure != NoFailure { return; }
        checkpoint, stage := serial, record.stage;
      } else if checkpoint == 0 || record.stage != stage {
        return StageCheckpointMissing, [], tried;
      }
      EnterFrame(s, out, before);
    }

    method EnterFrame(ghost s: Shown, out: seq<Item>, ghost before: Publisher)
      requires records.Length == CAPACITY && (forall k :: 0 <= k < CAPACITY ==> RecordOk(records[k]))
      requires Good(before) && phase == 0 && !ended && Opens(before.cursor, s) && s.frame == next
        && next != INVALID_FRAME && s == ShownAs(Pending(), NO_INPUTS) && before.phase == 0
      requires State() == before.(cursor := Opened(before.cursor, s)) && out == Opening(before.id, before.cursor, s)
      modifies this`phase, this`current, this`sent
      ensures Valid() && sent == old(sent) + out && State() == OpenSent(before, s)
    {
      ghost var entered := OpenSent(before, s);
      phase := 1;
      current, sent := s, sent + out;
      OpenKeeps(before, s);
      assert State() == entered;
    }

    /** Then the inputs, those recorded or else the confirmed ones. */
    method SendInputs(inputs: nat -> Option<Inputs>, send: nat -> bool, attempts: nat)
      returns (failure: PublishFailure, out: seq<Item>, tried: nat)
      requires Valid() && identity.sessionId != 0 && phase == 1
      modifies this`phase, this`current, this`sent
      ensures Valid() && sent == old(sent) + out && attempts <= tried
      ensures failure == NoFailure ==>
        (Pending().hasInputs || inputs(next).Some?) && State() == InputSent(old(State()), Chosen(Pending(), inputs))
      ensures failure != NoFailure ==> State() == old(State())
      ensures match failure
        case NoFailure => true
        case InputUnavailable => !Pending().hasInputs && inputs(next) == None
        case InputEncode => (Pending().hasInputs || inputs(next).Some?)
        && !InputsValid(Chosen(Pending(), inputs), identity.playerCount)
        case InputSend => !send(attempts)
        case _ => false
    {
      var record := records[next % CAPACITY];
      tried := attempts;
      if !record.hasInputs && inputs(next) == None { return InputUnavailable, [], tried; }
      var packet := Packet(identity.sessionId, identity.gameplayAbi, identity.playerCount, next,
          Chosen(record, inputs));
      if !Encodes(packet) { return InputEncode, [], tried; }
      tried := tried + 1;
      if !send(attempts) { return InputSend, [], tried; }
      failure, out := NoFailure, [Confirmed(packet)];
      ghost var before := State();
      phase := 2;
      current, sent := current.(inputs := packet.inputs), sent + out;
      InputKeepsGood(before, packet.inputs);
      assert State() == InputSent(before, packet.inputs);
    }

    /** Last the boss mark, if there is one; then the frame is published. */
    method CloseFrame(send: nat -> bool, attempts: nat) returns (failure: PublishFailure, out: seq<Item>, tried: nat)
      requires Valid() && identity.sessionId != 0 && phase == 2
      modifies this`serial, this`next, this`phase, this`shown, this`sent
      ensures Valid() && sent == old(sent) + out && attempts <= tried
      ensures failure == NoFailure ==>
        && Closes(identity, old(State()).cursor, current) && old(State()).cursor.checkpoint < WORD_LIMIT
        && State() == CloseSent(old(State()))
      ensures failure != NoFailure ==> State() == old(State())
      ensures match failure
        case NoFailure => true
        case BossNodeEncode => Pending().bossSlots != 0 && (serial + 1 == WORD_LIMIT || next + 1 == INVALID_FRAME)
        case BossNodeSend => Pending().bossSlots != 0 && !send(attempts)
        case _ => false
    {
      var record := records[next % CAPACITY];
      failure, out, tried := NoFailure, [], attempts;
      ghost var before := State();
      if record.bossSlots != 0 {
        var event := Event(identity, NodeEvent, next + 1, stage, NextSerial(serial), 0, checkpoint, BossNode,
            record.bossSlots, []);
        failure, out, tried := SendEvent(event, send, attempts, BossNodeEncode, BossNodeSend);
        if failure != NoFailure { return; }
      }
      LeaveFrame(out, before);
    }

    method LeaveFrame(out: seq<Item>, ghost before: Publisher)
      requires RingOk() && Good(before) && phase == 2 && next < INVALID_FRAME
      requires Closes(before.id, before.cursor, before.current) && before.cursor.checkpoint < WORD_LIMIT
      requires State() == before.(cursor := Closed(before.cursor, current))
        && out == Closing(before.id, before.cursor, current)
      modifies this`next, this`phase, this`shown, this`sent
      ensures Valid() && sent == old(sent) + out && State() == CloseSent(before)
    {
      ghost var left := CloseSent(before);
      CloseKeeps(before);
      next, phase := next + 1, 0;
      shown, sent := shown + [current], sent + out;
      assert State() == left;
    }

    /** Why a frame could not go out. */
    ghost predicate Explains(failure: PublishFailure, inputs: nat -> Option<Inputs>, send: nat -> bool)
      requires records.Length == CAPACITY && identity.playerCount <= MAX_PLAYERS
      reads this, records
    {
      match failure
      case NoFailure => true
      case InvalidPublisher => identity.sessionId == 0 || ended
      case MissingRecord => Pending().frame != next
      case StageCheckpointMissing => phase == 0 && Pending().initializer == []
      && (checkpoint == 0 || Pending().stage != stage)
      case CheckpointEncode => phase == 0 && Pending().initializer != [] && serial + 1 == WORD_LIMIT
      case InputUnavailable => phase == 1 && !Pending().hasInputs && inputs(next) == None
      case InputEncode => phase == 1 && (Pending().hasInputs || inputs(Pending().frame).Some?)
        && !InputsValid(Chosen(Pending(), inputs), identity.playerCount)
      case BossNodeEncode => phase == 2 && Pending().bossSlots != 0
      && (serial + 1 == WORD_LIMIT || next + 1 == INVALID_FRAME)
      case _ => exists k: nat :: !send(k)
    }

    /** The record a published frame was taken from, its inputs aside. */
    ghost predicate Taken(s: Shown, inputs: nat -> Option<Inputs>, whole: bool)
      requires records.Length == CAPACITY
      reads this, records
    {
      var r := records[s.frame % CAPACITY];
      && s == ShownAs(r, s.inputs)
      && (whole ==> (r.hasInputs || inputs(r.frame).Some?) && s.inputs == Chosen(r, inputs))
    }

    /** The frame `f` of these inputs is now the last one shown. */
    ghost predicate Adds(before: seq<Shown>, f: nat, inputs: nat -> Option<Inputs>, whole: bool)
      requires records.Length == CAPACITY
      reads this, records
    {
      |shown| == |before| + 1 && shown[..|before|] == before && shown[|before|].frame == f
      && Taken(shown[|before|], inputs, whole)
    }

    /** The rest of a frame whose checkpoint is settled. */
    method PublishRest(inputs: nat -> Option<Inputs>, send: nat -> bool, attempts: nat)
      returns (failure: PublishFailure, out: seq<Item>, tried: nat)
      requires Valid() && identity.sessionId != 0 && phase >= 1
      modifies this`serial, this`phase, this`next, this`shown, this`current, this`sent
      ensures Valid() && sent == old(sent) + out && attempts <= tried
      ensures failure != InvalidPublisher && Explains(failure, inputs, send)
      ensures failure == NoFailure ==>
        next == old(next) + 1 && phase == 0 && Adds(old(shown), old(next), inputs, old(phase) < 2)
      ensures failure != NoFailure ==> next == old(next) && shown == old(shown) && old(phase) <= phase
    {
      out, tried := [], attempts;
      if phase == 1 {
        failure, out, tried := SendInputs(inputs, send, tried);
        if failure != NoFailure { return; }
      }
      var last: seq<Item>;
      failure, last, tried := CloseFrame(send, tried);
      out := out + last;
    }

    /** One frame, from wherever an earlier call stopped. */
    method PublishFrame(inputs: nat -> Option<Inputs>, send: nat -> bool, attempts: nat)
      returns (failure: PublishFailure, out: seq<Item>, tried: nat)
      requires Valid() && identity.sessionId != 0 && !ended && next != INVALID_FRAME
      modifies this`serial, this`checkpoint, this`stage, this`phase, this`next, this`shown, this`current, this`sent
      ensures Valid() && sent == old(sent) + out && attempts <= tried
      ensures failure != InvalidPublisher && Explains(failure, inputs, send)
      ensures failure == NoFailure ==>
        next == old(next) + 1 && phase == 0 && Adds(old(shown), old(next), inputs, old(phase) < 2)
      ensures failure != NoFailure ==> next == old(next) && shown == old(shown) && old(phase) <= phase
    {
      out, tried := [], attempts;
      if records[next % CAPACITY].frame != next { return MissingRecord, out, tried; }
      if phase == 0 {
        failure, out, tried := OpenFrame(send, tried);
        if failure != NoFailure { return; }
      }
      var rest: seq<Item>;
      failure, rest, tried := PublishRest(inputs, send, tried);
      out := out + rest;
    }

    /** Publishes every confirmed and simulated frame, stopping at the first that cannot go out. What was
        sent is never taken back: a later call goes on from there. */
    method Publish(confirmed: Word, simulated: Word, inputs: nat -> Option<Inputs>, send: nat -> bool)
      returns (ok: bool, failure: PublishFailure, out: seq<Item>)
      requires Valid()
      modifies this`serial, this`checkpoint, this`stage, this`phase, this`next, this`shown, this`current, this`sent
      ensures Valid() && sent == old(sent) + out && ok == (failure == NoFailure) && Explains(failure, inputs, send)
      ensures (failure == InvalidPublisher) == (identity.sessionId == 0 || ended)
      ensures Nothing(confirmed, simulated) || old(next) > Least(confirmed, simulated) ==> State() == old(State())
      ensures ok && !Nothing(confirmed, simulated) ==>
        next > Least(confirmed, simulated) && (next > old(next) ==> phase == 0)
      ensures old(next) <= next && (next > old(next) ==> next <= Least(confirmed, simulated) + 1)
      ensures |shown| == |old(shown)| + (next - old(next)) && shown[..|old(shown)|] == old(shown)
      ensures forall i :: |old(shown)| <= i < |shown| ==> Taken(shown[i], inputs, old(phase) < 2 || i > |old(shown)|)
    {
      out, failure := [], NoFailure;
      if identity.sessionId == 0 || ended { return false, InvalidPublisher, []; }
      if confirmed == INVALID_FRAME || simulated == INVALID_FRAME { return true, NoFailure, []; }
      var last, tried := Least(confirmed, simulated), 0;
      ghost var n := |shown|;
      while next <= last
        invariant Valid() && sent == old(sent) + out && identity == old(identity) && ended == old(ended)
        invariant old(next) <= next && (next > old(next) ==> next <= last + 1 && phase == 0)
        invariant failure == NoFailure
        invariant next == old(next) ==> State() == old(State())
        invariant |shown| == n + (next - old(next)) && shown[..n] == old(shown)
        invariant forall i :: n <= i < |shown| ==> Taken(shown[i], inputs, old(phase) < 2 || i > n)
        decreases last + 1 - next
      {
        var sentNow: seq<Item>;
        failure, sentNow, tried := PublishFrame(inputs, send, tried);
        out := out + sentNow;
        if failure != NoFailure { return false, failure, out; }
      }
      ok := true;
    }

    /** The last frame must be published whole; then the stream ends, once. */
    method Finish(endFrame: Word, send: nat -> bool) returns (ok: bool, out: seq<Item>)
      requires Valid()
      modifies this`serial, this`ended, this`sent
      ensures Valid() && sent == old(sent) + out
      ensures ok == (!old(ended) && checkpoint != 0 && phase == 0 && endFrame == next != INVALID_FRAME
                     && old(serial) + 1 < WORD_LIMIT && send(0))
      ensures ok ==> EndsAt(old(State()), old(State()).cursor) && State() == EndSent(old(State()))
      ensures !ok ==> State() == old(State())
    {
      if ended || checkpoint == 0 || phase != 0 || endFrame != next { return false, []; }
      ghost var before := State();
      var event := Event(identity, EndEvent, next, stage, NextSerial(serial), 0, 0, StageNode, 0, []);
      if !event.Valid() || !send(0) { return false, []; }
      serial, ended := event.serial, true;
      ok, out := true, [Stage(event)];
      sent := sent + out;
      EndKeeps(before);
      assert State() == EndSent(before);
    }
}
}
