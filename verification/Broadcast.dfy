/** What a publisher must send for the frames it publishes, as a function of those frames, and the proof
    that a fresh history takes all of it. */
module Broadcast {
  import opened Folding
  import opened InputLane
  import opened Options
  import opened Words
  import opened StageStream

  datatype Item = Stage(event: Event) | Confirmed(packet: Packet)

  /** A published frame: its stage, the initializer if a stage begins with it, the inputs and the bosses
      registered during it. */
  datatype Shown = Shown(frame: Word, stage: Word, schema: Word, initializer: Bytes, inputs: Inputs, bossSlots: Byte)

  /** The numbering: the last serial, and the serial and stage of the last checkpoint. */
  datatype Cursor = Cursor(serial: nat, checkpoint: nat, stage: nat)

  const START := Cursor(0, 0, 0)

  function Opened(c: Cursor, s: Shown): Cursor {
    if s.initializer == [] then c else Cursor(c.serial + 1, c.serial + 1, s.stage)
  }

  function Closed(c: Cursor, s: Shown): Cursor { if s.bossSlots == 0 then c else c.(serial := c.serial + 1) }

  function CheckpointOf(id: Identity, c: Cursor, s: Shown): Event
    requires c.serial + 1 < WORD_LIMIT
  {
    Event(id, CheckpointEvent, s.frame, s.stage, c.serial + 1, s.schema, 0, StageNode, 0, s.initializer)
  }

  function InputOf(id: Identity, s: Shown): Packet {
    Packet(id.sessionId, id.gameplayAbi, id.playerCount, s.frame, s.inputs)
  }

  function NodeOf(id: Identity, c: Cursor, s: Shown): Event
    requires c.serial + 1 < WORD_LIMIT && c.checkpoint < WORD_LIMIT && c.stage < WORD_LIMIT
      && s.frame + 1 < INVALID_FRAME
  {
    Event(id, NodeEvent, s.frame + 1, c.stage, c.serial + 1, 0, c.checkpoint, BossNode, s.bossSlots, [])
  }

  function EndOf(id: Identity, c: Cursor, next: Word): Event
    requires c.serial + 1 < WORD_LIMIT && c.stage < WORD_LIMIT
  {
    Event(id, EndEvent, next, c.stage, c.serial + 1, 0, 0, StageNode, 0, [])
  }

  // ---------------------------------------------------------------- the stream of the frames shown

  /** A frame that can be published after those that led to `c`. */
  predicate Opens(c: Cursor, s: Shown) {
    && s.frame != INVALID_FRAME && s.stage <= MAX_STAGE && (s.schema != 0 <==> s.initializer != [])
    && |s.initializer| <= MAX_STATE
    && (s.initializer == [] ==> c.checkpoint != 0 && s.stage == c.stage)
    && Opened(c, s).serial < WORD_LIMIT
  }

  predicate Closes(id: Identity, c: Cursor, s: Shown) {
    && id.playerCount <= MAX_PLAYERS && InputsValid(s.inputs, id.playerCount)
    && Closed(c, s).serial < WORD_LIMIT && (s.bossSlots != 0 ==> s.frame + 1 < INVALID_FRAME)
  }

  function CursorAfter(shown: seq<Shown>): Cursor {
    if shown == [] then START
    else var s := shown[|shown| - 1]; Closed(Opened(CursorAfter(shown[..|shown| - 1]), s), s)
  }

  /** Frames published one after another, from `first`. */
  predicate Publishable(id: Identity, first: nat, shown: seq<Shown>) {
    shown == [] ||
    var n := |shown| - 1;
    var c := CursorAfter(shown[..n]);
    && Publishable(id, first, shown[..n]) && shown[n].frame == first + n && Opens(c, shown[n])
    && Closes(id, Opened(c, shown[n]), shown[n])
  }

  lemma {:induction false} CursorBounds(id: Identity, first: nat, shown: seq<Shown>)
    requires Publishable(id, first, shown)
    ensures var c := CursorAfter(shown);
      c.serial < WORD_LIMIT && c.checkpoint <= c.serial && c.stage <= MAX_STAGE && (shown == [] <==> c.checkpoint == 0)
  {
    if shown != [] { CursorBounds(id, first, shown[..|shown| - 1]); }
  }

  function Opening(id: Identity, c: Cursor, s: Shown): seq<Item>
    requires Opens(c, s)
  {
    if s.initializer == [] then [] else [Stage(CheckpointOf(id, c, s))]
  }

  function Closing(id: Identity, c: Cursor, s: Shown): seq<Item>
    requires Closes(id, c, s) && c.checkpoint < WORD_LIMIT && c.stage < WORD_LIMIT
  {
    if s.bossSlots == 0 then [] else [Stage(NodeOf(id, c, s))]
  }

  /** Everything sent for the frames shown: for each its checkpoint if it has one, its inputs once, and its
      boss mark if it has one. */
  function Render(id: Identity, first: nat, shown: seq<Shown>): seq<Item>
    requires Publishable(id, first, shown)
  {
    if shown == [] then [] else
      var n := |shown| - 1;
      var c := CursorAfter(shown[..n]);
      CursorBounds(id, first, shown[..n]);
      Render(id, first, shown[..n]) + Opening(id, c, shown[n]) + [Confirmed(InputOf(id, shown[n]))]
        + Closing(id, Opened(c, shown[n]), shown[n])
  }

  // ---------------------------------------------------------------- a fresh history takes it

  predicate Admits(h: History, item: Item) {
    match item
    case Stage(e) => AdmitsEvent(h, e)
    case Confirmed(p) => AdmitsInput(h, p)
  }

  function Added(h: History, item: Item): History
    requires Admits(h, item)
  {
    match item
    case Stage(e) => EventAdded(h, e)
    case Confirmed(p) => InputAdded(h, p)
  }

  /** The history made of the items, if every one is in order. */
  function Collected(items: seq<Item>): Option<History> {
    if items == [] then Some(NO_HISTORY) else
      var before := Collected(items[..|items| - 1]);
      if before.Some? && Admits(before.value, items[|items| - 1]) then Some(Added(before.value, items[|items| - 1]))
      else None
  }

  lemma CollectNext(items: seq<Item>, item: Item)
    requires Collected(items).Some? && Admits(Collected(items).value, item)
    ensures Collected(items + [item]) == Some(Added(Collected(items).value, item))
  {
    assert (items + [item])[..|items|] == items;
  }

  /** How a history stands when everything up to frame `next` has been sent. */
  ghost predicate Stands(h: History, id: Identity, c: Cursor, next: nat) {
    && c.serial < WORD_LIMIT && c.checkpoint <= c.serial && c.stage <= MAX_STAGE && !h.ended && h.serial == c.serial
    && if c.checkpoint == 0 then h == NO_HISTORY else
      h.segments != [] && h.next == next && h.Last().checkpoint.identity == id
      && h.Last().checkpoint.serial == c.checkpoint && h.Last().checkpoint.stage == c.stage
      && h.Last().checkpoint.frame <= next
  }

  /** A frame boundary: the last segment has begun before it. */
  ghost predicate AtBoundary(h: History, next: nat) { h.segments != [] ==> h.Last().checkpoint.frame < next }

  lemma CheckpointStands(h: History, id: Identity, c: Cursor, s: Shown)
    requires id.Valid() && Stands(h, id, c, s.frame) && AtBoundary(h, s.frame) && Opens(c, s) && s.initializer != []
    ensures AdmitsEvent(h, CheckpointOf(id, c, s))
    ensures Stands(EventAdded(h, CheckpointOf(id, c, s)), id, Opened(c, s), s.frame)
  {}

  lemma InputStands(h: History, id: Identity, c: Cursor, s: Shown)
    requires id.Valid() && Stands(h, id, c, s.frame) && c.checkpoint != 0 && s.frame != INVALID_FRAME
      && InputsValid(s.inputs, id.playerCount)
    ensures AdmitsInput(h, InputOf(id, s))
    ensures Stands(InputAdded(h, InputOf(id, s)), id, c, s.frame + 1)
      && AtBoundary(InputAdded(h, InputOf(id, s)), s.frame + 1)
  {}

  lemma NodeStands(h: History, id: Identity, c: Cursor, s: Shown)
    requires id.Valid() && Stands(h, id, c, s.frame + 1) && AtBoundary(h, s.frame + 1) && c.checkpoint != 0
    requires s.bossSlots != 0 && Closes(id, c, s)
    ensures s.frame + 1 < WORD_LIMIT && AdmitsEvent(h, NodeOf(id, c, s))
    ensures Stands(EventAdded(h, NodeOf(id, c, s)), id, Closed(c, s), s.frame + 1)
      && AtBoundary(EventAdded(h, NodeOf(id, c, s)), s.frame + 1)
  {}

  lemma OpeningCollects(items: seq<Item>, id: Identity, c: Cursor, s: Shown)
    requires id.Valid() && Opens(c, s) && Collected(items).Some?
    requires Stands(Collected(items).value, id, c, s.frame) && AtBoundary(Collected(items).value, s.frame)
    ensures Collected(items + Opening(id, c, s)).Some?
    ensures Stands(Collected(items + Opening(id, c, s)).value, id, Opened(c, s), s.frame)
      && Opened(c, s).checkpoint != 0
  {
    if s.initializer == [] {
      assert items + Opening(id, c, s) == items;
    } else {
      CheckpointStands(Collected(items).value, id, c, s);
      CollectNext(items, Stage(CheckpointOf(id, c, s)));
    }
  }

  lemma InputCollects(items: seq<Item>, id: Identity, c: Cursor, s: Shown)
    requires id.Valid() && Collected(items).Some? && Stands(Collected(items).value, id, c, s.frame) && c.checkpoint != 0
    requires s.frame != INVALID_FRAME && InputsValid(s.inputs, id.playerCount)
    ensures var after := Collected(items + [Confirmed(InputOf(id, s))]);
      after.Some? && Stands(after.value, id, c, s.frame + 1) && AtBoundary(after.value, s.frame + 1)
  {
    InputStands(Collected(items).value, id, c, s);
    CollectNext(items, Confirmed(InputOf(id, s)));
  }

  lemma ClosingCollects(items: seq<Item>, id: Identity, c: Cursor, s: Shown)
    requires id.Valid() && Closes(id, c, s) && c.checkpoint != 0 && Collected(items).Some?
    requires Stands(Collected(items).value, id, c, s.frame + 1) && AtBoundary(Collected(items).value, s.frame + 1)
    ensures Collected(items + Closing(id, c, s)).Some?
    ensures Stands(Collected(items + Closing(id, c, s)).value, id, Closed(c, s), s.frame + 1)
    ensures AtBoundary(Collected(items + Closing(id, c, s)).value, s.frame + 1)
  {
    if s.bossSlots == 0 {
      assert items + Closing(id, c, s) == items;
    } else {
      NodeStands(Collected(items).value, id, c, s);
      CollectNext(items, Stage(NodeOf(id, c, s)));
    }
  }

  /** The stream of any frames published in order is in order for a fresh history. */
  lemma {:induction false} RenderCollects(id: Identity, first: nat, shown: seq<Shown>)
    requires id.Valid() && Publishable(id, first, shown)
    ensures var h := Collected(Render(id, first, shown));
      h.Some? && Stands(h.value, id, CursorAfter(shown), first + |shown|) && AtBoundary(h.value, first + |shown|)
  {
    if shown == [] { return; }
    var n := |shown| - 1;
    var c, s, items := CursorAfter(shown[..n]), shown[n], Render(id, first, shown[..n]);
    RenderCollects(id, first, shown[..n]);
    OpeningCollects(items, id, c, s);
    InputCollects(items + Opening(id, c, s), id, Opened(c, s), s);
    ClosingCollects(items + Opening(id, c, s) + [Confirmed(InputOf(id, s))], id, Opened(c, s), s);
  }

  // ---------------------------------------------------------------- what it means for a stream to be in order

  function PacketsOf(items: seq<Item>): seq<Packet> {
    if items == [] then [] else
      var last := items[|items| - 1];
      PacketsOf(items[..|items| - 1]) + (if last.Confirmed? then [last.packet] else [])
  }

  /** A stream in order carries every input exactly once, frame after frame from its first checkpoint. */
  lemma {:induction false} InputsOnceInOrder(items: seq<Item>)
    requires Collected(items).Some?
    ensures var h, packets := Collected(items).value, PacketsOf(items);
      if h.segments == [] then packets == [] else
        h.next == h.segments[0].checkpoint.frame + |packets|
        && forall k :: 0 <= k < |packets| ==> packets[k].frame == h.segments[0].checkpoint.frame + k
  {
    if items != [] { InputsOnceInOrder(items[..|items| - 1]); }
  }

  /** Its serials rise strictly. */
  lemma {:induction false} SerialsRise(items: seq<Item>)
    requires Collected(items).Some?
    ensures forall i, j :: 0 <= i < j < |items| && items[i].Stage? && items[j].Stage? ==>
      items[i].event.serial < items[j].event.serial
    ensures forall i :: 0 <= i < |items| && items[i].Stage? ==> items[i].event.serial <= Collected(items).value.serial
  {
    if items == [] { return; }
    var n := |items| - 1;
    var before := items[..n];
    SerialsRise(before);
    forall i | 0 <= i < n ensures items[i] == before[i] {}
    if Collected(before).value.segments == [] { NothingYet(before); }
  }

  lemma {:induction false} NothingYet(items: seq<Item>)
    requires Collected(items).Some? && Collected(items).value.segments == []
    ensures items == []
  {
    if items != [] { NothingYet(items[..|items| - 1]); }
  }

  /** What a history takes when it also minds its limits. */
  function Accepted(items: seq<Item>): Option<History> {
    if items == [] then Some(NO_HISTORY) else
      var before := Accepted(items[..|items| - 1]);
      if before == None then None else
        match items[|items| - 1]
        case Stage(e) => AcceptEvent(before.value, e)
        case Confirmed(p) => AcceptInput(before.value, p)
  }

  /** A stream in order is accepted item by item, up to the limits of the history and no further. */
  lemma {:induction false} AcceptedUpToLimits(items: seq<Item>)
    ensures Accepted(items).Some? <==>
      Collected(items).Some? && Collected(items).value.bytes <= HISTORY_MAX_BYTES
      && Collected(items).value.frames <= HISTORY_MAX_FRAMES
    ensures Accepted(items).Some? ==> Accepted(items) == Collected(items)
  {
    if items != [] { AcceptedUpToLimits(items[..|items| - 1]); }
  }

  lemma {:induction false} PacketsOfBoth(a: seq<Item>, b: seq<Item>)
    ensures PacketsOf(a + b) == PacketsOf(a) + PacketsOf(b)
  {
    if b == [] {
      assert a + b == a;
    } else {
      assert (a + b)[..|a + b| - 1] == a + b[..|b| - 1];
      PacketsOfBoth(a, b[..|b| - 1]);
    }
  }

  /** The inputs of a rendered stream are those of the frames shown. */
  lemma {:induction false} RenderedInputs(id: Identity, first: nat, shown: seq<Shown>)
    requires Publishable(id, first, shown)
    ensures var packets := PacketsOf(Render(id, first, shown));
      |packets| == |shown| && forall k :: 0 <= k < |shown| ==> packets[k] == InputOf(id, shown[k])
  {
    if shown == [] { return; }
    var n := |shown| - 1;
    var c, s, items := CursorAfter(shown[..n]), shown[n], Render(id, first, shown[..n]);
    CursorBounds(id, first, shown[..n]);
    RenderedInputs(id, first, shown[..n]);
    OneInput(items, Opening(id, c, s), InputOf(id, s), Closing(id, Opened(c, s), s));
  }

  lemma OneInput(items: seq<Item>, opening: seq<Item>, p: Packet, closing: seq<Item>)
    requires forall i :: 0 <= i < |opening| ==> opening[i].Stage?
    requires forall i :: 0 <= i < |closing| ==> closing[i].Stage?
    ensures PacketsOf(items + opening) == PacketsOf(items)
    ensures PacketsOf(items + opening + [Confirmed(p)]) == PacketsOf(items) + [p]
    ensures PacketsOf(items + opening + [Confirmed(p)] + closing) == PacketsOf(items) + [p]
  {
    PacketsOfBoth(items, opening);
    NoPackets(opening);
    PacketsOfBoth(items + opening, [Confirmed(p)]);
    assert PacketsOf([Confirmed(p)]) == [p] by { assert [Confirmed(p)][..0] == []; }
    PacketsOfBoth(items + opening + [Confirmed(p)], closing);
    NoPackets(closing);
  }

  lemma {:induction false} NoPackets(items: seq<Item>)
    requires forall i :: 0 <= i < |items| ==> items[i].Stage?
    ensures PacketsOf(items) == []
  {
    if items != [] { NoPackets(items[..|items| - 1]); }
  }

  // ---------------------------------------------------------------- a publisher between two calls

  /** `phase` counts what has gone out of the frame `next`: nothing, its checkpoint, its inputs. */
  datatype Publisher = Publisher(
    id: Identity, first: nat, next: nat, cursor: Cursor, phase: nat, ended: bool,
    shown: seq<Shown>, current: Shown, sent: seq<Item>)

  predicate NextOpens(p: Publisher) { p.current.frame == p.next && Opens(CursorAfter(p.shown), p.current) }

  /** The stream is that of the frames shown and of the part of the next one that has gone out. */
  ghost predicate Good(p: Publisher) { Bounded(p) && forall u: int :: Folded(StreamMark, u) ==> InOrder(p) }

  /** What a caller may rely on between two sends. */
  predicate Bounded(p: Publisher) {
    && p.id.Valid() && p.next == p.first + |p.shown| && p.next < WORD_LIMIT && p.phase <= 2
    && p.cursor.serial < WORD_LIMIT && p.cursor.checkpoint <= p.cursor.serial && p.cursor.stage <= MAX_STAGE
    && (p.phase >= 1 ==> p.current.frame == p.next && p.next != INVALID_FRAME && p.cursor.checkpoint != 0)
    && (p.phase == 2 ==> InputsValid(p.current.inputs, p.id.playerCount))
    && (p.phase >= 1 ==> p.current.stage == p.cursor.stage)
    && (p.phase == 0 ==> (p.cursor.checkpoint == 0 <==> p.next == p.first))
    && (p.ended ==> p.phase == 0)
  }

  ghost predicate InOrder(p: Publisher) {
    && p.id.Valid() && Publishable(p.id, p.first, p.shown) && p.next == p.first + |p.shown| && p.next < WORD_LIMIT
    && p.phase <= 2
    && var items, c := Render(p.id, p.first, p.shown), CursorAfter(p.shown);
    && (p.phase == 0 && !p.ended ==> p.cursor == c && p.sent == items)
    && (p.ended ==> p.phase == 0 && p.cursor == c.(serial := c.serial + 1) && EndsAt(p, c))
    && (p.ended ==> p.sent == items + [Stage(EndOf(p.id, c, p.next))])
    && (p.phase >= 1 ==> NextOpens(p) && p.cursor == Opened(c, p.current))
    && (p.phase == 1 ==> p.sent == items + Opening(p.id, c, p.current))
    && (p.phase == 2 ==> InputsValid(p.current.inputs, p.id.playerCount))
    && (p.phase == 2 ==> p.sent == items + Opening(p.id, c, p.current) + [Confirmed(InputOf(p.id, p.current))])
  }

  lemma InOrderIsBounded(p: Publisher)
    requires InOrder(p)
    ensures Good(p)
  {
    CursorBounds(p.id, p.first, p.shown);
  }

  predicate EndsAt(p: Publisher, c: Cursor) {
    p.next < INVALID_FRAME && 0 < c.checkpoint && c.serial + 1 < WORD_LIMIT && c.stage <= MAX_STAGE
  }

  function OpenSent(p: Publisher, s: Shown): Publisher
    requires Opens(p.cursor, s)
  {
    p.(phase := 1, cursor := Opened(p.cursor, s), current := s, sent := p.sent + Opening(p.id, p.cursor, s))
  }

  function InputSent(p: Publisher, inputs: Inputs): Publisher {
    var s := p.current.(inputs := inputs);
    p.(phase := 2, current := s, sent := p.sent + [Confirmed(InputOf(p.id, s))])
  }

  function CloseSent(p: Publisher): Publisher
    requires Closes(p.id, p.cursor, p.current) && p.cursor.checkpoint < WORD_LIMIT && p.cursor.stage < WORD_LIMIT
  {
    p.(phase := 0, next := p.next + 1, cursor := Closed(p.cursor, p.current), shown := p.shown + [p.current],
       sent := p.sent + Closing(p.id, p.cursor, p.current))
  }

  function EndSent(p: Publisher): Publisher
    requires EndsAt(p, p.cursor)
  {
    p.(ended := true, cursor := p.cursor.(serial := p.cursor.serial + 1),
        sent := p.sent + [Stage(EndOf(p.id, p.cursor, p.next))])
  }

  lemma OpenKeeps(p: Publisher, s: Shown)
    requires Good(p) && p.phase == 0 && !p.ended && s.frame == p.next && Opens(p.cursor, s)
    ensures Good(OpenSent(p, s))
  {
    assert Folded(StreamMark, 0);
    InOrderIsBounded(OpenSent(p, s));
  }

  lemma InputKeepsGood(p: Publisher, inputs: Inputs)
    requires Good(p) && p.phase == 1 && InputsValid(inputs, p.id.playerCount)
    ensures Good(InputSent(p, inputs))
  {
    assert Folded(StreamMark, 0);
    var s, c := p.current.(inputs := inputs), CursorAfter(p.shown);
    assert Opening(p.id, c, s) == Opening(p.id, c, p.current);
    InOrderIsBounded(InputSent(p, inputs));
  }

  lemma CloseKeeps(p: Publisher)
    requires Good(p) && p.phase == 2 && Closes(p.id, p.cursor, p.current)
    ensures Good(CloseSent(p))
  {
    assert Folded(StreamMark, 0);
    var after := p.shown + [p.current];
    assert after[..|p.shown|] == p.shown;
    CursorBounds(p.id, p.first, p.shown);
    assert Publishable(p.id, p.first, after);
    InOrderIsBounded(CloseSent(p));
  }

  lemma EndKeeps(p: Publisher)
    requires Good(p) && p.phase == 0 && !p.ended && EndsAt(p, p.cursor)
    ensures Good(EndSent(p))
  {
    assert Folded(StreamMark, 0);
    InOrderIsBounded(EndSent(p));
  }

  lemma FreshIsGood(p: Publisher)
    requires p.id.Valid() && p.first == p.next < INVALID_FRAME && p.cursor == START && p.phase == 0 && !p.ended
      && p.shown == [] && p.sent == []
    ensures Good(p)
  {
    InOrderIsBounded(p);
  }

  /** Whatever sends failed and were retried, a fresh history finds what was sent in order. */
  lemma SentCollects(p: Publisher)
    requires Good(p)
    ensures Collected(p.sent).Some?
  {
    assert Folded(StreamMark, 0);
    var items, c, s := Render(p.id, p.first, p.shown), CursorAfter(p.shown), p.current;
    RenderCollects(p.id, p.first, p.shown);
    if p.ended {
      EndCollects(items, p.id, c, p.next);
    } else if p.phase >= 1 {
      OpeningCollects(items, p.id, c, s);
      if p.phase == 2 { InputCollects(items + Opening(p.id, c, s), p.id, p.cursor, s); }
    }
  }

  lemma EndCollects(items: seq<Item>, id: Identity, c: Cursor, next: Word)
    requires id.Valid() && Collected(items).Some? && Stands(Collected(items).value, id, c, next)
    requires next < INVALID_FRAME && 0 < c.checkpoint && c.serial + 1 < WORD_LIMIT && c.stage <= MAX_STAGE
    ensures Collected(items + [Stage(EndOf(id, c, next))]).Some?
  {
    CollectNext(items, Stage(EndOf(id, c, next)));
  }

  /** Exactly once: between any two calls, what has been sent is accepted item by item by a fresh history up
      to its limits, its serials rise strictly, and its inputs are those of the frames shown, each once and in
      order, followed by those of the frame under way if they have gone out. */
  lemma ExactlyOnce(p: Publisher)
    requires Good(p)
    ensures Collected(p.sent).Some?
    ensures var h := Collected(p.sent).value;
      h.bytes <= HISTORY_MAX_BYTES && h.frames <= HISTORY_MAX_FRAMES ==> Accepted(p.sent) == Some(h)
    ensures forall i, j :: 0 <= i < j < |p.sent| && p.sent[i].Stage? && p.sent[j].Stage? ==>
      p.sent[i].event.serial < p.sent[j].event.serial
    ensures |PacketsOf(p.sent)| == |p.shown| + (if p.phase == 2 then 1 else 0)
    ensures forall k :: 0 <= k < |p.shown| ==>
      PacketsOf(p.sent)[k] == InputOf(p.id, p.shown[k]) && p.shown[k].frame == p.first + k
  {
    assert Folded(StreamMark, 0);
    SentCollects(p);
    SerialsRise(p.sent);
    AcceptedUpToLimits(p.sent);
    SentInputs(p);
    ShownInOrder(p.id, p.first, p.shown);
  }

  lemma {:induction false} ShownInOrder(id: Identity, first: nat, shown: seq<Shown>)
    requires Publishable(id, first, shown)
    ensures forall k :: 0 <= k < |shown| ==> shown[k].frame == first + k
  {
    if shown != [] { ShownInOrder(id, first, shown[..|shown| - 1]); }
  }

  lemma SentInputs(p: Publisher)
    requires Good(p)
    ensures |PacketsOf(p.sent)| == |p.shown| + (if p.phase == 2 then 1 else 0)
    ensures forall k :: 0 <= k < |p.shown| ==> PacketsOf(p.sent)[k] == InputOf(p.id, p.shown[k])
  {
    assert Folded(StreamMark, 0);
    var items, c, s := Render(p.id, p.first, p.shown), CursorAfter(p.shown), p.current;
    RenderedInputs(p.id, p.first, p.shown);
    if p.ended {
      var end := [Stage(EndOf(p.id, c, p.next))];
      OneInput(items, end, InputOf(p.id, s), []);
    } else if p.phase >= 1 {
      OneInput(items, Opening(p.id, c, s), InputOf(p.id, s), []);
    }
  }
}
