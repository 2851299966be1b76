/** What a history stores of the stream it took, and so what a viewer replays: every confirmed input, every
    checkpoint and every node, in order and as they were sent. */
module StoredStream {
  import opened Folding
  import opened InputLane
  import opened Options
  import opened Words
  import opened StageStream
  import opened Broadcast

  /** The inputs of the segments, one after another. */
  function InputsIn(segments: seq<Segment>): seq<Packet> {
    if segments == [] then [] else InputsIn(segments[..|segments| - 1]) + segments[|segments| - 1].inputs
  }

  /** The checkpoint and the nodes of each segment, one segment after another. */
  function EventsIn(segments: seq<Segment>): seq<Event> {
    if segments == [] then [] else
      var last := segments[|segments| - 1];
      EventsIn(segments[..|segments| - 1]) + [last.checkpoint] + last.nodes
  }

  predicate Kept(item: Item) { item.Stage? && item.event.kind != EndEvent }

  /** The checkpoints and nodes of a stream. */
  function EventsOf(items: seq<Item>): seq<Event> {
    if items == [] then [] else
      var last := items[|items| - 1];
      EventsOf(items[..|items| - 1]) + (if Kept(last) then [last.event] else [])
  }

  predicate Ends(item: Item) { item.Stage? && item.event.kind == EndEvent }

  function ItemSize(item: Item): nat { if item.Stage? then EventSize(item.event) else PacketSize(item.packet) }

  function SizeOf(items: seq<Item>): nat {
    if items == [] then 0 else SizeOf(items[..|items| - 1]) + ItemSize(items[|items| - 1])
  }

  lemma LastReplaced(segments: seq<Segment>, s: Segment)
    requires segments != []
    ensures InputsIn(segments[|segments| - 1 := s]) == InputsIn(segments[..|segments| - 1]) + s.inputs
    ensures EventsIn(segments[|segments| - 1 := s]) == EventsIn(segments[..|segments| - 1]) + [s.checkpoint] + s.nodes
  {
    assert segments[|segments| - 1 := s][..|segments| - 1] == segments[..|segments| - 1];
  }

  lemma Appended(segments: seq<Segment>, s: Segment)
    ensures InputsIn(segments + [s]) == InputsIn(segments) + s.inputs
    ensures EventsIn(segments + [s]) == EventsIn(segments) + [s.checkpoint] + s.nodes
  {
    assert (segments + [s])[..|segments|] == segments;
  }

  lemma ItemIsStored(h: History, item: Item)
    requires Broadcast.Admits(h, item)
    ensures InputsIn(Added(h, item).segments)
      == InputsIn(h.segments) + (if item.Confirmed? then [item.packet] else [])
    ensures EventsIn(Added(h, item).segments) == EventsIn(h.segments) + (if Kept(item) then [item.event] else [])
  {
    if item.Confirmed? {
      LastReplaced(h.segments, h.Last().(inputs := h.Last().inputs + [item.packet]));
    } else if item.event.kind == CheckpointEvent {
      Appended(h.segments, Segment(item.event, [], [], false));
    } else {
      LastReplaced(h.segments, Added(h, item).Last());
    }
  }

  /** A history holds exactly what it took: its inputs are those of the stream, in order and unchanged, its
      checkpoints and nodes are those of the stream, it has ended exactly if an end was sent, and it has counted
      its frames and bytes. */
  lemma {:induction false} HistoryIsStream(items: seq<Item>)
    requires Collected(items).Some?
    ensures var h := Collected(items).value;
      && InputsIn(h.segments) == PacketsOf(items) && EventsIn(h.segments) == EventsOf(items)
      && h.ended == (exists i :: 0 <= i < |items| && Ends(items[i]))
      && h.frames == |PacketsOf(items)| && h.bytes == SizeOf(items)
  {
    if items != [] {
      var n := |items| - 1;
      HistoryIsStream(items[..n]);
      ItemIsStored(Collected(items[..n]).value, items[n]);
      assert forall i :: 0 <= i < n ==> items[..n][i] == items[i];
    }
  }

  // ---------------------------------------------------------------- which streams are in order

  /** The newest checkpoint of a stream that has one. */
  function NewestCheckpoint(items: seq<Item>): Event
    requires Picked(items, CheckpointEvent) != []
  {
    var checkpoints := Picked(items, CheckpointEvent);
    checkpoints[|checkpoints| - 1]
  }

  /** An event that continues the stream `before`: of the same session, not after the end, numbered later than all
      before, at the frame that all inputs before have led to. A node belongs to the newest checkpoint, and a
      checkpoint comes at a later frame than the one before it. */
  ghost predicate EventFits(before: seq<Item>, e: Event) {
    && e.Valid() && e.kind != BootstrapEvent
    && if before == [] then e.kind == CheckpointEvent else
      && before[0].Stage? && e.identity == before[0].event.identity
      && (forall j :: 0 <= j < |before| ==> !Ends(before[j]))
      && (forall j :: 0 <= j < |before| && before[j].Stage? ==> before[j].event.serial < e.serial)
      && e.frame == before[0].event.frame + |PacketsOf(before)|
      && Picked(before, CheckpointEvent) != []
      && (e.kind != CheckpointEvent ==> e.stage == NewestCheckpoint(before).stage)
      && (e.kind == CheckpointEvent ==> e.frame > NewestCheckpoint(before).frame)
      && (e.kind == NodeEvent ==> e.checkpoint == NewestCheckpoint(before).serial)
  }

  /** The inputs of the next frame of the same session, well-formed, after a checkpoint and not after the end. */
  ghost predicate PacketFits(before: seq<Item>, p: Packet) {
    && before != [] && before[0].Stage? && (forall j :: 0 <= j < |before| ==> !Ends(before[j]))
    && p.frame == before[0].event.frame + |PacketsOf(before)| && p.frame != INVALID_FRAME
    && var id := before[0].event.identity;
    && p.sessionId == id.sessionId && p.gameplayAbi == id.gameplayAbi && p.playerCount == id.playerCount
    && p.playerCount <= MAX_PLAYERS && InputsValid(p.inputs, p.playerCount)
  }

  ghost predicate Fits(before: seq<Item>, item: Item) {
    if item.Stage? then EventFits(before, item.event) else PacketFits(before, item.packet)
  }

  /** How a history stands to the stream it was made of. */
  lemma {:induction false} StandsFor(items: seq<Item>)
    requires Collected(items).Some? && items != []
    ensures var h := Collected(items).value;
      && h.segments != [] && items[0].Stage? && Picked(items, CheckpointEvent) != []
      && h.Last().checkpoint == NewestCheckpoint(items)
      && h.Last().checkpoint.identity == items[0].event.identity
      && h.segments[0].checkpoint.frame == items[0].event.frame
      && (exists j :: 0 <= j < |items| && items[j].Stage? && items[j].event.serial == h.serial)
  {
    var n := |items| - 1;
    var before := items[..n];
    if n > 0 {
      StandsFor(before);
      var j :| 0 <= j < |before| && before[j].Stage? && before[j].event.serial == Collected(before).value.serial;
      assert items[j] == before[j] && items[0] == before[0];
    }
    assert items[n].Stage? ==> items[n].event.serial == Collected(items).value.serial;
  }

  lemma AdmitsExactly(before: seq<Item>, item: Item)
    requires Collected(before).Some?
    ensures Broadcast.Admits(Collected(before).value, item) == Fits(before, item)
  {
    var h := Collected(before).value;
    if before == [] { return; }
    StandsFor(before);
    HistoryIsStream(before);
    InputsOnceInOrder(before);
    SerialsRise(before);
    var j :| 0 <= j < |before| && before[j].Stage? && before[j].event.serial == h.serial;
  }

  ghost predicate FitsAt(items: seq<Item>, i: nat)
    requires i < |items|
  {
    Fits(items[..i], items[i])
  }

  lemma FitsBefore(items: seq<Item>, n: nat, i: nat)
    requires i < n <= |items|
    ensures FitsAt(items[..n], i) == FitsAt(items, i)
  {
    assert items[..n][..i] == items[..i] && items[..n][i] == items[i];
  }

  lemma CollectsOne(items: seq<Item>)
    requires items != []
    ensures var n := |items| - 1;
      Collected(items).Some? == (Collected(items[..n]).Some? && FitsAt(items, n))
  {
    var before := items[..|items| - 1];
    if Collected(before).Some? { AdmitsExactly(before, items[|items| - 1]); }
  }

  /** A stream is in order exactly when each of its items fits what comes before it. */
  lemma {:induction false} InOrderExactly(items: seq<Item>)
    ensures Collected(items).Some? == forall i: nat :: i < |items| ==> FitsAt(items, i)
  {
    if items == [] { return; }
    var n := |items| - 1;
    InOrderExactly(items[..n]);
    CollectsOne(items);
    forall i: nat | i < n ensures FitsAt(items[..n], i) == FitsAt(items, i) { FitsBefore(items, n, i); }
  }

  // ---------------------------------------------------------------- where an input is stored

  lemma {:induction false} InputsCounted(segments: seq<Segment>)
    requires Chained(segments) && segments != []
    ensures segments[0].checkpoint.frame + |InputsIn(segments)| == segments[|segments| - 1].End()
  {
    var n := |segments| - 1;
    if n == 0 { assert InputsIn(segments[..0]) == []; } else {
      assert Follows(segments, n);
      Shorter(segments);
      InputsCounted(segments[..n]);
    }
  }

  lemma Shorter(segments: seq<Segment>)
    requires Chained(segments) && segments != []
    ensures Chained(segments[..|segments| - 1])
  {
    var before := segments[..|segments| - 1];
    forall i | 0 < i < |before| ensures Follows(before, i) { assert Follows(segments, i); }
  }

  /** An input of a segment is found in the stream at the distance of its frame from the first checkpoint. */
  lemma {:induction false} StoredAt(segments: seq<Segment>, i: nat, k: nat)
    requires Chained(segments) && i < |segments| && k < |segments[i].inputs|
    ensures 0 <= segments[i].checkpoint.frame + k - segments[0].checkpoint.frame < |InputsIn(segments)|
    ensures InputsIn(segments)[segments[i].checkpoint.frame + k - segments[0].checkpoint.frame] == segments[i].inputs[k]
  {
    var n := |segments| - 1;
    Shorter(segments);
    if i < n {
      StoredAt(segments[..n], i, k);
    } else if n == 0 {
      assert InputsIn(segments[..0]) == [];
    } else {
      assert Follows(segments, n);
      InputsCounted(segments[..n]);
    }
  }

  // ---------------------------------------------------------------- what a viewer of a publisher replays

  lemma {:induction false} CollectedOk(items: seq<Item>)
    requires Collected(items).Some?
    ensures HistoryOk(Collected(items).value)
  {
    if items != [] {
      var n := |items| - 1;
      CollectedOk(items[..n]);
      var h := Collected(items[..n]).value;
      if items[n].Stage? { EventKeeps(h, items[n].event); } else { InputKeeps(h, items[n].packet); }
    }
  }

  /** End to end: between any two calls of a publisher, every input that a viewer finds in what was sent, at
      whatever frame of whatever segment, is the input of that frame as it was shown. */
  lemma ViewerReplaysShown(p: Publisher, i: nat, k: nat)
    requires Good(p) && Collected(p.sent).Some?
    requires i < |Collected(p.sent).value.segments| && k < |Collected(p.sent).value.segments[i].inputs|
    ensures var s := Collected(p.sent).value.segments[i];
      var at := s.checkpoint.frame + k - p.first;
      && 0 <= at <= |p.shown|
      && (at < |p.shown| ==> s.inputs[k] == InputOf(p.id, p.shown[at]))
      && (at == |p.shown| ==> p.phase == 2 && s.inputs[k] == InputOf(p.id, p.current))
  {
    var h := Collected(p.sent).value;
    CollectedOk(p.sent);
    HistoryIsStream(p.sent);
    StoredAt(h.segments, i, k);
    SentFrames(p);
    InputsOnceInOrder(p.sent);
  }

  /** The packets sent are those of the frames shown and, if they have gone out, of the frame under way. */
  lemma SentFrames(p: Publisher)
    requires Good(p)
    ensures |PacketsOf(p.sent)| == |p.shown| + (if p.phase == 2 then 1 else 0)
    ensures forall k :: 0 <= k < |p.shown| ==>
      PacketsOf(p.sent)[k] == InputOf(p.id, p.shown[k]) && p.shown[k].frame == p.first + k
    ensures p.phase == 2 ==>
      PacketsOf(p.sent)[|p.shown|] == InputOf(p.id, p.current) && p.current.frame == p.first + |p.shown|
  {
    ExactlyOnce(p);
    if p.phase == 2 { FrameUnderWay(p); }
  }

  lemma FrameUnderWay(p: Publisher)
    requires Good(p) && p.phase == 2
    ensures |PacketsOf(p.sent)| == |p.shown| + 1 && PacketsOf(p.sent)[|p.shown|] == InputOf(p.id, p.current)
    ensures p.current.frame == p.first + |p.shown|
  {
    assert Folded(StreamMark, 0);
    var items, c, s := Render(p.id, p.first, p.shown), CursorAfter(p.shown), p.current;
    RenderedInputs(p.id, p.first, p.shown);
    OneInput(items, Opening(p.id, c, s), InputOf(p.id, s), []);
  }

  // ---------------------------------------------------------------- checkpoints and nodes of the frames shown

  /** The events of one kind in a stream. */
  function Picked(items: seq<Item>, kind: EventKind): seq<Event> {
    if items == [] then [] else
      var last := items[|items| - 1];
      Picked(items[..|items| - 1], kind) + (if last.Stage? && last.event.kind == kind then [last.event] else [])
  }

  lemma {:induction false} PickedBoth(a: seq<Item>, b: seq<Item>, kind: EventKind)
    ensures Picked(a + b, kind) == Picked(a, kind) + Picked(b, kind)
  {
    if b == [] {
      assert a + b == a;
    } else {
      assert (a + b)[..|a + b| - 1] == a + b[..|b| - 1];
      PickedBoth(a, b[..|b| - 1], kind);
    }
  }

  lemma PickedOne(item: Item, kind: EventKind)
    ensures Picked([item], kind) == if item.Stage? && item.event.kind == kind then [item.event] else []
  {
    assert [item][..0] == [];
  }

  /** The frames that begin with a checkpoint, and those with a boss. */
  function Begins(shown: seq<Shown>): seq<Shown> {
    if shown == [] then [] else
      var last := shown[|shown| - 1];
      Begins(shown[..|shown| - 1]) + (if last.initializer != [] then [last] else [])
  }

  function Bosses(shown: seq<Shown>): seq<Shown> {
    if shown == [] then [] else
      var last := shown[|shown| - 1];
      Bosses(shown[..|shown| - 1]) + (if last.bossSlots != 0 then [last] else [])
  }

  /** The event is the checkpoint of the frame: its stage, its schema and its initializer, at its number. */
  predicate IsStartOf(e: Event, id: Identity, s: Shown) {
    && e.kind == CheckpointEvent && e.identity == id && e.frame == s.frame && e.stage == s.stage
    && e.schema == s.schema && e.state == s.initializer
  }

  /** The event marks the bosses of the frame, right after it. */
  predicate IsMarkOf(e: Event, id: Identity, s: Shown) {
    && e.kind == NodeEvent && e.identity == id && e.frame == s.frame + 1 && e.node == BossNode
    && e.bossSlots == s.bossSlots
  }

  predicate Starts(events: seq<Event>, id: Identity, shown: seq<Shown>) {
    |events| == |shown| && forall k :: 0 <= k < |shown| ==> IsStartOf(events[k], id, shown[k])
  }

  predicate Marks(events: seq<Event>, id: Identity, shown: seq<Shown>) {
    |events| == |shown| && forall k :: 0 <= k < |shown| ==> IsMarkOf(events[k], id, shown[k])
  }

  lemma OpeningPicked(id: Identity, c: Cursor, s: Shown)
    requires Opens(c, s)
    ensures Starts(Picked(Opening(id, c, s), CheckpointEvent), id, if s.initializer != [] then [s] else [])
    ensures Picked(Opening(id, c, s), NodeEvent) == []
  {
    if s.initializer != [] {
      PickedOne(Stage(CheckpointOf(id, c, s)), CheckpointEvent);
      PickedOne(Stage(CheckpointOf(id, c, s)), NodeEvent);
    }
  }

  lemma ClosingPicked(id: Identity, c: Cursor, s: Shown)
    requires Closes(id, c, s) && c.checkpoint < WORD_LIMIT && c.stage < WORD_LIMIT
    ensures Picked(Closing(id, c, s), CheckpointEvent) == []
    ensures Marks(Picked(Closing(id, c, s), NodeEvent), id, if s.bossSlots != 0 then [s] else [])
  {
    if s.bossSlots != 0 {
      PickedOne(Stage(NodeOf(id, c, s)), CheckpointEvent);
      PickedOne(Stage(NodeOf(id, c, s)), NodeEvent);
    }
  }

  lemma FramePicked(items: seq<Item>, opening: seq<Item>, p: Packet, closing: seq<Item>, kind: EventKind)
    ensures Picked(items + opening + [Confirmed(p)], kind) == Picked(items, kind) + Picked(opening, kind)
    ensures Picked(items + opening + [Confirmed(p)] + closing, kind)
         == Picked(items, kind) + Picked(opening, kind) + Picked(closing, kind)
  {
    PickedBoth(items, opening, kind);
    PickedBoth(items + opening, [Confirmed(p)], kind);
    PickedOne(Confirmed(p), kind);
    PickedBoth(items + opening + [Confirmed(p)], closing, kind);
  }

  lemma StartsJoin(a: seq<Event>, x: seq<Shown>, b: seq<Event>, y: seq<Shown>, id: Identity)
    requires Starts(a, id, x) && Starts(b, id, y)
    ensures Starts(a + b, id, x + y)
  {}

  lemma MarksJoin(a: seq<Event>, x: seq<Shown>, b: seq<Event>, y: seq<Shown>, id: Identity)
    requires Marks(a, id, x) && Marks(b, id, y)
    ensures Marks(a + b, id, x + y)
  {}

  lemma FrameStarts(items: seq<Item>, id: Identity, c: Cursor, s: Shown, closing: seq<Item>, begins: seq<Shown>)
    requires Opens(c, s) && Starts(Picked(items, CheckpointEvent), id, begins)
      && Picked(closing, CheckpointEvent) == []
    ensures var after := begins + if s.initializer != [] then [s] else [];
      && Starts(Picked(items + Opening(id, c, s), CheckpointEvent), id, after)
      && Starts(Picked(items + Opening(id, c, s) + [Confirmed(InputOf(id, s))], CheckpointEvent), id, after)
      && Starts(Picked(items + Opening(id, c, s) + [Confirmed(InputOf(id, s))] + closing, CheckpointEvent), id, after)
  {
    var opening := Opening(id, c, s);
    OpeningPicked(id, c, s);
    StartsJoin(Picked(items, CheckpointEvent), begins, Picked(opening, CheckpointEvent),
        if s.initializer != [] then [s] else [], id);
    PickedBoth(items, opening, CheckpointEvent);
    FramePicked(items, opening, InputOf(id, s), closing, CheckpointEvent);
    assert Picked(items, CheckpointEvent) + Picked(opening, CheckpointEvent) + []
        == Picked(items, CheckpointEvent) + Picked(opening, CheckpointEvent);
  }

  lemma FrameMarks(items: seq<Item>, id: Identity, opening: seq<Item>, p: Packet, c: Cursor, s: Shown,
      bosses: seq<Shown>)
    requires Closes(id, c, s) && c.checkpoint < WORD_LIMIT && c.stage < WORD_LIMIT
    requires Marks(Picked(items, NodeEvent), id, bosses) && Picked(opening, NodeEvent) == []
    ensures Marks(Picked(items + opening + [Confirmed(p)] + Closing(id, c, s), NodeEvent), id,
                  bosses + if s.bossSlots != 0 then [s] else [])
  {
    ClosingPicked(id, c, s);
    MarksJoin(Picked(items, NodeEvent), bosses, Picked(Closing(id, c, s), NodeEvent),
        if s.bossSlots != 0 then [s] else [], id);
    FramePicked(items, opening, p, Closing(id, c, s), NodeEvent);
    assert Picked(items, NodeEvent) + [] == Picked(items, NodeEvent);
  }

  /** The checkpoints of a rendered stream are those of the frames that begin with one, in order. */
  lemma {:induction false} RenderedStarts(id: Identity, first: nat, shown: seq<Shown>)
    requires Publishable(id, first, shown)
    ensures Starts(Picked(Render(id, first, shown), CheckpointEvent), id, Begins(shown))
  {
    if shown == [] { return; }
    var n := |shown| - 1;
    var c, s := CursorAfter(shown[..n]), shown[n];
    CursorBounds(id, first, shown[..n]);
    RenderedStarts(id, first, shown[..n]);
    ClosingPicked(id, Opened(c, s), s);
    FrameStarts(Render(id, first, shown[..n]), id, c, s, Closing(id, Opened(c, s), s), Begins(shown[..n]));
  }

  /** Its marks are those of the frames with bosses, in order. */
  lemma {:induction false} RenderedMarks(id: Identity, first: nat, shown: seq<Shown>)
    requires Publishable(id, first, shown)
    ensures Marks(Picked(Render(id, first, shown), NodeEvent), id, Bosses(shown))
  {
    if shown == [] { return; }
    var n := |shown| - 1;
    var c, s := CursorAfter(shown[..n]), shown[n];
    CursorBounds(id, first, shown[..n]);
    RenderedMarks(id, first, shown[..n]);
    OpeningPicked(id, c, s);
    FrameMarks(Render(id, first, shown[..n]), id, Opening(id, c, s), InputOf(id, s), Opened(c, s), s,
        Bosses(shown[..n]));
  }

  /** Between any two calls of a publisher, the k-th checkpoint sent is that of the k-th frame, shown or under way,
      that has one. */
  lemma SentCheckpoints(p: Publisher)
    requires Good(p)
    ensures Starts(Picked(p.sent, CheckpointEvent), p.id, Begins(p.shown + if p.phase == 0 then [] else [p.current]))
  {
    assert Folded(StreamMark, 0);
    var items, c, s := Render(p.id, p.first, p.shown), CursorAfter(p.shown), p.current;
    RenderedStarts(p.id, p.first, p.shown);
    if p.phase == 0 {
      assert p.shown + [] == p.shown;
      if p.ended { EndPicked(items, p.id, c, p.next); }
    } else {
      assert (p.shown + [s])[..|p.shown|] == p.shown;
      FrameStarts(items, p.id, c, s, [], Begins(p.shown));
    }
  }

  /** And the k-th mark is that of the k-th frame shown that has bosses. */
  lemma SentMarks(p: Publisher)
    requires Good(p)
    ensures Marks(Picked(p.sent, NodeEvent), p.id, Bosses(p.shown))
  {
    assert Folded(StreamMark, 0);
    var items, c, s := Render(p.id, p.first, p.shown), CursorAfter(p.shown), p.current;
    RenderedMarks(p.id, p.first, p.shown);
    if p.phase == 0 {
      if p.ended { EndPicked(items, p.id, c, p.next); }
    } else {
      OpeningPicked(p.id, c, s);
      PickedBoth(items, Opening(p.id, c, s), NodeEvent);
      FramePicked(items, Opening(p.id, c, s), InputOf(p.id, s), [], NodeEvent);
      assert Picked(items, NodeEvent) + [] == Picked(items, NodeEvent);
    }
  }

  lemma EndPicked(items: seq<Item>, id: Identity, c: Cursor, next: Word)
    requires c.serial + 1 < WORD_LIMIT && c.stage < WORD_LIMIT
    ensures Picked(items + [Stage(EndOf(id, c, next))], CheckpointEvent) == Picked(items, CheckpointEvent)
    ensures Picked(items + [Stage(EndOf(id, c, next))], NodeEvent) == Picked(items, NodeEvent)
  {
    var end := Stage(EndOf(id, c, next));
    PickedBoth(items, [end], CheckpointEvent);
    PickedBoth(items, [end], NodeEvent);
    PickedOne(end, CheckpointEvent);
    PickedOne(end, NodeEvent);
  }
}
