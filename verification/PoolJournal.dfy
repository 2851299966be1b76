/** Undo checkpoints of a fixed pool of items split into parts. The ghost field `snapshots` remembers the
    whole pool at the start of every retained checkpoint. */
module PoolJournals {
  import opened Folding
  import opened Memory
  import opened PoolRecord
  import opened PoolState
  import JournalState
  import Ring

  datatype Journal = Journal(layout: Layout, records: seq<Record>, head: nat, count: nat, open: bool, failed: bool,
      configured: bool)
  {
    predicate RingOk() {
      count <= |records| && (records != [] ==> head < |records|)
    }

    function Records(): (rs: seq<Record>)
      requires RingOk()
      ensures |rs| == count
    {
      if records == [] then [] else Ring.View(records, head, count)
    }

    function Newest(): Record
      requires RingOk() && count > 0
    {
      records[Ring.Slot(head + count - 1, |records|)]
    }

    function WithNewest(r: Record): Journal
      requires RingOk() && count > 0
    {
      this.(records := records[Ring.Slot(head + count - 1, |records|) := r])
    }
  }

  predicate Basic(j: Journal) {
    && j.RingOk() && (j.configured <==> j.records != []) && (j.open ==> j.configured && j.count > 0)
    && (j.configured ==> j.layout.Exhaustive())
  }

  /** The stored parts suffice to return to every snapshot. */
  ghost predicate Held(j: Journal, snapshots: seq<Image>, pool: Image) {
    forall u: int :: Folded(StateMark, u) ==>
      && j.RingOk() && (j.configured ==> j.layout.parts != [] && |pool| == Start(j.layout, j.layout.Keys()))
      && Chain(j.layout, j.Records(), snapshots + [pool])
  }

  lemma Release(j: Journal, snapshots: seq<Image>, pool: Image)
    requires Held(j, snapshots, pool)
    ensures j.RingOk() && (j.configured ==> j.layout.parts != [] && |pool| == Start(j.layout, j.layout.Keys()))
    ensures |snapshots| == j.count && Chain(j.layout, j.Records(), snapshots + [pool])
  {
    assert Folded(StateMark, 0);
  }

  lemma NewestIsLast(j: Journal, r: Record)
    requires j.RingOk() && j.count > 0
    ensures j.Newest() == j.Records()[j.count - 1] && j.WithNewest(r).Newest() == r
    ensures j.WithNewest(r).Records() == j.Records()[..j.count - 1] + [r]
  {
    Ring.SetBack(j.records, j.head, j.count, r);
  }

  /** A journal without checkpoints promises nothing yet. */
  lemma ConfiguredHeld(j: Journal, pool: Image)
    requires j.layout.Exhaustive() && j.records != [] && j.head == 0 && j.count == 0 && j.configured && !j.open
    requires |pool| == j.layout.count * j.layout.itemSize
    ensures Basic(j) && Held(j, [], pool)
  {
    PoolEnd(j.layout);
    assert j.Records() == [] && [] + [pool] == [pool];
  }

  // ---------------------------------------------------------------- beginning

  function EmptyRecord(l: Layout, frame: nat, bytes: Image): (r: Record)
    ensures |r.offsets| == l.Keys() && forall k :: 0 <= k < |r.offsets| ==> r.offsets[k] == MISSING
  {
    Record(frame, frame, seq(l.Keys(), _ => MISSING), [], bytes, 0)
  }

  predicate MayBegin(j: Journal, frame: nat, extend: bool)
    requires j.RingOk()
  {
    && j.configured && !j.open && !j.failed
    && (if extend then j.count > 0 && j.Newest().last != MAX_FRAME && frame == j.Newest().last + 1
        else j.count > 0 ==> j.Newest().last < frame)
  }

  function Displaced(j: Journal): nat { if j.count == |j.records| then 1 else 0 }

  function Started(j: Journal, frame: nat): Journal
    requires j.RingOk() && j.records != []
  {
    var full := j.count == |j.records|;
    var slot := if full then j.head else Ring.Slot(j.head + j.count, |j.records|);
    j.(records := j.records[slot := EmptyRecord(j.layout, frame, j.records[slot].bytes)],
       head := if full then Ring.Slot(j.head + 1, |j.records|) else j.head,
       count := if full then j.count else j.count + 1, open := true)
  }

  function Begun(j: Journal, frame: nat, extend: bool): Journal
    requires Basic(j)
  {
    if !j.configured || j.open || j.failed then j
    else if !MayBegin(j, frame, extend) then j.(failed := true)
    else if extend then j.WithNewest(j.Newest().(last := frame)).(open := true)
    else Started(j, frame)
  }

  function SnapshotsBegun(j: Journal, snapshots: seq<Image>, pool: Image, frame: nat, extend: bool): seq<Image>
    requires j.RingOk()
  {
    if !extend && MayBegin(j, frame, extend) && Displaced(j) <= |snapshots| then snapshots[Displaced(j)..] + [pool]
    else snapshots
  }

  lemma StartedRecords(j: Journal, frame: nat)
    requires j.RingOk() && j.records != []
    ensures Started(j, frame).RingOk() && Started(j, frame).count > 0
    ensures var r := Started(j, frame).Newest();
      r == EmptyRecord(j.layout, frame, r.bytes) && Started(j, frame).Records() == j.Records()[Displaced(j)..] + [r]
  {
    var slot := if j.count == |j.records| then j.head else Ring.Slot(j.head + j.count, |j.records|);
    var r := EmptyRecord(j.layout, frame, j.records[slot].bytes);
    var s := Started(j, frame);
    Ring.Renew(j.records, j.head, j.count, r, s.records, s.head, s.count);
  }

  lemma StartedChain(l: Layout, rs: seq<Record>, snapshots: seq<Image>, pool: Image, r: Record, displaced: nat)
    requires Chain(l, rs, snapshots + [pool]) && displaced <= |rs| && l.parts != [] && |pool| == Start(l, l.Keys())
    requires r == EmptyRecord(l, r.first, r.bytes) && (rs != [] ==> rs[|rs| - 1].last < r.first)
    ensures |snapshots| == |rs| && Chain(l, rs[displaced..] + [r], snapshots[displaced..] + [pool] + [pool])
  {
    ChainDrops(l, rs, snapshots + [pool], displaced);
    assert (snapshots + [pool])[displaced..] == snapshots[displaced..] + [pool];
    FreshUndoes(l, r, pool);
    ChainBegins(l, rs[displaced..], snapshots[displaced..] + [pool], r);
  }

  lemma BeginKeeps(j: Journal, snapshots: seq<Image>, pool: Image, frame: nat, extend: bool)
    requires Basic(j) && Held(j, snapshots, pool)
    ensures Held(Begun(j, frame, extend), SnapshotsBegun(j, snapshots, pool, frame, extend), pool)
  {
    Release(j, snapshots, pool);
    var b := Begun(j, frame, extend);
    if MayBegin(j, frame, extend) {
      if extend { ExtendKeeps(j, snapshots, pool, frame); } else { StartKeeps(j, snapshots, pool, frame); }
    } else {
      assert b.Records() == j.Records();
    }
  }

  lemma ExtendKeeps(j: Journal, snapshots: seq<Image>, pool: Image, frame: nat)
    requires Basic(j) && Held(j, snapshots, pool) && MayBegin(j, frame, true)
    ensures Held(Begun(j, frame, true), snapshots, pool)
  {
    NewestUndoes(j, snapshots, pool);
    ExtendUndoes(j.layout, j.Newest(), snapshots[j.count - 1], pool, frame);
    ReplaceNewest(j, snapshots, pool, j.Newest().(last := frame), pool, true);
  }

  /** Exactly when a checkpoint can begin: a new one at any frame after all that are retained, an extension only at
      the very next frame of the newest; any other frame fails the journal. */
  lemma BeginsExactly(j: Journal, snapshots: seq<Image>, pool: Image, frame: nat, extend: bool)
    requires Basic(j) && Held(j, snapshots, pool) && j.configured && !j.open && !j.failed && frame <= MAX_FRAME
    ensures var rs := j.Records();
      MayBegin(j, frame, extend)
      == if extend then rs != [] && frame == rs[|rs| - 1].last + 1 else forall i :: 0 <= i < |rs| ==> rs[i].last < frame
    ensures Begun(j, frame, extend).failed == !MayBegin(j, frame, extend)
    ensures MayBegin(j, frame, extend) ==> Begun(j, frame, extend).open
  {
    Release(j, snapshots, pool);
    if j.count > 0 {
      NewestIsLast(j, j.Newest());
      FramesAscend(j.layout, j.Records(), snapshots + [pool], 0);
    }
  }

  lemma {:induction false} FramesAscend(l: Layout, rs: seq<Record>, history: seq<Image>, i: nat)
    requires Chain(l, rs, history) && i < |rs|
    ensures forall k :: i <= k < |rs| ==> rs[k].last <= rs[|rs| - 1].last
    decreases |rs| - i
  {
    if i + 1 < |rs| {
      FramesAscend(l, rs, history, i + 1);
      assert rs[i + 1 - 1].last < rs[i + 1].first <= rs[i + 1].last;
    }
  }

  lemma NewestUndoes(j: Journal, snapshots: seq<Image>, pool: Image)
    requires Basic(j) && Held(j, snapshots, pool) && j.count > 0
    ensures |snapshots| == j.count && Undoes(j.layout, j.Newest(), snapshots[j.count - 1], pool)
  {
    Release(j, snapshots, pool);
    NewestIsLast(j, j.Newest());
    var history := snapshots + [pool];
    assert history[j.count - 1] == snapshots[j.count - 1] && history[j.count] == pool;
  }

  /** Replacing the newest checkpoint by one that undoes as well. */
  lemma ReplaceNewest(j: Journal, snapshots: seq<Image>, pool: Image, r: Record, pool': Image, open: bool)
    requires Basic(j) && Held(j, snapshots, pool) && j.count > 0 && |pool'| == |pool|
    requires r.first == j.Newest().first && j.Newest().last <= r.last
    requires |snapshots| == j.count && Undoes(j.layout, r, snapshots[j.count - 1], pool')
    ensures Held(j.WithNewest(r).(open := open), snapshots, pool')
  {
    Release(j, snapshots, pool);
    NewestIsLast(j, r);
    var history := snapshots + [pool];
    assert history[j.count - 1] == snapshots[j.count - 1] && history[..j.count] == snapshots;
    ChainSetLast(j.layout, j.Records(), history, r, pool');
    assert j.WithNewest(r).(open := open).Records() == j.WithNewest(r).Records();
  }

  lemma StartKeeps(j: Journal, snapshots: seq<Image>, pool: Image, frame: nat)
    requires Basic(j) && Held(j, snapshots, pool) && MayBegin(j, frame, false)
    ensures Displaced(j) <= |snapshots| && Held(Started(j, frame), snapshots[Displaced(j)..] + [pool], pool)
  {
    Release(j, snapshots, pool);
    StartedRecords(j, frame);
    if j.count > 0 { NewestIsLast(j, j.Newest()); }
    StartedChain(j.layout, j.Records(), snapshots, pool, Started(j, frame).Newest(), Displaced(j));
  }

  // ---------------------------------------------------------------- touching

  /** The newest checkpoint has saved these keys too. */
  ghost predicate SavedToo(j: Journal, j': Journal, keys: seq<nat>)
    requires Basic(j)
  {
    && j.count > 0 && j'.RingOk() && j'.count > 0 && j' == j.WithNewest(j'.Newest()) && j.layout.parts != []
    && KeysOk(j.layout, keys)
    && |j.Newest().offsets| == j.layout.Keys()
    && j'.Newest() == PlanKeys(j.layout, j.Newest(), keys).record.(bytes := j'.Newest().bytes)
  }

  /** After an accepted touch exactly the keys saved before and the wanted ones are saved. */
  lemma SavedExactly(j: Journal, j': Journal, keys: seq<nat>, key: nat)
    requires Basic(j) && SavedToo(j, j', keys) && key < j.layout.Keys()
    ensures j'.Newest().Has(key) <==> j.Newest().Has(key) || key in keys
  {
    PlanHas(j.layout, j.Newest(), keys, key);
  }

  lemma NewestShape(j: Journal, snapshots: seq<Image>, pool: Image)
    requires Basic(j) && Held(j, snapshots, pool) && j.count > 0
    ensures j.layout.parts != [] && |j.Newest().offsets| == j.layout.Keys() && j.Newest().used <= |j.Newest().bytes|
    ensures j.Newest().used == Saved(j.layout, j.Newest(), j.layout.Keys())
  {
    NewestUndoes(j, snapshots, pool);
    Opened(j.layout, j.Newest(), snapshots[j.count - 1], pool);
  }

  /** Copying the planned parts into an arena that starts with the stored bytes keeps every promise. */
  lemma TouchHeld(j: Journal, snapshots: seq<Image>, pool: Image, keys: seq<nat>, arena: Image)
    requires Basic(j) && Held(j, snapshots, pool) && j.open && j.layout.parts != [] && KeysOk(j.layout, keys)
    requires |j.Newest().offsets| == j.layout.Keys() && j.Newest().used <= |j.Newest().bytes| <= |arena|
    requires arena[..j.Newest().used] == j.Newest().bytes[..j.Newest().used]
    requires PlanKeys(j.layout, j.Newest(), keys).record.used <= |arena|
    ensures var p := PlanKeys(j.layout, j.Newest(), keys);
      && PlanFits(p.plan, |arena|, |pool|)
      && Held(j.WithNewest(p.record.(bytes := Executed(arena, pool, p.plan))), snapshots, pool)
  {
    var l, r := j.layout, j.Newest();
    NewestUndoes(j, snapshots, pool);
    GrowKeeps(l, r, snapshots[j.count - 1], pool, arena);
    PlanKeeps(l, r, keys, snapshots[j.count - 1], pool, arena);
    var p := PlanKeys(l, r, keys);
    PlanFrames(l, r, keys);
    ReplaceNewest(j, snapshots, pool, p.record.(bytes := Executed(arena, pool, p.plan)), pool, true);
  }

  lemma {:induction false} PlanFrames(l: Layout, r: Record, keys: seq<nat>)
    requires l.parts != [] && KeysOk(l, keys) && |r.offsets| == l.Keys()
    ensures PlanKeys(l, r, keys).record.first == r.first && PlanKeys(l, r, keys).record.last == r.last
  {
    if keys != [] { PlanFrames(l, r, keys[..|keys| - 1]); }
  }

  /** The program writes only parts the newest checkpoint has saved. */
  ghost predicate MayWrite(j: Journal, a: nat)
    requires Basic(j)
  {
    j.count > 0 ==> j.layout.parts != [] && exists key: nat :: SavedAt(j.layout, j.Newest(), key, a)
  }

  ghost predicate SavedAt(l: Layout, r: Record, key: nat, a: nat)
    requires l.parts != []
  {
    key < l.Keys() && key < |r.offsets| && r.Has(key) && Start(l, key) <= a < Start(l, key) + Size(l, key)
  }

  lemma WriteHeld(j: Journal, snapshots: seq<Image>, pool: Image, a: nat, v: bv8)
    requires Basic(j) && Held(j, snapshots, pool) && a < |pool| && MayWrite(j, a)
    ensures Held(j, snapshots, pool[a := v])
  {
    Release(j, snapshots, pool);
    if j.count > 0 {
      NewestUndoes(j, snapshots, pool);
      var key: nat :| SavedAt(j.layout, j.Newest(), key, a);
      WriteUndoes(j.layout, j.Newest(), snapshots[j.count - 1], pool, key, a, pool[a := v]);
      ReplaceNewest(j, snapshots, pool, j.Newest(), pool[a := v], j.open);
      assert j.WithNewest(j.Newest()).(open := j.open) == j;
    }
  }

  // ---------------------------------------------------------------- undo and discard

  /** Everything an undo works from. */
  ghost predicate Undoable(l: Layout, records: seq<Record>, head: nat, rs: seq<Record>, history: seq<Image>) {
    forall u: int :: Folded(UndoMark, u) ==>
      && l.Exhaustive() && |rs| <= |records| && head < |records| && Chain(l, rs, history)
      && forall i :: 0 <= i < |rs| ==> rs[i] == records[Ring.Slot(head + i, |records|)]
  }

  lemma UndoableAt(l: Layout, records: seq<Record>, head: nat, rs: seq<Record>, history: seq<Image>, i: nat)
    requires Undoable(l, records, head, rs, history) && i < |rs|
    ensures head < |records| && |rs| <= |records| && |history| == |rs| + 1
      && rs[i] == records[Ring.Slot(head + i, |records|)]
    ensures Undoes(l, rs[i], history[i], history[i + 1]) && |history[i + 1]| == |history[|rs|]|
    ensures RecordOk(l, rs[i], |history[|rs|]|) && |rs[i].offsets| == l.Keys()
  {
    assert Folded(UndoMark, 0);
    ChainRestorable(l, rs, history);
    Opened(l, rs[i], history[i], history[i + 1]);
  }

  lemma StepUndo(l: Layout, records: seq<Record>, head: nat, rs: seq<Record>, history: seq<Image>, t: nat, i: nat,
      covered: seq<bool>, pool: Image)
    requires Undoable(l, records, head, rs, history) && t <= i < |rs| && |history| == |rs| + 1
      && OldestFirst(l, history, t, i, covered, pool)
    ensures Restorable(l, rs[i], |pool|) && |covered| == |rs[i].offsets| && |pool| == |history[i + 1]|
    ensures OldestFirst(l, history, t, i + 1, CoveredBy(rs[i], covered),
                        Restored(l, pool, rs[i], covered, |rs[i].keys|))
    ensures Sizes(rs[..i + 1]) == Sizes(rs[..i]) + rs[i].used
  {
    assert Folded(UndoMark, 0);
    UndoesRestorable(l, rs[i], history[i], history[i + 1]);
    ChainRestorable(l, rs, history);
    OldestFirstStep(l, rs, history, t, i, covered, CoveredBy(rs[i], covered), pool);
    Remaining(rs, i);
  }

  lemma UndoBegins(l: Layout, records: seq<Record>, head: nat, rs: seq<Record>, history: seq<Image>, t: nat,
      covered: seq<bool>)
    requires Undoable(l, records, head, rs, history) && t < |rs| && |history| == |rs| + 1 && |covered| == l.Keys()
    requires forall k :: 0 <= k < |covered| ==> !covered[k]
    ensures OldestFirst(l, history, t, t, covered, history[|rs|])
  {
    assert Folded(UndoMark, 0);
    OldestFirstStarts(l, rs, history, t, covered);
  }

  lemma UndoFinishes(l: Layout, records: seq<Record>, head: nat, rs: seq<Record>, history: seq<Image>, t: nat,
      covered: seq<bool>, pool: Image)
    requires Undoable(l, records, head, rs, history) && t < |rs| && |history| == |rs| + 1
    requires OldestFirst(l, history, t, |rs|, covered, pool)
    ensures pool == history[t] && rs[..|rs|] == rs
  {
    assert Folded(UndoMark, 0);
    OldestFirstEnds(l, rs, history, t, covered, pool);
  }

  lemma UndoHeld(j: Journal, snapshots: seq<Image>, pool: Image, t: nat)
    requires Basic(j) && Held(j, snapshots, pool) && t < j.count
    ensures t < |snapshots| && Held(j.(count := t), snapshots[..t], snapshots[t])
    ensures j.(count := t).Records() == j.Records()[..t]
  {
    Release(j, snapshots, pool);
    var history := snapshots + [pool];
    ChainTakes(j.layout, j.Records(), history, t);
    assert history[..t + 1] == snapshots[..t] + [snapshots[t]];
    Ring.Take(j.records, j.head, j.count, t);
    ChainRestorable(j.layout, j.Records(), history);
    assert history[t] == snapshots[t];
  }

  /** What an undo to checkpoint `t` is to arrive at, from the records `rs` and the moments `history`. */
  lemma UndoTarget(j: Journal, snapshots: seq<Image>, pool: Image, t: nat, l: Layout, rs: seq<Record>,
      history: seq<Image>)
    requires Basic(j) && Held(j, snapshots, pool) && j.configured && t < j.count
    requires l == j.layout && rs == j.Records() && history == snapshots + [pool]
    ensures |snapshots| == j.count && history[|rs|] == pool && Undoable(l, j.records, j.head, rs, history)
    ensures history[t] == snapshots[t] && AllRestorable(l, rs, |pool|) && NewestFirst(l, rs, t, pool) == snapshots[t]
    ensures Held(j.(count := t), snapshots[..t], snapshots[t]) && j.(count := t).Records() == rs[..t]
  {
    Release(j, snapshots, pool);
    ChainRestorable(l, rs, history);
    NewestFirstUndoes(l, rs, history, t);
    UndoHeld(j, snapshots, pool, t);
  }

  function Sizes(rs: seq<Record>): nat {
    if rs == [] then 0 else Sizes(rs[..|rs| - 1]) + rs[|rs| - 1].used
  }

  /** How many of the oldest checkpoints ended before `frame`. */
  function Stale(rs: seq<Record>, frame: nat): (k: nat)
    ensures k <= |rs| && forall i :: 0 <= i < k ==> rs[i].last < frame
    ensures k < |rs| ==> frame <= rs[k].last
  {
    if rs == [] || rs[0].last >= frame then 0
    else
      var k := Stale(rs[1..], frame) + 1;
      assert forall i :: 1 <= i < k ==> rs[i] == rs[1..][i - 1];
      k
  }

  function Dropped(j: Journal, k: nat): Journal
    requires Basic(j) && k <= j.count
  {
    if j.records == [] then j else j.(head := Ring.Slot(j.head + k, |j.records|), count := j.count - k)
  }

  lemma DroppedRecords(j: Journal, k: nat)
    requires Basic(j) && k <= j.count
    ensures Dropped(j, k).RingOk() && Dropped(j, k).Records() == j.Records()[k..]
  {
    if j.records != [] { Ring.Drop(j.records, j.head, j.count, k); }
  }

  lemma DropHeld(j: Journal, snapshots: seq<Image>, pool: Image, k: nat)
    requires Basic(j) && Held(j, snapshots, pool) && k <= j.count
    ensures k <= |snapshots| && Held(Dropped(j, k), snapshots[k..], pool)
  {
    Release(j, snapshots, pool);
    DroppedRecords(j, k);
    ChainDrops(j.layout, j.Records(), snapshots + [pool], k);
    assert (snapshots + [pool])[k..] == snapshots[k..] + [pool];
  }

  lemma StaleAt(rs: seq<Record>, k: nat, frame: nat)
    requires k < |rs|
    ensures k <= Stale(rs, frame) && rs[k].last < frame ==> k < Stale(rs, frame)
  {
    var n := Stale(rs, frame);
    if k == n { assert frame <= rs[n].last; }
  }

  lemma StaleStep(j: Journal, k: nat, frame: nat)
    requires j.RingOk() && k < j.count
    ensures j.Records()[k] == j.records[Ring.Slot(j.head + k, |j.records|)]
    ensures k <= Stale(j.Records(), frame) && j.Records()[k].last < frame ==> k < Stale(j.Records(), frame)
  {
    StaleAt(j.Records(), k, frame);
  }

  lemma OpenHeld(j: Journal, snapshots: seq<Image>, pool: Image, open: bool)
    requires Held(j, snapshots, pool)
    ensures Held(j.(open := open), snapshots, pool) && Held(j.(failed := true), snapshots, pool)
  {
    Release(j, snapshots, pool);
    assert j.(open := open).Records() == j.Records() && j.(failed := true).Records() == j.Records();
  }

  /** In a layout that fills an item, every part ends inside it. */
  lemma {:induction false} PartsEnd(l: Layout, i: nat)
    requires l.Exhaustive() && i < |l.parts|
    ensures l.parts[i].offset + l.parts[i].size <= l.itemSize
    decreases |l.parts| - i
  {
    if i < |l.parts| - 1 { PartsEnd(l, i + 1); }
  }

  lemma NextPrefix<T>(s: seq<T>, i: nat)
    requires i < |s|
    ensures s[..i + 1] == s[..i] + [s[i]]
  {}

  predicate MaskOk(mask: set<nat>, parts: nat) { forall i :: i in mask ==> i < parts }

  predicate MasksOk(masks: seq<set<nat>>, parts: nat) { forall s :: 0 <= s < |masks| ==> MaskOk(masks[s], parts) }

  lemma WantedNext(l: Layout, earlier: seq<nat>, slot: nat, mask: set<nat>, i: nat, keys: seq<nat>, key: nat)
    requires i < |l.parts| && key == KeyOf(l, slot, i) && keys == earlier + WantedParts(l, slot, mask, i)
    ensures earlier + WantedParts(l, slot, mask, i + 1) == if i in mask then keys + [key] else keys
  {
    var parts := WantedParts(l, slot, mask, i);
    assert earlier + (parts + [key]) == keys + [key] && parts + [] == parts;
  }

  /** Planning one more key, if it is wanted. */
  lemma PlanNext(l: Layout, first: Record, keys: seq<nat>, key: nat, wanted: bool)
    requires l.parts != [] && |first.offsets| == l.Keys() && KeysOk(l, keys) && key < l.Keys()
    ensures var more := if wanted then keys + [key] else keys;
      && KeysOk(l, more)
      && PlanKeys(l, first, more) ==
         if wanted then PlanKey(l, PlanKeys(l, first, keys), key) else PlanKeys(l, first, keys)
  {
    assert (keys + [key])[..|keys|] == keys;
  }

  function CoveredBy(r: Record, covered: seq<bool>): (c: seq<bool>)
    requires |covered| == |r.offsets|
    ensures |c| == |covered| && Covers(r, covered, c)
  {
    seq(|covered|, k requires 0 <= k < |covered| => covered[k] || r.Has(k))
  }

  lemma Remaining(rs: seq<Record>, i: nat)
    requires i < |rs|
    ensures Sizes(rs[..i + 1]) == Sizes(rs[..i]) + rs[i].used
  {
    assert rs[..i + 1][..i] == rs[..i];
  }

  /** The code's item and part of a key. */
  lemma PartOfKey(l: Layout, key: nat)
    requires l.Exhaustive()
    ensures key % |l.parts| < |l.parts|
      && Start(l, key) == (key / |l.parts|) * l.itemSize + l.parts[key % |l.parts|].offset
    ensures Size(l, key) == l.parts[key % |l.parts|].size
  {
    StartOfPart(l, key / |l.parts|, key % |l.parts|, key);
  }

  lemma KeyIsNew(l: Layout, r: Record, i: nat)
    requires l.Exhaustive() && Filed(l, r) && i < |r.keys|
    ensures r.keys[i] < l.Keys() && r.Has(r.keys[i]) && 0 <= r.offsets[r.keys[i]] && r.keys[i] !in r.keys[..i]
  {
    PackedSlice(l, r, |r.keys|, r.used, i);
    if r.keys[i] in r.keys[..i] {
      var j :| 0 <= j < i && r.keys[j] == r.keys[i];
      KeysDiffer(l, r, |r.keys|, r.used, j, i);
    }
  }

  /** The first `i` parts of a record are planned: those not covered before are to be copied, `moved` bytes in
      all are copied or skipped, and the parts covered before or planned now are covered. */
  ghost predicate UndoPlanned(l: Layout, r: Record, covered: seq<bool>, i: nat, covered': seq<bool>,
      plan: seq<CopyRegion>, moved: nat)
  {
    && l.parts != [] && i <= |r.keys| && |covered'| == |covered| == |r.offsets|
    && forall u: int :: Folded(CoverMark, u) ==>
         && (forall k: nat :: k < |covered| ==> covered'[k] == (covered[k] || k in r.keys[..i]))
         && plan == UndoPlan(l, r, covered, i) && moved == KeysSize(l, r.keys, i)
  }

  /** A record an undo may restore, folded. */
  ghost predicate RecordOk(l: Layout, r: Record, size: nat) {
    forall u: int :: Folded(FiledMark, u) ==> l.Exhaustive() && Filed(l, r) && Restorable(l, r, size)
  }

  lemma UndoPlanStarts(l: Layout, r: Record, covered: seq<bool>)
    requires l.parts != [] && |covered| == |r.offsets|
    ensures UndoPlanned(l, r, covered, 0, covered, [], 0)
  {
    assert forall k: nat :: k !in r.keys[..0];
  }

  lemma UndoPlanNext(l: Layout, r: Record, size: nat, covered: seq<bool>, i: nat, covered': seq<bool>,
      plan: seq<CopyRegion>, moved: nat, key: nat)
    requires RecordOk(l, r, size) && UndoPlanned(l, r, covered, i, covered', plan, moved)
    requires i < |r.keys| && key == r.keys[i]
    ensures key < |r.offsets| && 0 <= r.offsets[key]
    ensures UndoPlanned(l, r, covered, i + 1, covered'[key := true],
              if covered'[key] then plan else PlanCopy(plan, UndoRegion(l, r, key)), moved + Size(l, key))
  {
    assert Folded(FiledMark, 0) && Folded(CoverMark, 0);
    KeyIsNew(l, r, i);
    NextPrefix(r.keys, i);
  }

  lemma UndoPlanEnds(l: Layout, r: Record, size: nat, covered: seq<bool>, covered': seq<bool>, plan: seq<CopyRegion>,
      moved: nat)
    requires RecordOk(l, r, size) && |covered| == l.Keys()
    requires UndoPlanned(l, r, covered, |r.keys|, covered', plan, moved)
    ensures covered' == CoveredBy(r, covered) && plan == UndoPlan(l, r, covered, |r.keys|) && moved == r.used
  {
    assert Folded(FiledMark, 0) && Folded(CoverMark, 0);
    assert r.keys[..|r.keys|] == r.keys;
    PackedSize(l, r, |r.keys|, r.used);
  }

  // ---------------------------------------------------------------- the journal

  class PartitionedPoolJournal {
    const pool: array<bv8>
    const items: nat
    const itemSize: nat

    var parts: seq<Part>
    var records: seq<Record>
    var head: nat
    var count: nat
    var open: bool
    var failed: bool
    var configured: bool
    var copied: nat
    var skipped: nat
    var growths: nat

    ghost var snapshots: seq<Image>

    ghost function State(): Journal
      reads this
    {
      Journal(Layout(items, itemSize, parts), records, head, count, open, failed, configured)
    }

    ghost predicate Valid()
      reads this, pool
    {
      pool.Length == items * itemSize && items > 0 && Basic(State()) && Held(State(), snapshots, pool[..])
    }

    constructor (pool: array<bv8>, items: nat, itemSize: nat)
      requires pool.Length == items * itemSize && items > 0
      ensures Valid() && this.pool == pool && snapshots == [] && !configured && !failed
    {
      this.pool, this.items, this.itemSize := pool, items, itemSize;
      parts, records, head, count := [], [], 0, 0;
      open, failed, configured := false, false, false;
      copied, skipped, growths := 0, 0, 0;
      snapshots := [];
    }

    method Clear()
      requires Valid()
      modifies this
      ensures Valid()
        && State() ==
             old(State()).(records := [], head := 0, count := 0, open := false, failed := false, configured := false)
      ensures snapshots == [] && copied == skipped == growths == 0
    {
      records, head, count, configured := [], 0, 0, false;
      open, failed, copied, skipped, growths := false, false, 0, 0, 0;
      snapshots := [];
    }

    /** Accepts only parts that follow one another and fill an item exactly. */
    method Reset(parts: seq<Part>, maxFrames: nat) returns (ok: bool)
      requires Valid() && 0 < |parts| < 32
      modifies this
      ensures Valid() && snapshots == [] && configured == ok && count == 0 && !open && !failed
      ensures ok == (maxFrames != 0 && Layout(items, itemSize, parts).Exhaustive())
        && (ok ==> |records| == maxFrames && this.parts == parts)
    {
      Clear();
      if maxFrames == 0 { return false; }
      var fits := Fits(parts);
      if !fits { return false; }
      Configure(parts, maxFrames);
      return true;
    }

    method Configure(parts: seq<Part>, maxFrames: nat)
      requires Valid() && !configured && count == 0 && head == 0 && snapshots == [] && !open && maxFrames != 0
      requires Layout(items, itemSize, parts).Exhaustive()
      modifies this`parts, this`records, this`configured
      ensures Valid() && configured && |records| == maxFrames && this.parts == parts
    {
      this.parts := parts;
      records := seq(maxFrames, _ => Record(0, 0, [], [], [], 0));
      configured := true;
      ConfiguredHeld(State(), pool[..]);
    }

    /** Whether the parts follow one another and fill an item. */
    method Fits(parts: seq<Part>) returns (ok: bool)
      requires 0 < |parts| < 32 && items > 0
      ensures ok == Layout(items, itemSize, parts).Exhaustive()
    {
      var end, i := 0, 0;
      while i < |parts|
        invariant i <= |parts| && end <= itemSize && (i == 0 ==> end == 0)
        invariant i > 0 ==> end == parts[i - 1].offset + parts[i - 1].size && parts[0].offset == 0
        invariant forall k :: 0 <= k < i ==> 0 < parts[k].size
        invariant forall k :: 0 <= k < i - 1 ==> parts[k].offset + parts[k].size == parts[k + 1].offset
      {
        if parts[i].size == 0 || parts[i].offset != end || parts[i].size > itemSize - end {
          PartsBroken(parts, itemSize, i, end);
          return false;
        }
        end := end + parts[i].size;
        i := i + 1;
      }
      return end == itemSize;
    }

    lemma PartsBroken(parts: seq<Part>, itemSize: nat, i: nat, end: nat)
      requires i < |parts| && end <= itemSize
        && (if i == 0 then end == 0 else end == parts[i - 1].offset + parts[i - 1].size)
      requires parts[i].size == 0 || parts[i].offset != end || parts[i].size > itemSize - end
      ensures !Layout(items, itemSize, parts).Exhaustive()
    {
      if Layout(items, itemSize, parts).Exhaustive() {
        if i > 0 { assert parts[i - 1].offset + parts[i - 1].size == parts[i].offset; }
        PartsEnd(Layout(items, itemSize, parts), i);
      }
    }

    method BeginFrame(frame: nat, extend: bool) returns (ok: bool)
      requires Valid() && frame <= MAX_FRAME
      modifies this`records, this`head, this`count, this`open, this`failed, this`snapshots
      ensures Valid() && ok == MayBegin(old(State()), frame, extend) && State() == Begun(old(State()), frame, extend)
      ensures snapshots == SnapshotsBegun(old(State()), old(snapshots), pool[..], frame, extend)
    {
      BeginKeeps(State(), snapshots, pool[..], frame, extend);
      snapshots := SnapshotsBegun(State(), snapshots, pool[..], frame, extend);
      if !configured || open || failed { return false; }
      ok := Follows(frame, extend);
      if !ok {
        failed := true;
      } else if extend {
        ExtendRecord(frame);
      } else {
        StartRecord(frame);
      }
    }

    /** Whether the frame extends the newest checkpoint, or begins one after it. */
    method Follows(frame: nat, extend: bool) returns (ok: bool)
      requires Basic(State()) && configured && !open && !failed
      ensures ok == MayBegin(State(), frame, extend)
    {
      if count == 0 { return !extend; }
      var back := records[Ring.Slot(head + count - 1, |records|)];
      return if extend then back.last != MAX_FRAME && frame == back.last + 1 else frame > back.last;
    }

    method ExtendRecord(frame: nat)
      requires Basic(State()) && configured && count > 0
      modifies this`records, this`open
      ensures var j := old(State()); State() == j.WithNewest(j.Newest().(last := frame)).(open := true)
    {
      var back := Ring.Slot(head + count - 1, |records|);
      records := records[back := records[back].(last := frame)];
      open := true;
    }

    method StartRecord(frame: nat)
      requires State().RingOk() && records != []
      modifies this`records, this`head, this`count, this`open
      ensures State() == Started(old(State()), frame)
    {
      if count == |records| { head := Ring.Slot(head + 1, |records|); } else { count := count + 1; }
      var back := Ring.Slot(head + count - 1, |records|);
      records := records[back := EmptyRecord(Layout(items, itemSize, parts), frame, records[back].bytes)];
      open := true;
    }

    method EndFrame() returns (ok: bool)
      requires Valid()
      modifies this`open
      ensures Valid() && ok == (old(open) && !failed) && State() == old(State()).(open := old(open) && !ok)
    {
      OpenHeld(State(), snapshots, pool[..], false);
      if !open || failed { return false; }
      open := false;
      return true;
    }

    /** The program's own write, to a part the newest checkpoint has saved. */
    method Write(a: nat, v: bv8)
      requires Valid() && a < pool.Length && MayWrite(State(), a)
      modifies pool
      ensures Valid() && pool[..] == old(pool[..])[a := v]
    {
      WriteHeld(State(), snapshots, pool[..], a, v);
      pool[a] := v;
      assert pool[..] == old(pool[..])[a := v];
    }

    // ------------------------------------------------------------ touching

    /** Save the old bytes of some parts of one item, each at most once in a checkpoint. Anything out of
        range fails the journal. */
    method Touch(slot: nat, mask: set<nat>) returns (ok: bool)
      requires Valid()
      modifies this`records, this`failed, this`growths
      ensures Valid() && ok == (open && !old(failed) && slot < items && MaskOk(mask, |parts|))
      ensures !ok ==> State() == old(State()).(failed := true)
      ensures ok ==> SavedToo(old(State()), State(), WantedParts(State().layout, slot, mask, |parts|))
    {
      OpenHeld(State(), snapshots, pool[..], open);
      if !open || failed || slot >= items || !MaskOk(mask, |parts|) {
        failed := true;
        return false;
      }
      ghost var keys := WantedParts(State().layout, slot, mask, |parts|);
      NewestShape(State(), snapshots, pool[..]);
      var record := records[Ring.Slot(head + count - 1, |records|)];
      var planned, plan := PlanTouch(record, [], slot, mask, record, []);
      assert [] + keys == keys;
      CopyPlanned(planned, plan, keys);
      return true;
    }

    /** The same for every item at once: all parts are planned before any byte is copied. */
    method CaptureMasks(masks: seq<set<nat>>) returns (ok: bool)
      requires Valid() && |masks| == items
      modifies this`records, this`failed, this`growths
      ensures Valid() && ok == (open && !old(failed) && MasksOk(masks, |parts|))
      ensures !ok ==> State() == old(State()).(failed := old(failed) || open)
      ensures ok ==> SavedToo(old(State()), State(), WantedItems(State().layout, masks, |masks|))
    {
      OpenHeld(State(), snapshots, pool[..], open);
      if !open || failed { return false; }
      if !MasksOk(masks, |parts|) {
        failed := true;
        return false;
      }
      NewestShape(State(), snapshots, pool[..]);
      var planned, plan := PlanAll(records[Ring.Slot(head + count - 1, |records|)], masks);
      CopyPlanned(planned, plan, WantedItems(State().layout, masks, |masks|));
      return true;
    }

    method PlanAll(record: Record, masks: seq<set<nat>>) returns (planned: Record, plan: seq<CopyRegion>)
      requires configured && Basic(State()) && |masks| == items && |record.offsets| == State().layout.Keys()
      ensures KeysOk(State().layout, WantedItems(State().layout, masks, |masks|))
      ensures Planned(planned, plan) == PlanKeys(State().layout, record, WantedItems(State().layout, masks, |masks|))
    {
      ghost var l := State().layout;
      planned, plan := record, [];
      var slot := 0;
      while slot < items
        invariant slot <= items && KeysOk(l, WantedItems(l, masks, slot))
        invariant Planned(planned, plan) == PlanKeys(l, record, WantedItems(l, masks, slot))
      {
        ghost var earlier := WantedItems(l, masks, slot);
        planned, plan := PlanTouch(planned, plan, slot, masks[slot], record, earlier);
        assert WantedItems(l, masks, slot + 1) == earlier + WantedParts(l, slot, masks[slot], |parts|);
        slot := slot + 1;
      }
    }

    /** Plans the parts of one item that are not saved yet, after the keys planned `earlier`. */
    method PlanTouch(record: Record, plan: seq<CopyRegion>, slot: nat, mask: set<nat>, ghost first: Record,
        ghost earlier: seq<nat>)
      returns (record': Record, plan': seq<CopyRegion>)
      requires configured && Basic(State()) && slot < items && |first.offsets| == State().layout.Keys()
        && KeysOk(State().layout, earlier)
      requires Planned(record, plan) == PlanKeys(State().layout, first, earlier)
      ensures KeysOk(State().layout, earlier + WantedParts(State().layout, slot, mask, |parts|))
      ensures Planned(record', plan') ==
        PlanKeys(State().layout, first, earlier + WantedParts(State().layout, slot, mask, |parts|))
    {
      ghost var l, keys := State().layout, earlier;
      record', plan' := record, plan;
      var index := 0;
      assert earlier + WantedParts(l, slot, mask, 0) == earlier;
      while index < |parts|
        invariant index <= |parts| && keys == earlier + WantedParts(l, slot, mask, index) && KeysOk(l, keys)
        invariant Planned(record', plan') == PlanKeys(l, first, keys)
      {
        record', plan', keys := PlanPart(record', plan', slot, mask, index, first, earlier, keys);
        index := index + 1;
      }
    }

    method PlanPart(record: Record, plan: seq<CopyRegion>, slot: nat, mask: set<nat>, index: nat, ghost first: Record,
        ghost earlier: seq<nat>, ghost keys: seq<nat>)
      returns (record': Record, plan': seq<CopyRegion>, ghost keys': seq<nat>)
      requires configured && Basic(State()) && slot < items && index < |parts|
        && |first.offsets| == State().layout.Keys() && KeysOk(State().layout, keys)
      requires keys == earlier + WantedParts(State().layout, slot, mask, index)
      requires Planned(record, plan) == PlanKeys(State().layout, first, keys)
      ensures keys' == earlier + WantedParts(State().layout, slot, mask, index + 1) && KeysOk(State().layout, keys')
      ensures Planned(record', plan') == PlanKeys(State().layout, first, keys')
    {
      ghost var l, key := State().layout, KeyOf(State().layout, slot, index);
      KeyBound(l, slot, index);
      WantedNext(l, earlier, slot, mask, index, keys, key);
      PlanNext(l, first, keys, key, index in mask);
      record', plan', keys' := record, plan, keys;
      if index in mask {
        record', plan' := PlanOne(record, plan, slot, index);
        keys' := keys + [key];
      }
    }

    method PlanOne(record: Record, plan: seq<CopyRegion>, slot: nat, index: nat)
      returns (record': Record, plan': seq<CopyRegion>)
      requires configured && Basic(State()) && slot < items && index < |parts|
        && |record.offsets| == State().layout.Keys()
      ensures KeyOf(State().layout, slot, index) < |record.offsets|
      ensures Planned(record', plan') ==
        PlanKey(State().layout, Planned(record, plan), KeyOf(State().layout, slot, index))
    {
      record', plan' := record, plan;
      var key := slot * |parts| + index;
      KeyBound(State().layout, slot, index);
      KeyIsPosition(State().layout, slot, index);
      StartOfPart(State().layout, slot, index, key);
      if record.offsets[key] == MISSING {
        var part := parts[index];
        plan' := PlanCopy(plan, CopyRegion(slot * itemSize + part.offset, record.used, part.size));
        record' := record.(offsets := record.offsets[key := record.used], keys := record.keys + [key],
            used := record.used + part.size);
      }
    }

    /** Makes room for the planned parts, at most the size of the pool, and copies them all. */
    method CopyPlanned(planned: Record, plan: seq<CopyRegion>, ghost keys: seq<nat>)
      requires Valid() && open && State().layout.parts != [] && |State().Newest().offsets| == State().layout.Keys()
        && KeysOk(State().layout, keys)
      requires Planned(planned, plan) == PlanKeys(State().layout, State().Newest(), keys)
      modifies this`records, this`growths
      ensures Valid() && SavedToo(old(State()), State(), keys)
    {
      ghost var j := State();
      var back := Ring.Slot(head + count - 1, |records|);
      NewestShape(j, snapshots, pool[..]);
      PlanFitsPool(j.layout, j.Newest(), keys);
      PoolEnd(j.layout);
      var arena := EnsureCapacity(records[back], planned.used);
      TouchHeld(j, snapshots, pool[..], keys, arena);
      var bytes := CopyBatch(arena, pool[..], plan);
      records := records[back := planned.(bytes := bytes)];
      assert State() == j.WithNewest(planned.(bytes := bytes));
      assert State().Newest() == planned.(bytes := bytes);
    }

    /** Doubling towards the size of the pool, which is always enough: the loop ends. */
    method EnsureCapacity(record: Record, required: nat) returns (arena: Image)
      requires record.used <= |record.bytes| && required <= items * itemSize && 0 < items * itemSize
      modifies this`growths
      ensures record.used <= |record.bytes| <= |arena| && required <= |arena|
        && arena[..record.used] == record.bytes[..record.used]
    {
      if required <= |record.bytes| { return record.bytes; }
      var maximum := items * itemSize;
      var capacity := if |record.bytes| != 0 then |record.bytes|
        else if maximum < JournalState.FIRST_ARENA then maximum else JournalState.FIRST_ARENA;
      while capacity < required
        invariant 0 < capacity
        invariant required <= maximum && (capacity < required ==> capacity < maximum)
        decreases maximum - capacity
      {
        capacity := if capacity <= maximum / 2 then capacity * 2 else maximum;
      }
      var bytes := new bv8[capacity];
      growths := growths + 1;
      arena := record.bytes[..record.used] + bytes[record.used..];
    }

    method CopyBatch(destination: Image, source: Image, plan: seq<CopyRegion>) returns (result: Image)
      requires PlanFits(plan, |destination|, |source|)
      ensures result == Executed(destination, source, plan)
    {
      result := destination;
      var i := 0;
      assert plan[..0] == [] && plan[..|plan|] == plan;
      while i < |plan|
        invariant i <= |plan| && PlanFits(plan[..i], |destination|, |source|)
          && result == Executed(destination, source, plan[..i])
      {
        AllRegionsFit(plan, |destination|, |source|, i);
        NextPrefix(plan, i);
        LastCopy(destination, source, plan[..i + 1], plan[..i], plan[i]);
        result := Copied(result, source, plan[i]);
        i := i + 1;
      }
    }

    // ------------------------------------------------------------ undo and discard

    /** Restore the pool of the moment the checkpoint containing `frame` began, oldest checkpoint first and
        each part at most once; the result is what restoring every checkpoint newest first would give. */
    method UndoTo(frame: nat) returns (ok: bool, restoredFrame: nat)
      requires Valid()
      modifies pool, this`count, this`snapshots, this`copied, this`skipped
      ensures Valid()
      ensures ok ==> old(configured && !open && !failed)
      ensures !ok ==> State() == old(State()) && pool[..] == old(pool[..]) && snapshots == old(snapshots)
      ensures !ok && configured && !open && !failed ==>
        forall i :: 0 <= i < count ==> !(State().Records()[i].first <= frame <= State().Records()[i].last)
      ensures ok ==>
        var t, rs := count, old(State()).Records();
        && t < |rs| == |old(snapshots)| && rs[t].first <= frame <= rs[t].last
        && (forall i :: 0 <= i < t ==> !(rs[i].first <= frame <= rs[i].last))
        && restoredFrame == rs[t].first && State() == old(State()).(count := t) && State().Records() == rs[..t]
        && snapshots == old(snapshots)[..t] && pool[..] == old(snapshots)[t]
        && AllRestorable(old(State()).layout, rs, pool.Length)
        && pool[..] == NewestFirst(old(State()).layout, rs, t, old(pool[..]))
        && copied + skipped == old(copied + skipped) + Sizes(rs) - Sizes(rs[..t])
    {
      ok, restoredFrame := false, 0;
      if open || failed || !configured { return; }
      Release(State(), snapshots, pool[..]);
      var target := FindContaining(frame);
      if target == count { return; }
      ok, restoredFrame := true, records[Ring.Slot(head + target, |records|)].first;
      RewindTo(target, State().layout, State().Records(), snapshots + [pool[..]]);
    }

    /** Undo the checkpoints from the one at `target` on, and forget them. */
    method RewindTo(target: nat, ghost l: Layout, ghost rs: seq<Record>, ghost history: seq<Image>)
      requires Valid() && configured && !open && target < count == |snapshots|
      requires l == State().layout && rs == State().Records() && history == snapshots + [pool[..]]
      modifies pool, this`count, this`snapshots, this`copied, this`skipped
      ensures Valid() && State() == old(State()).(count := target) && snapshots == old(snapshots)[..target]
      ensures State().Records() == rs[..target] && pool[..] == old(snapshots)[target]
      ensures AllRestorable(l, rs, pool.Length) && pool[..] == NewestFirst(l, rs, target, old(pool[..]))
      ensures copied + skipped == old(copied + skipped) + Sizes(rs) - Sizes(rs[..target])
    {
      UndoTarget(State(), snapshots, pool[..], target, l, rs, history);
      ghost var j, kept, reached := State().(count := target), snapshots[..target], snapshots[target];
      RestoreFrom(target, rs, history);
      count, snapshots := target, kept;
      assert State() == j && pool[..] == reached;
    }

    method FindContaining(frame: nat) returns (target: nat)
      requires Basic(State())
      ensures target <= count == |State().Records()|
      ensures forall i :: 0 <= i < target ==> !(State().Records()[i].first <= frame <= State().Records()[i].last)
      ensures target < count ==>
        && State().Records()[target].first <= frame <= State().Records()[target].last && head < |records|
        && State().Records()[target] == records[Ring.Slot(head + target, |records|)]
    {
      ghost var rs := State().Records();
      target := 0;
      while target < count
        invariant target <= count && forall i :: 0 <= i < target ==> !(rs[i].first <= frame <= rs[i].last)
      {
        var record := records[Ring.Slot(head + target, |records|)];
        assert record == rs[target];
        if record.first <= frame && frame <= record.last { break; }
        target := target + 1;
      }
    }

    method RestoreFrom(target: nat, ghost rs: seq<Record>, ghost history: seq<Image>)
      requires configured && Basic(State()) && target < count == |rs| && |history| == |rs| + 1
        && pool[..] == history[|rs|]
      requires Undoable(State().layout, records, head, rs, history)
      modifies pool, this`copied, this`skipped
      ensures pool[..] == history[target]
      ensures copied + skipped == old(copied + skipped) + Sizes(rs) - Sizes(rs[..target])
    {
      ghost var l := State().layout;
      var covered := seq(items * |parts|, _ => false);
      ghost var now := pool[..];
      UndoBegins(l, records, head, rs, history, target, covered);
      var index := target;
      while index < count
        invariant target <= index <= count && now == pool[..] && OldestFirst(l, history, target, index, covered, now)
        invariant copied + skipped == old(copied + skipped) + Sizes(rs[..index]) - Sizes(rs[..target])
      {
        covered, now := RestoreNext(target, index, covered, rs, history, now);
        Remaining(rs, index);
        index := index + 1;
      }
      UndoFinishes(l, records, head, rs, history, target, covered, now);
    }

    method RestoreNext(ghost target: nat, index: nat, covered: seq<bool>, ghost rs: seq<Record>,
        ghost history: seq<Image>, ghost now: Image)
      returns (covered': seq<bool>, ghost now': Image)
      requires configured && Basic(State()) && target <= index < count == |rs| && |history| == |rs| + 1
        && now == pool[..]
      requires Undoable(State().layout, records, head, rs, history)
        && OldestFirst(State().layout, history, target, index, covered, now)
      modifies pool, this`copied, this`skipped
      ensures now' == pool[..] && OldestFirst(State().layout, history, target, index + 1, covered', now')
      ensures copied + skipped == old(copied + skipped) + rs[index].used
    {
      UndoableAt(State().layout, records, head, rs, history, index);
      StepUndo(State().layout, records, head, rs, history, target, index, covered, now);
      covered', now' := RestoreRecord(records[Ring.Slot(head + index, |records|)], covered, now);
    }

    /** Restore what is not covered yet of one checkpoint, in one batch. */
    method RestoreRecord(record: Record, covered: seq<bool>, ghost now: Image)
      returns (covered': seq<bool>, ghost now': Image)
      requires configured && Basic(State()) && RecordOk(State().layout, record, |now|) && now == pool[..]
      requires |covered| == State().layout.Keys() == |record.offsets| && Restorable(State().layout, record, |now|)
      modifies pool, this`copied, this`skipped
      ensures covered' == CoveredBy(record, covered) && now' == pool[..]
      ensures now' == Restored(State().layout, now, record, covered, |record.keys|)
      ensures copied + skipped == old(copied + skipped) + record.used
    {
      var plan;
      covered', plan := PlanUndo(record, covered, |now|);
      UndoPlanRestores(State().layout, now, record, covered, |record.keys|);
      CopyToPool(record.bytes, plan);
      now' := pool[..];
    }

    method PlanUndo(record: Record, covered: seq<bool>, ghost size: nat)
      returns (covered': seq<bool>, plan: seq<CopyRegion>)
      requires configured && Basic(State()) && RecordOk(State().layout, record, size)
        && |covered| == |record.offsets| == State().layout.Keys()
      modifies this`copied, this`skipped
      ensures covered' == CoveredBy(record, covered) && State().layout.parts != []
        && plan == UndoPlan(State().layout, record, covered, |record.keys|)
      ensures copied + skipped == old(copied + skipped) + record.used
    {
      ghost var l, moved: nat := State().layout, 0;
      UndoPlanStarts(l, record, covered);
      covered', plan := covered, [];
      var i := 0;
      while i < |record.keys|
        invariant UndoPlanned(l, record, covered, i, covered', plan, moved)
        invariant copied + skipped == old(copied + skipped) + moved
      {
        covered', plan, moved := PlanUndoKey(record, i, covered', plan, size, covered, moved);
        i := i + 1;
      }
      UndoPlanEnds(l, record, size, covered, covered', plan, moved);
    }

    method PlanUndoKey(record: Record, i: nat, covered: seq<bool>, plan: seq<CopyRegion>, ghost size: nat,
        ghost before: seq<bool>, ghost moved: nat)
      returns (covered': seq<bool>, plan': seq<CopyRegion>, ghost moved': nat)
      requires configured && Basic(State()) && RecordOk(State().layout, record, size) && i < |record.keys|
      requires UndoPlanned(State().layout, record, before, i, covered, plan, moved)
      modifies this`copied, this`skipped
      ensures UndoPlanned(State().layout, record, before, i + 1, covered', plan', moved')
      ensures copied + skipped == old(copied + skipped) + (moved' - moved)
    {
      var key := record.keys[i];
      UndoPlanNext(State().layout, record, size, before, i, covered, plan, moved, key);
      var region := RegionOfKey(record, key);
      moved' := moved + region.bytes;
      covered', plan' := covered[key := true], plan;
      if covered[key] {
        skipped := skipped + region.bytes;
      } else {
        plan' := PlanCopy(plan, region);
        copied := copied + region.bytes;
      }
    }

    method RegionOfKey(record: Record, key: nat) returns (region: CopyRegion)
      requires configured && Basic(State()) && key < |record.offsets| && 0 <= record.offsets[key]
      ensures region == UndoRegion(State().layout, record, key)
    {
      var slot, index := key / |parts|, key % |parts|;
      PartOfKey(State().layout, key);
      region := CopyRegion(record.offsets[key], slot * itemSize + parts[index].offset, parts[index].size);
    }

    method CopyToPool(source: Image, plan: seq<CopyRegion>)
      requires PlanFits(plan, pool.Length, |source|)
      modifies pool
      ensures pool[..] == Executed(old(pool[..]), source, plan)
    {
      var i := 0;
      assert plan[..0] == [] && plan[..|plan|] == plan;
      ghost var before := pool[..];
      while i < |plan|
        invariant i <= |plan| && PlanFits(plan[..i], |before|, |source|)
          && pool[..] == Executed(before, source, plan[..i])
      {
        AllRegionsFit(plan, |before|, |source|, i);
        NextPrefix(plan, i);
        LastCopy(before, source, plan[..i + 1], plan[..i], plan[i]);
        CopyRegionToPool(source, plan[i]);
        i := i + 1;
      }
    }

    method CopyRegionToPool(source: Image, region: CopyRegion)
      requires RegionFits(region, pool.Length, |source|)
      modifies pool
      ensures pool[..] == Copied(old(pool[..]), source, region)
    {
      forall i | 0 <= i < region.bytes { pool[region.to + i] := source[region.from + i]; }
      ghost var a, b := pool[..], Copied(old(pool[..]), source, region);
      assert |a| == |b| && forall i :: 0 <= i < |a| ==> a[i] == b[i];
    }

    /** Forget the oldest checkpoints that ended before `frame`; the rest can still be undone. */
    method DiscardBefore(frame: nat)
      requires Valid()
      modifies this`head, this`count, this`snapshots
      ensures Valid() && |old(snapshots)| == old(count)
      ensures open ==> State() == old(State()) && snapshots == old(snapshots)
      ensures !open ==>
        var k := Stale(old(State()).Records(), frame);
        && State() == Dropped(old(State()), k) && snapshots == old(snapshots)[k..]
        && State().Records() == old(State()).Records()[k..]
    {
      Release(State(), snapshots, pool[..]);
      if open { return; }
      ghost var j := State();
      ghost var k := Stale(j.Records(), frame);
      DropHeld(j, snapshots, pool[..], k);
      DroppedRecords(j, k);
      DropStale(frame);
      snapshots := snapshots[k..];
      assert State() == Dropped(j, k);
    }

    method DropStale(frame: nat)
      requires Basic(State())
      modifies this`head, this`count
      ensures State() == Dropped(old(State()), Stale(old(State()).Records(), frame))
    {
      ghost var j, k, stale := State(), 0, Stale(State().Records(), frame);
      while count != 0 && records[head].last < frame
        invariant 0 <= k <= stale && count == j.count - k && head == Dropped(j, k).head
      {
        StaleStep(j, k, frame);
        head := Ring.Slot(head + 1, |records|);
        count := count - 1;
        k := k + 1;
      }
      if k < j.count { StaleStep(j, k, frame); }
      assert k == stale && State() == Dropped(j, stale);
    }
  }
}
