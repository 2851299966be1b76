/** One undo checkpoint of the rollback journal, and what a chain of checkpoints knows about the
    past of the memory it records. */
module JournalRecord {
  import opened BlockIndex
  import opened Folding
  import opened Memory

  /** Copies at least this large may be deferred while a read-only capture window is open, and may be
      skipped by a coalescing restore. */
  const LARGE: nat := 1024

  datatype FrameRecord = FrameRecord(
    startFrame: nat, endFrame: nat, bytes: Image, byteSize: nat, blocks: seq<Block>, root: nat)

  lemma SplicedSlices(bytes: Image, offset: nat, source: Image)
    requires offset + |source| <= |bytes|
    ensures Splice(bytes, offset, source)[..offset] == bytes[..offset]
    ensures Splice(bytes, offset, source)[offset..offset + |source|] == source
  {}

  // ---------------------------------------------------------------- arena layout

  /** The arena slices of the blocks follow one another without gaps, up to `total`. */
  ghost predicate Packed(blocks: seq<Block>, total: nat) {
    if blocks == [] then total == 0 else
      var last := blocks[|blocks| - 1];
      last.offset + last.size == total && Packed(blocks[..|blocks| - 1], last.offset)
  }

  lemma {:induction false} PackedApart(blocks: seq<Block>, total: nat)
    requires Packed(blocks, total)
    ensures forall k :: 0 <= k < |blocks| ==> blocks[k].offset + blocks[k].size <= total
    ensures forall j, k :: 0 <= j < k < |blocks| ==> blocks[j].offset + blocks[j].size <= blocks[k].offset
  {
    if blocks != [] {
      var front, last := blocks[..|blocks| - 1], blocks[|blocks| - 1];
      PackedApart(front, last.offset);
      assert forall k :: 0 <= k < |front| ==> front[k] == blocks[k];
    }
  }

  lemma {:induction false} PackedSame(blocks: seq<Block>, blocks': seq<Block>, total: nat)
    requires Packed(blocks, total) && SameRanges(blocks, blocks') && |blocks| == |blocks'|
    ensures Packed(blocks', total)
  {
    if blocks != [] {
      PackedSame(blocks[..|blocks| - 1], blocks'[..|blocks| - 1], blocks[|blocks| - 1].offset);
    }
  }

  function Total(blocks: seq<Block>): nat {
    if blocks == [] then 0 else Total(blocks[..|blocks| - 1]) + blocks[|blocks| - 1].size
  }

  lemma {:induction false} PackedTotal(blocks: seq<Block>, total: nat)
    requires Packed(blocks, total)
    ensures Total(blocks) == total
  {
    if blocks != [] { PackedTotal(blocks[..|blocks| - 1], blocks[|blocks| - 1].offset); }
  }

  // ---------------------------------------------------------------- one checkpoint

  /** A record over a memory of `length` bytes: its index is sound and its arena is filled in order. */
  ghost predicate Sound(r: FrameRecord, length: nat) {
    && Indexed(r.blocks, r.root)
    && Packed(r.blocks, r.byteSize) && r.byteSize <= |r.bytes|
    && forall k :: 0 <= k < |r.blocks| ==>
         0 < r.blocks[k].size && 0 < r.blocks[k].address && r.blocks[k].End() <= length
  }

  ghost predicate Covers(r: FrameRecord, a: int) {
    exists k :: 0 <= k < |r.blocks| && r.blocks[k].Contains(a)
  }

  ghost predicate Fits(r: FrameRecord, k: nat, length: nat) {
    k < |r.blocks| && r.blocks[k].offset + r.blocks[k].size <= |r.bytes| && r.blocks[k].End() <= length
  }

  /** Block `k` holds the bytes `before` had in its range. */
  ghost predicate Kept(r: FrameRecord, k: nat, before: Image) {
    && Fits(r, k, |before|)
    && var b := r.blocks[k]; r.bytes[b.offset..b.offset + b.size] == before[b.address..b.End()]
  }

  /** The copy of block `k` is still outstanding: its source has not changed since it was accepted. */
  ghost predicate Outstanding(r: FrameRecord, k: nat, before: Image, now: Image) {
    && |before| == |now| && Fits(r, k, |before|)
    && var b := r.blocks[k]; before[b.address..b.End()] == now[b.address..b.End()]
  }

  /** Restoring the record onto `now` gives `before`; large blocks from position `from` on are still
      to be copied. */
  ghost predicate Undoes(r: FrameRecord, before: Image, now: Image, from: nat) {
    && |before| == |now|
    && (forall a :: 0 <= a < |before| && !Covers(r, a) ==> before[a] == now[a])
    && (forall k :: 0 <= k < |r.blocks| ==>
         if from <= k && r.blocks[k].size >= LARGE then Outstanding(r, k, before, now) else Kept(r, k, before))
  }

  lemma SoundFits(r: FrameRecord, length: nat)
    requires Sound(r, length)
    ensures forall k :: 0 <= k < |r.blocks| ==> Fits(r, k, length)
  {
    PackedApart(r.blocks, r.byteSize);
  }

  /** A write to touched memory does not disturb the record. */
  lemma UndoesAfterWrite(r: FrameRecord, before: Image, now: Image, from: nat, a: nat, v: bv8)
    requires Undoes(r, before, now, from) && |r.blocks| <= from && a < |now| && Covers(r, a)
    ensures Undoes(r, before, now[a := v], from)
  {}

  /** `r'` is `r` with one block more, at the end of the arena. */
  ghost predicate Extends(r: FrameRecord, r': FrameRecord, start: nat, size: nat) {
    && SameRanges(r.blocks, r'.blocks) && |r'.blocks| == |r.blocks| + 1
    && r'.blocks[|r.blocks|].Is(start, size) && r'.blocks[|r.blocks|].offset == r.byteSize
    && r'.byteSize == r.byteSize + size <= |r'.bytes| == |r.bytes|
    && r'.bytes[..r.byteSize] == r.bytes[..r.byteSize]
  }

  lemma SoundAfterTouch(r: FrameRecord, r': FrameRecord, length: nat, start: nat, size: nat)
    requires Sound(r, length) && Extends(r, r', start, size) && Indexed(r'.blocks, r'.root) && 0 < start && 0 < size
      && start + size <= length
    ensures Sound(r', length)
  {
    var n := |r.blocks|;
    PackedSame(r.blocks, r'.blocks[..n], r.byteSize);
  }

  lemma CoversAfterTouch(r: FrameRecord, r': FrameRecord, start: nat, size: nat, a: int)
    requires Extends(r, r', start, size)
    ensures Covers(r', a) <==> Covers(r, a) || start <= a < start + size
  {
    if Covers(r, a) {
      var k :| 0 <= k < |r.blocks| && r.blocks[k].Contains(a);
      assert r'.blocks[k].Contains(a);
    }
    if start <= a < start + size { assert r'.blocks[|r.blocks|].Contains(a); }
    if Covers(r', a) {
      var k :| 0 <= k < |r'.blocks| && r'.blocks[k].Contains(a);
      assert k < |r.blocks| ==> r.blocks[k].Contains(a);
    }
  }

  /** Accepting a block that is disjoint from all others, copied at once or left outstanding. */
  lemma UndoesAfterTouch(r: FrameRecord, r': FrameRecord, before: Image, now: Image, from: nat, from': nat,
                         start: nat, size: nat)
    requires Packed(r.blocks, r.byteSize) && Undoes(r, before, now, from) && Extends(r, r', start, size)
    requires 0 < size && start + size <= |now|
    requires AllApart(r.blocks, start, size)
    requires (size >= LARGE && from' <= |r.blocks|)
      || r'.bytes[r.byteSize..r.byteSize + size] == now[start..start + size]
    requires forall k :: 0 <= k < |r.blocks| && r.blocks[k].size >= LARGE ==> (from <= k <==> from' <= k)
    ensures Undoes(r', before, now, from')
  {
    assert forall k :: 0 <= k < |r.blocks| ==> r.blocks[k].offset + r.blocks[k].size <= r.byteSize by {
      PackedApart(r.blocks, r.byteSize);
    }
    KeptAfterTouch(r, r', before, now, from, from');
    forall a | 0 <= a < |before| ensures Covers(r, a) ==> Covers(r', a) {
      CoversAfterTouch(r, r', start, size, a);
    }
    UntouchedRange(r, before, now, from, start, size);
  }

  lemma UntouchedRange(r: FrameRecord, before: Image, now: Image, from: nat, start: nat, size: nat)
    requires Undoes(r, before, now, from) && start + size <= |now|
    requires AllApart(r.blocks, start, size)
    ensures before[start..start + size] == now[start..start + size]
  {
    forall a | start <= a < start + size ensures before[a] == now[a] { assert !Covers(r, a); }
  }

  lemma SliceOfPrefix(x: Image, y: Image, n: nat, at: nat, size: nat)
    requires n <= |x| && n <= |y| && x[..n] == y[..n] && at + size <= n
    ensures x[at..at + size] == y[at..at + size]
  {
    assert x[at..at + size] == x[..n][at..at + size];
    assert y[at..at + size] == y[..n][at..at + size];
  }

  lemma KeptAfterTouch(r: FrameRecord, r': FrameRecord, before: Image, now: Image, from: nat, from': nat)
    requires Undoes(r, before, now, from) && |r.bytes| == |r'.bytes| && r.byteSize <= |r.bytes|
    requires SameRanges(r.blocks, r'.blocks) && |r.blocks| <= |r'.blocks|
    requires forall k :: 0 <= k < |r.blocks| ==> r.blocks[k].offset + r.blocks[k].size <= r.byteSize
    requires r'.bytes[..r.byteSize] == r.bytes[..r.byteSize]
    requires forall k :: 0 <= k < |r.blocks| && r.blocks[k].size >= LARGE ==> (from <= k <==> from' <= k)
    ensures forall k :: 0 <= k < |r.blocks| ==>
      if from' <= k && r'.blocks[k].size >= LARGE then Outstanding(r', k, before, now) else Kept(r', k, before)
  {
    forall k | 0 <= k < |r.blocks|
      ensures if from' <= k && r'.blocks[k].size >= LARGE then Outstanding(r', k, before, now) else Kept(r', k, before)
    {
      SliceOfPrefix(r'.bytes, r.bytes, r.byteSize, r.blocks[k].offset, r.blocks[k].size);
    }
  }

  /** Moving to a larger arena keeps every stored byte. */
  lemma UndoesAfterGrowth(r: FrameRecord, r': FrameRecord, before: Image, now: Image, from: nat)
    requires Sound(r, |now|) && Undoes(r, before, now, from) && |r.blocks| <= from
    requires r' == r.(bytes := r'.bytes) && |r.bytes| <= |r'.bytes| && r'.bytes[..r.byteSize] == r.bytes[..r.byteSize]
    ensures Sound(r', |now|) && Undoes(r', before, now, from)
  {
    PackedApart(r.blocks, r.byteSize);
    forall k | 0 <= k < |r.blocks| ensures Kept(r', k, before) {
      SliceOfPrefix(r'.bytes, r.bytes, r.byteSize, r.blocks[k].offset, r.blocks[k].size);
    }
  }

  /** Copying one outstanding block: it becomes kept, and no other block's bytes move. */
  lemma UndoesAfterCopy(r: FrameRecord, r': FrameRecord, before: Image, now: Image, k: nat)
    requires Sound(r, |now|) && Undoes(r, before, now, k) && k < |r.blocks| && r.blocks[k].size >= LARGE
    requires Fits(r, k, |now|)
    requires var b := r.blocks[k]; r' == r.(bytes := Splice(r.bytes, b.offset, now[b.address..b.End()]))
    ensures Undoes(r', before, now, k + 1)
  {
    var b := r.blocks[k];
    assert r'.bytes[b.offset..b.offset + b.size] == now[b.address..b.End()];
    PackedApart(r.blocks, r.byteSize);
    forall j | 0 <= j < |r.blocks| && j != k ensures Kept(r, j, before) ==> Kept(r', j, before) {
      OtherSlice(r.bytes, b.offset, now[b.address..b.End()], r.blocks[j].offset, r.blocks[j].size);
    }
    assert forall a :: Covers(r', a) == Covers(r, a);
  }

  lemma OtherSlice(bytes: Image, offset: nat, source: Image, at: nat, size: nat)
    requires offset + |source| <= |bytes| && at + size <= |bytes| && (at + size <= offset || offset + |source| <= at)
    ensures Splice(bytes, offset, source)[at..at + size] == bytes[at..at + size]
  {}

  // ---------------------------------------------------------------- a chain of checkpoints

  /** A sound record that leads from `now` back to `before`. */
  ghost predicate Leads(r: FrameRecord, before: Image, now: Image, from: nat) {
    forall u: int :: Folded(LeadsMark, u) ==> Sound(r, |now|) && Undoes(r, before, now, from)
  }

  lemma Opened(r: FrameRecord, before: Image, now: Image, from: nat)
    requires Leads(r, before, now, from)
    ensures Sound(r, |now|) && Undoes(r, before, now, from)
  {
    assert Folded(LeadsMark, 0);
  }

  lemma LeadsSameLength(r: FrameRecord, before: Image, now: Image, from: nat)
    requires Leads(r, before, now, from)
    ensures |before| == |now| && Indexed(r.blocks, r.root) && |r.blocks| < NO_BLOCK && r.byteSize <= |r.bytes|
  {
    assert Folded(LeadsMark, 0);
  }

  /** `snapshots[i]` is the memory when checkpoint `i` began: each record leads from the state after
      it back to the state before it, and the frame ranges ascend. */
  ghost predicate Chain(rs: seq<FrameRecord>, snapshots: seq<Image>, now: Image, from: nat)
    decreases |rs|
  {
    if rs == [] then snapshots == [] else
      var n := |rs| - 1;
      && |snapshots| == |rs|
      && Leads(rs[n], snapshots[n], now, from)
      && rs[n].startFrame <= rs[n].endFrame
      && (n > 0 ==> rs[n - 1].endFrame < rs[n].startFrame)
      && Chain(rs[..n], snapshots[..n], snapshots[n], NO_BLOCK)
  }

  lemma {:induction false} ChainAt(rs: seq<FrameRecord>, snapshots: seq<Image>, now: Image, from: nat, k: nat)
    requires Chain(rs, snapshots, now, from) && k < |rs|
    ensures |snapshots| == |rs| && |snapshots[k]| == |now|
    ensures Indexed(rs[k].blocks, rs[k].root) && |rs[k].blocks| < NO_BLOCK
    decreases |rs|
  {
    var n := |rs| - 1;
    LeadsSameLength(rs[n], snapshots[n], now, from);
    if k < n { ChainAt(rs[..n], snapshots[..n], snapshots[n], NO_BLOCK, k); }
  }

  lemma {:induction false} ChainAscends(rs: seq<FrameRecord>, snapshots: seq<Image>, now: Image, from: nat, k: nat)
    requires Chain(rs, snapshots, now, from) && k < |rs|
    ensures rs[k].startFrame <= rs[k].endFrame && forall j :: 0 <= j < k ==> rs[j].endFrame < rs[k].startFrame
    decreases |rs|
  {
    var n := |rs| - 1;
    if n > 0 {
      ChainAscends(rs[..n], snapshots[..n], snapshots[n], NO_BLOCK, if k < n then k else n - 1);
    }
  }

  /** The oldest checkpoint may be forgotten. */
  lemma {:induction false} ChainDropsOldest(rs: seq<FrameRecord>, snapshots: seq<Image>, now: Image, from: nat)
    requires Chain(rs, snapshots, now, from) && rs != []
    ensures |snapshots| == |rs| && Chain(rs[1..], snapshots[1..], now, from)
    decreases |rs|
  {
    var n := |rs| - 1;
    if n > 0 {
      ChainDropsOldest(rs[..n], snapshots[..n], snapshots[n], NO_BLOCK);
      assert rs[1..][..n - 1] == rs[..n][1..] && snapshots[1..][..n - 1] == snapshots[..n][1..];
    }
  }

  lemma TailOfTail<T>(s: seq<T>, k: nat)
    requires 0 < k <= |s|
    ensures s[k - 1..] != [] && s[k - 1..][1..] == s[k..]
  {}

  lemma {:induction false} ChainDrops(rs: seq<FrameRecord>, snapshots: seq<Image>, now: Image, from: nat, k: nat)
    requires Chain(rs, snapshots, now, from) && k <= |rs|
    ensures |snapshots| == |rs| && Chain(rs[k..], snapshots[k..], now, from)
  {
    if k == 0 {
      assert rs[0..] == rs && snapshots[0..] == snapshots;
    } else {
      ChainDrops(rs, snapshots, now, from, k - 1);
      TailOfTail(rs, k);
      TailOfTail(snapshots, k);
      ChainDropsOldest(rs[k - 1..], snapshots[k - 1..], now, from);
    }
  }

  /** Replacing the newest record by one that leads back to the same snapshot. */
  lemma ChainSetLast(rs: seq<FrameRecord>, snapshots: seq<Image>, now: Image, from: nat, r: FrameRecord, now': Image,
      from': nat)
    requires Chain(rs, snapshots, now, from) && rs != []
    requires Leads(r, snapshots[|rs| - 1], now', from')
    requires r.startFrame == rs[|rs| - 1].startFrame && rs[|rs| - 1].endFrame <= r.endFrame
    ensures Chain(rs[..|rs| - 1] + [r], snapshots, now', from')
  {
    assert (rs[..|rs| - 1] + [r])[..|rs| - 1] == rs[..|rs| - 1];
  }

  /** Beginning a checkpoint: a fresh record undoes nothing, whatever its arena still holds. */
  lemma ChainBegins(rs: seq<FrameRecord>, snapshots: seq<Image>, now: Image, from: nat, r: FrameRecord)
    requires Chain(rs, snapshots, now, NO_BLOCK)
    requires r.blocks == [] && r.root == NO_BLOCK && r.byteSize == 0 && r.startFrame == r.endFrame
    requires rs != [] ==> rs[|rs| - 1].endFrame < r.startFrame
    ensures Chain(rs + [r], snapshots + [now], now, from)
  {
    FreshRecord(r, now, from);
    var rs', snapshots' := rs + [r], snapshots + [now];
    assert rs'[..|rs|] == rs && rs'[|rs|] == r && snapshots'[..|rs|] == snapshots && snapshots'[|rs|] == now;
  }

  lemma FreshRecord(r: FrameRecord, now: Image, from: nat)
    requires r.blocks == [] && r.root == NO_BLOCK && r.byteSize == 0
    ensures Leads(r, now, now, from)
  {
    EmptyIsIndexed(r.blocks);
  }

  lemma ChainExtended(rs: seq<FrameRecord>, snapshots: seq<Image>, now: Image, r: FrameRecord)
    requires Chain(rs, snapshots, now, NO_BLOCK) && rs != []
    requires r == rs[|rs| - 1].(endFrame := r.endFrame) && rs[|rs| - 1].endFrame <= r.endFrame
    ensures Chain(rs[..|rs| - 1] + [r], snapshots, now, NO_BLOCK)
  {
    var last, before := rs[|rs| - 1], snapshots[|rs| - 1];
    Opened(last, before, now, NO_BLOCK);
    assert forall a :: Covers(r, a) == Covers(last, a);
    assert Undoes(r, before, now, NO_BLOCK) by {
      forall k | 0 <= k < |r.blocks| ensures Kept(last, k, before) ==> Kept(r, k, before) {}
    }
    ChainSetLast(rs, snapshots, now, NO_BLOCK, r, now, NO_BLOCK);
  }

  /** A write to memory the newest checkpoint covers. */
  lemma ChainAfterWrite(rs: seq<FrameRecord>, snapshots: seq<Image>, now: Image, a: nat, v: bv8)
    requires Chain(rs, snapshots, now, NO_BLOCK) && a < |now| && (rs != [] ==> Covers(rs[|rs| - 1], a))
    ensures Chain(rs, snapshots, now[a := v], NO_BLOCK)
  {
    if rs != [] {
      var last, before := rs[|rs| - 1], snapshots[|rs| - 1];
      Opened(last, before, now, NO_BLOCK);
      LeadsSameLength(last, before, now, NO_BLOCK);
      UndoesAfterWrite(last, before, now, NO_BLOCK, a, v);
    }
  }

  /** Every accepted block leaves the newest record on its chain. */
  lemma ChainAfterTouch(rs: seq<FrameRecord>, snapshots: seq<Image>, now: Image, from: nat, r: FrameRecord, from': nat,
                        start: nat, size: nat)
    requires Chain(rs, snapshots, now, from) && rs != [] && Extends(rs[|rs| - 1], r, start, size)
    requires Indexed(r.blocks, r.root) && r.startFrame == rs[|rs| - 1].startFrame && r.endFrame == rs[|rs| - 1].endFrame
    requires 0 < start && 0 < size && start + size <= |now|
    requires AllApart(rs[|rs| - 1].blocks, start, size)
    requires (size >= LARGE && from' <= |rs[|rs| - 1].blocks|)
      || r.bytes[rs[|rs| - 1].byteSize..r.byteSize] == now[start..start + size]
    requires from' == from || (|rs[|rs| - 1].blocks| <= from' && LargeBlocks(rs[|rs| - 1].blocks, from) == 0)
    ensures Chain(rs[..|rs| - 1] + [r], snapshots, now, from')
  {
    var last, before := rs[|rs| - 1], snapshots[|rs| - 1];
    Opened(last, before, now, from);
    if from' != from { NoLarge(last.blocks, from); }
    SoundAfterTouch(last, r, |now|, start, size);
    UndoesAfterTouch(last, r, before, now, from, from', start, size);
    ChainSetLast(rs, snapshots, now, from, r, now, from');
  }

  lemma ChainAfterGrowth(rs: seq<FrameRecord>, snapshots: seq<Image>, now: Image, r: FrameRecord)
    requires Chain(rs, snapshots, now, NO_BLOCK) && rs != [] && r == rs[|rs| - 1].(bytes := r.bytes)
    requires rs[|rs| - 1].byteSize <= |rs[|rs| - 1].bytes| <= |r.bytes|
    requires r.bytes[..r.byteSize] == rs[|rs| - 1].bytes[..r.byteSize]
    ensures Chain(rs[..|rs| - 1] + [r], snapshots, now, NO_BLOCK)
  {
    var last, before := rs[|rs| - 1], snapshots[|rs| - 1];
    Opened(last, before, now, NO_BLOCK);
    LeadsSameLength(last, before, now, NO_BLOCK);
    UndoesAfterGrowth(last, r, before, now, NO_BLOCK);
    ChainSetLast(rs, snapshots, now, NO_BLOCK, r, now, NO_BLOCK);
  }

  /** Nothing is outstanding from `from` on: any later mark does as well. */
  lemma ChainSettled(rs: seq<FrameRecord>, snapshots: seq<Image>, now: Image, from: nat, from': nat)
    requires Chain(rs, snapshots, now, from) && rs != []
    requires LargeBlocks(rs[|rs| - 1].blocks, from) == 0 && LargeBlocks(rs[|rs| - 1].blocks, from') == 0
    ensures Chain(rs, snapshots, now, from') && LargeBytes(rs[|rs| - 1].blocks, from) == 0
  {
    var last, before := rs[|rs| - 1], snapshots[|rs| - 1];
    Opened(last, before, now, from);
    NoLarge(last.blocks, from);
    NothingOutstanding(last, before, now, from, from');
  }

  lemma LeadsAfterCopy(r: FrameRecord, before: Image, now: Image, k: nat)
    requires Leads(r, before, now, k) && k < |r.blocks|
    ensures Fits(r, k, |now|)
    ensures r.blocks[k].size < LARGE ==> Leads(r, before, now, k + 1)
    ensures var b := r.blocks[k]; b.size >= LARGE ==>
      Leads(r.(bytes := Splice(r.bytes, b.offset, now[b.address..b.End()])), before, now, k + 1)
  {
    Opened(r, before, now, k);
    SoundFits(r, |now|);
    var b := r.blocks[k];
    if b.size >= LARGE {
      UndoesAfterCopy(r, r.(bytes := Splice(r.bytes, b.offset, now[b.address..b.End()])), before, now, k);
    }
  }

  // ---------------------------------------------------------------- outstanding copies

  /** How many blocks from position `from` on are large, and their bytes. */
  function LargeBlocks(blocks: seq<Block>, from: nat): nat {
    if |blocks| <= from then 0 else
      (if blocks[|blocks| - 1].size >= LARGE then 1 else 0) + LargeBlocks(blocks[..|blocks| - 1], from)
  }

  function LargeBytes(blocks: seq<Block>, from: nat): nat {
    if |blocks| <= from then 0 else
      (if blocks[|blocks| - 1].size >= LARGE then blocks[|blocks| - 1].size else 0) + LargeBytes(blocks[..|blocks| - 1],
          from)
  }

  lemma {:induction false} LargeSame(blocks: seq<Block>, blocks': seq<Block>, from: nat)
    requires SameRanges(blocks, blocks') && |blocks| == |blocks'|
    ensures LargeBlocks(blocks, from) == LargeBlocks(blocks', from)
      && LargeBytes(blocks, from) == LargeBytes(blocks', from)
  {
    if |blocks| > from { LargeSame(blocks[..|blocks| - 1], blocks'[..|blocks| - 1], from); }
  }

  lemma {:induction false} NoLarge(blocks: seq<Block>, from: nat)
    requires LargeBlocks(blocks, from) == 0
    ensures forall k :: from <= k < |blocks| ==> blocks[k].size < LARGE
    ensures LargeBytes(blocks, from) == 0
  {
    if |blocks| > from {
      NoLarge(blocks[..|blocks| - 1], from);
      assert forall k :: from <= k < |blocks| - 1 ==> blocks[k] == blocks[..|blocks| - 1][k];
    }
  }

  lemma NothingOutstanding(r: FrameRecord, before: Image, now: Image, from: nat, from': nat)
    requires Undoes(r, before, now, from) && LargeBlocks(r.blocks, from) == 0 && LargeBlocks(r.blocks, from') == 0
    ensures Undoes(r, before, now, from')
  {
    NoLarge(r.blocks, from);
    NoLarge(r.blocks, from');
  }

  /** The first record whose frame range holds `frame`, or the length if there is none. */
  function Containing(rs: seq<FrameRecord>, frame: nat): (i: nat)
    ensures i <= |rs| && (i < |rs| ==> rs[i].startFrame <= frame <= rs[i].endFrame)
    ensures forall j :: 0 <= j < i ==> !(rs[j].startFrame <= frame <= rs[j].endFrame)
  {
    if rs == [] then 0
    else
      var front := Containing(rs[..|rs| - 1], frame);
      if front < |rs| - 1 then front
      else if rs[|rs| - 1].startFrame <= frame <= rs[|rs| - 1].endFrame then |rs| - 1 else |rs|
  }

  lemma ContainingIsFirst(rs: seq<FrameRecord>, frame: nat, index: nat)
    requires index <= |rs| && (index < |rs| ==> rs[index].startFrame <= frame <= rs[index].endFrame)
    requires forall j :: 0 <= j < index ==> !(rs[j].startFrame <= frame <= rs[j].endFrame)
    ensures index == Containing(rs, frame)
  {
    var i := Containing(rs, frame);
    if index < i { assert rs[index].startFrame <= frame <= rs[index].endFrame; }
  }

  function ByteSizes(rs: seq<FrameRecord>): nat {
    if rs == [] then 0 else ByteSizes(rs[1..]) + rs[0].byteSize
  }

  // ---------------------------------------------------------------- undoing

  /** Some checkpoint in [lo, hi) has recorded address `a`. */
  ghost predicate CoveredIn(rs: seq<FrameRecord>, lo: nat, hi: nat, a: int) {
    exists e :: lo <= e < hi && e < |rs| && Covers(rs[e], a)
  }

  /** Some checkpoint in [lo, hi) has one block around the whole range. */
  ghost predicate EnclosedIn(rs: seq<FrameRecord>, lo: nat, hi: nat, start: nat, size: nat) {
    exists e, i :: lo <= e < hi && e < |rs| && 0 <= i < |rs[e].blocks| && rs[e].blocks[i].Encloses(start, size)
  }

  /** The memory equals `s`, except where an older checkpoint in [t, n) will still write. */
  ghost predicate Agrees(memory: Image, s: Image, rs: seq<FrameRecord>, t: nat, n: nat) {
    |memory| == |s| && forall a :: 0 <= a < |s| ==> memory[a] == s[a] || CoveredIn(rs, t, n, a)
  }

  ghost predicate CoveredBelow(r: FrameRecord, done: nat, a: int) {
    exists i :: 0 <= i < done && i < |r.blocks| && r.blocks[i].Contains(a)
  }

  /** Record `k` has been restored down to block `done`. */
  ghost predicate Progress(rs: seq<FrameRecord>, t: nat, k: nat, before: Image, memory: Image, done: nat) {
    forall u: int :: Folded(ProgressMark, u) ==>
      && k < |rs| && |memory| == |before|
      && forall a :: 0 <= a < |before| && !CoveredBelow(rs[k], done, a) ==>
         memory[a] == before[a] || CoveredIn(rs, t, k, a)
  }

  lemma ProgressStarts(rs: seq<FrameRecord>, t: nat, k: nat, before: Image, after: Image, memory: Image)
    requires k < |rs| && Undoes(rs[k], before, after, NO_BLOCK) && Agrees(memory, after, rs, t, k + 1)
    ensures Progress(rs, t, k, before, memory, |rs[k].blocks|)
  {
    forall a | 0 <= a < |before| && !CoveredBelow(rs[k], |rs[k].blocks|, a)
      ensures memory[a] == before[a] || CoveredIn(rs, t, k, a)
    {
      assert !Covers(rs[k], a);
      if CoveredIn(rs, t, k + 1, a) { assert CoveredIn(rs, t, k, a); }
    }
  }

  lemma ProgressEnds(rs: seq<FrameRecord>, t: nat, k: nat, before: Image, memory: Image)
    requires Progress(rs, t, k, before, memory, 0)
    ensures Agrees(memory, before, rs, t, k)
  {
    assert Folded(ProgressMark, 0);
    assert forall a :: !CoveredBelow(rs[k], 0, a);
  }

  /** Every block of the record holds what `before` had in its range. */
  ghost predicate Restorable(r: FrameRecord, before: Image) {
    forall u: int :: Folded(RestorableMark, u) ==>
      forall k :: 0 <= k < |r.blocks| ==> Kept(r, k, before) && 0 < r.blocks[k].size
  }

  lemma RestorableAt(r: FrameRecord, before: Image, k: nat)
    requires Restorable(r, before) && k < |r.blocks|
    ensures 0 < r.blocks[k].size && r.blocks[k].offset + r.blocks[k].size <= |r.bytes| && r.blocks[k].End() <= |before|
  {
    assert Folded(RestorableMark, 0);
  }

  lemma ProgressLength(rs: seq<FrameRecord>, t: nat, k: nat, before: Image, memory: Image, done: nat)
    requires Progress(rs, t, k, before, memory, done)
    ensures |memory| == |before|
  {
    assert Folded(ProgressMark, 0);
  }

  lemma ProgressByCopy(rs: seq<FrameRecord>, t: nat, k: nat, before: Image, memory: Image, done: nat, restored: Image)
    requires Progress(rs, t, k, before, memory, done + 1) && k < |rs| && done < |rs[k].blocks|
      && Restorable(rs[k], before)
    requires var b := rs[k].blocks[done];
      && b.offset + b.size <= |rs[k].bytes| && b.End() <= |memory|
      && restored == Splice(memory, b.address, rs[k].bytes[b.offset..b.offset + b.size])
    ensures Progress(rs, t, k, before, restored, done)
  {
    assert Folded(ProgressMark, 0) && Folded(RestorableMark, 0);
    var b := rs[k].blocks[done];
    assert restored == Splice(memory, b.address, before[b.address..b.End()]);
    forall a | 0 <= a < |before| && !CoveredBelow(rs[k], done, a)
      ensures restored[a] == before[a] || CoveredIn(rs, t, k, a)
    {
      if !b.Contains(a) { assert !CoveredBelow(rs[k], done + 1, a); }
    }
  }

  lemma ProgressBySkip(rs: seq<FrameRecord>, t: nat, k: nat, before: Image, memory: Image, done: nat)
    requires Progress(rs, t, k, before, memory, done + 1) && k < |rs| && done < |rs[k].blocks|
    requires EnclosedIn(rs, t, k, rs[k].blocks[done].address, rs[k].blocks[done].size)
    ensures Progress(rs, t, k, before, memory, done)
  {
    assert Folded(ProgressMark, 0);
    var b := rs[k].blocks[done];
    var e, i :| t <= e < k && e < |rs| && 0 <= i < |rs[e].blocks| && rs[e].blocks[i].Encloses(b.address, b.size);
    forall a | 0 <= a < |before| && !CoveredBelow(rs[k], done, a)
      ensures memory[a] == before[a] || CoveredIn(rs, t, k, a)
    {
      if b.Contains(a) { assert rs[e].blocks[i].Contains(a); assert Covers(rs[e], a); }
      else { assert !CoveredBelow(rs[k], done + 1, a); }
    }
  }

  /** The undo has reached checkpoint `n`: the older ones still form a chain below `after`, and the
      memory is `after` up to what those from `t` on will write. */
  ghost predicate Undoing(rs: seq<FrameRecord>, snapshots: seq<Image>, t: nat, n: nat, after: Image, memory: Image) {
    forall u: int :: Folded(UndoingMark, u) ==>
      n <= |rs| == |snapshots| && Chain(rs[..n], snapshots[..n], after, NO_BLOCK) && Agrees(memory, after, rs, t, n)
  }

  lemma UndoingStarts(rs: seq<FrameRecord>, snapshots: seq<Image>, t: nat, memory: Image)
    requires Chain(rs, snapshots, memory, NO_BLOCK)
    ensures Undoing(rs, snapshots, t, |rs|, memory, memory)
  {
    assert rs[..|rs|] == rs && snapshots[..|rs|] == snapshots;
  }

  lemma UndoingRecord(rs: seq<FrameRecord>, snapshots: seq<Image>, t: nat, n: nat, after: Image, memory: Image)
    requires Undoing(rs, snapshots, t, n + 1, after, memory)
    ensures n < |rs| == |snapshots| && Progress(rs, t, n, snapshots[n], memory, |rs[n].blocks|)
    ensures Chain(rs[..n], snapshots[..n], snapshots[n], NO_BLOCK) && rs[n].byteSize == Total(rs[n].blocks)
    ensures Restorable(rs[n], snapshots[n])
  {
    assert Folded(UndoingMark, 0);
    assert rs[..n + 1][..n] == rs[..n] && snapshots[..n + 1][..n] == snapshots[..n];
    assert rs[..n + 1][n] == rs[n] && snapshots[..n + 1][n] == snapshots[n];
    Opened(rs[n], snapshots[n], after, NO_BLOCK);
    LeadsSameLength(rs[n], snapshots[n], after, NO_BLOCK);
    PackedTotal(rs[n].blocks, rs[n].byteSize);
    ProgressStarts(rs, t, n, snapshots[n], after, memory);
  }

  lemma UndoingNext(rs: seq<FrameRecord>, snapshots: seq<Image>, t: nat, n: nat, memory: Image)
    requires n < |rs| == |snapshots| && Progress(rs, t, n, snapshots[n], memory, 0)
    requires Chain(rs[..n], snapshots[..n], snapshots[n], NO_BLOCK)
    ensures Undoing(rs, snapshots, t, n, snapshots[n], memory)
  {
    ProgressEnds(rs, t, n, snapshots[n], memory);
  }

  lemma UndoingEnds(rs: seq<FrameRecord>, snapshots: seq<Image>, t: nat, after: Image, memory: Image)
    requires Undoing(rs, snapshots, t, t, after, memory)
    ensures memory == after && t <= |rs| == |snapshots| && Chain(rs[..t], snapshots[..t], after, NO_BLOCK)
  {
    assert Folded(UndoingMark, 0);
    assert forall a :: !CoveredIn(rs, t, t, a);
  }
}
