/** The state of the rollback journal as a value, its steps, and what every step keeps. */
module JournalState {
  import opened BlockIndex
  import opened Folding
  import opened Memory
  import opened JournalRecord
  import Ring

  const MAX_ADDRESS: nat := 0xFFFF_FFFF_FFFF_FFFF
  const FIRST_ARENA: nat := 262144

  datatype Config = Config(maxFrames: nat, maxBytesPerFrame: nat, maxBlocksPerFrame: nat, coalesceRestore: bool)
  {
    predicate Usable() {
      maxFrames != 0 && maxBytesPerFrame != 0 && 0 < maxBlocksPerFrame < NO_BLOCK
    }
  }

  /** Lifetime totals of read-only capture windows. */
  datatype CaptureStats = CaptureStats(
    scopes: nat, deferredBlocks: nat, deferredBytes: nat, copiedBlocks: nat, copiedBytes: nat,
    flushes: nat, maxBlocksPerFlush: nat)

  const NO_STATS := CaptureStats(0, 0, 0, 0, 0, 0, 0)

  /** The deferred copies of an open read-only capture window. */
  datatype Window = Window(open: bool, firstBlock: nat, pendingBlocks: nat, pendingBytes: nat, stats: CaptureStats)

  datatype Journal = Journal(
    config: Config, frames: seq<FrameRecord>, firstFrame: nat, frameCount: nat,
    configured: bool, frameOpen: bool, failed: bool, openFrame: nat, window: Window)
  {
    predicate RingOk() {
      frameCount <= |frames| && (frames != [] ==> firstFrame < |frames|)
    }

    /** The retained checkpoints, oldest first. */
    function Records(): (rs: seq<FrameRecord>)
      requires RingOk()
      ensures |rs| == frameCount
    {
      if frames == [] then [] else Ring.View(frames, firstFrame, frameCount)
    }

    function Newest(): FrameRecord
      requires RingOk() && frameCount > 0
    {
      frames[Ring.Slot(firstFrame + frameCount - 1, |frames|)]
    }

    function WithNewest(r: FrameRecord): Journal
      requires RingOk() && frameCount > 0
    {
      this.(frames := frames[Ring.Slot(firstFrame + frameCount - 1, |frames|) := r])
    }

    /** Large blocks of the newest checkpoint from here on still wait for their copy. */
    function From(): nat { if window.open then window.firstBlock else NO_BLOCK }
  }

  ghost predicate CountsAgree(j: Journal)
    requires j.RingOk() && (j.window.open ==> j.frameCount > 0)
  {
    && (if j.window.open then
          && j.window.firstBlock <= |j.Newest().blocks|
          && j.window.pendingBlocks == LargeBlocks(j.Newest().blocks, j.window.firstBlock)
          && j.window.pendingBytes == LargeBytes(j.Newest().blocks, j.window.firstBlock)
        else j.window.pendingBlocks == j.window.pendingBytes == 0)
    && j.window.stats.deferredBlocks == j.window.stats.copiedBlocks + j.window.pendingBlocks
    && j.window.stats.deferredBytes == j.window.stats.copiedBytes + j.window.pendingBytes
  }

  predicate Basic(j: Journal) {
    && j.RingOk()
    && (j.configured <==> j.frames != [])
    && (j.configured ==> j.config.Usable() && |j.frames| == j.config.maxFrames)
    && (j.window.open ==> j.frameOpen) && (j.frameOpen ==> j.frameCount > 0)
    && (j.window.pendingBlocks != 0 ==> j.window.open)
  }

  ghost predicate Shape(j: Journal) { Basic(j) && CountsAgree(j) }

  ghost predicate Shapely(j: Journal) { forall u: int :: Folded(ShapelyMark, u) ==> Shape(j) }

  /** What every step keeps. `snapshots[i]` is the memory at the start of checkpoint `i`. */
  ghost predicate Good(j: Journal, snapshots: seq<Image>, memory: Image) {
    Shape(j) && Chain(j.Records(), snapshots, memory, j.From())
  }

  /** The same, folded: steps pass it on whole, and only `Release` opens it. */
  ghost predicate Held(j: Journal, snapshots: seq<Image>, memory: Image) {
    forall u: int :: Folded(HeldMark, u) ==> Good(j, snapshots, memory)
  }

  lemma Release(j: Journal, snapshots: seq<Image>, memory: Image)
    requires Held(j, snapshots, memory)
    ensures Good(j, snapshots, memory)
  {
    assert Folded(HeldMark, 0);
  }

  lemma HeldWith(j: Journal, rs: seq<FrameRecord>, snapshots: seq<Image>, memory: Image)
    requires Shapely(j) && j.RingOk() && j.Records() == rs && Chain(rs, snapshots, memory, j.From())
    ensures Held(j, snapshots, memory)
  {
    assert Folded(ShapelyMark, 0);
  }

  lemma OneSnapshotEach(j: Journal, snapshots: seq<Image>, memory: Image)
    requires Held(j, snapshots, memory)
    ensures j.RingOk() && |snapshots| == j.frameCount
  {
    Release(j, snapshots, memory);
  }

  lemma NewestIsLast(j: Journal, r: FrameRecord)
    requires j.RingOk() && j.frameCount > 0
    ensures j.Newest() == j.Records()[j.frameCount - 1]
    ensures j.WithNewest(r).Records() == j.Records()[..j.frameCount - 1] + [r]
    ensures j.WithNewest(r).Newest() == r
  {
    Ring.SetBack(j.frames, j.firstFrame, j.frameCount, r);
  }

  // ---------------------------------------------------------------- reset and clear

  function EmptyRecord(frame: nat, bytes: Image): FrameRecord {
    FrameRecord(frame, frame, bytes, 0, [], NO_BLOCK)
  }

  function Cleared(j: Journal, memory: Image): Journal
    requires Basic(j)
  {
    Journal(j.config, [], 0, 0, false, false, false, 0, Window(false, 0, 0, 0, Flushed(j, memory).window.stats))
  }

  /** A journal without checkpoints holds whatever the memory is. */
  lemma EmptyKeeps(j: Journal, memory: Image)
    requires Basic(j) && j.frameCount == 0 && j.window.pendingBytes == 0
    requires j.window.stats.deferredBlocks == j.window.stats.copiedBlocks
    requires j.window.stats.deferredBytes == j.window.stats.copiedBytes
    ensures Held(j, [], memory)
  {}

  lemma ClearKeeps(j: Journal, snapshots: seq<Image>, memory: Image)
    requires Basic(j) && Held(j, snapshots, memory)
    ensures Held(Cleared(j, memory), [], memory)
  {
    Release(j, snapshots, memory);
    FlushedIsGood(j, snapshots, memory);
    EmptyKeeps(Cleared(j, memory), memory);
  }

  // ---------------------------------------------------------------- beginning a checkpoint

  predicate MayExtend(j: Journal, frame: nat)
    requires j.RingOk()
  {
    j.frameCount > 0 && j.Newest().endFrame != MAX_FRAME && frame == j.Newest().endFrame + 1
  }

  predicate MayStart(j: Journal, frame: nat)
    requires j.RingOk()
  {
    j.frameCount > 0 ==> j.Newest().endFrame < frame
  }

  /** The next slot of the ring takes the new checkpoint; in a full ring that is the oldest one's. */
  function Started(j: Journal, frame: nat): Journal
    requires j.RingOk() && j.frames != []
  {
    var full := j.frameCount == |j.frames|;
    var slot := if full then j.firstFrame else Ring.Slot(j.firstFrame + j.frameCount, |j.frames|);
    j.(frames := j.frames[slot := EmptyRecord(frame, j.frames[slot].bytes)],
       firstFrame := if full then Ring.Slot(j.firstFrame + 1, |j.frames|) else j.firstFrame,
       frameCount := if full then j.frameCount else j.frameCount + 1,
       frameOpen := true, openFrame := frame)
  }

  function Begun(j: Journal, frame: nat, extendPrevious: bool): Journal
    requires Basic(j)
  {
    if !j.configured || j.frameOpen || j.failed then j
    else if extendPrevious then
      if MayExtend(j, frame) then j.WithNewest(j.Newest().(endFrame := frame)).(frameOpen := true, openFrame := frame)
      else j.(failed := true)
    else if MayStart(j, frame) then Started(j, frame)
    else j.(failed := true)
  }

  predicate Begins(j: Journal, frame: nat, extendPrevious: bool)
    requires j.RingOk()
  {
    j.configured && !j.frameOpen && !j.failed && (if extendPrevious then MayExtend(j, frame) else MayStart(j, frame))
  }

  /** How many of the oldest checkpoints a new one displaces. */
  function Displaced(j: Journal): nat { if j.frameCount == |j.frames| then 1 else 0 }

  function SnapshotsBegun(j: Journal, snapshots: seq<Image>, memory: Image, frame: nat,
      extendPrevious: bool): seq<Image>
    requires j.RingOk()
  {
    if !extendPrevious && Begins(j, frame, extendPrevious) && Displaced(j) <= |snapshots| then
      snapshots[Displaced(j)..] + [memory]
    else snapshots
  }

  lemma StartedRecords(j: Journal, frame: nat)
    requires j.RingOk() && j.frames != []
    ensures Started(j, frame).RingOk() && Started(j, frame).frameCount > 0
    ensures var r := Started(j, frame).Newest();
      r == EmptyRecord(frame, r.bytes) && Started(j, frame).Records() == j.Records()[Displaced(j)..] + [r]
  {
    var s := Started(j, frame);
    Ring.Renew(j.frames, j.firstFrame, j.frameCount, s.Newest(), s.frames, s.firstFrame, s.frameCount);
  }

  lemma ExtendedIsGood(j: Journal, snapshots: seq<Image>, memory: Image, frame: nat)
    requires Good(j, snapshots, memory) && Begins(j, frame, true)
    ensures Good(Begun(j, frame, true), snapshots, memory)
  {
    var r := j.Newest().(endFrame := frame);
    NewestIsLast(j, r);
    ChainExtended(j.Records(), snapshots, memory, r);
    var begun := Begun(j, frame, true);
    assert begun.Records() == j.WithNewest(r).Records() && begun.Newest() == r;
  }

  lemma StartedChain(rs: seq<FrameRecord>, snapshots: seq<Image>, memory: Image, r: FrameRecord, displaced: nat)
    requires Chain(rs, snapshots, memory, NO_BLOCK) && displaced <= 1 && displaced <= |rs|
    requires r == EmptyRecord(r.startFrame, r.bytes) && (rs != [] ==> rs[|rs| - 1].endFrame < r.startFrame)
    ensures displaced <= |snapshots|
      && Chain(rs[displaced..] + [r], snapshots[displaced..] + [memory], memory, NO_BLOCK)
  {
    if displaced == 1 {
      ChainDropsOldest(rs, snapshots, memory, NO_BLOCK);
    } else {
      assert rs[0..] == rs && snapshots[0..] == snapshots;
    }
    ChainBegins(rs[displaced..], snapshots[displaced..], memory, NO_BLOCK, r);
  }

  lemma StartedShape(j: Journal, frame: nat)
    requires Shape(j) && Begins(j, frame, false)
    ensures Shapely(Started(j, frame)) && Started(j, frame).From() == NO_BLOCK
  {}

  lemma StartedIsGood(j: Journal, snapshots: seq<Image>, memory: Image, frame: nat)
    requires Good(j, snapshots, memory) && Begins(j, frame, false)
    ensures Displaced(j) <= |snapshots| && Held(Started(j, frame), snapshots[Displaced(j)..] + [memory], memory)
  {
    var r := Started(j, frame).Newest();
    StartedRecords(j, frame);
    if j.frameCount > 0 { NewestIsLast(j, j.Newest()); }
    StartedChain(j.Records(), snapshots, memory, r, Displaced(j));
    StartedShape(j, frame);
    HeldWith(Started(j, frame), j.Records()[Displaced(j)..] + [r], snapshots[Displaced(j)..] + [memory], memory);
  }

  /** Beginning, extending or refusing a checkpoint keeps the invariant; a new checkpoint remembers the
      memory of this moment. */
  lemma BeginKeeps(j: Journal, snapshots: seq<Image>, memory: Image, frame: nat, extendPrevious: bool)
    requires Basic(j) && Held(j, snapshots, memory)
    ensures Held(Begun(j, frame, extendPrevious), SnapshotsBegun(j, snapshots, memory, frame, extendPrevious), memory)
  {
    Release(j, snapshots, memory);
    if Begins(j, frame, extendPrevious) {
      if extendPrevious {
        ExtendedIsGood(j, snapshots, memory, frame);
      } else {
        StartedIsGood(j, snapshots, memory, frame);
      }
    }
  }

  /** Exactly when a checkpoint can begin: a new one at any frame after all that are retained, an extension only at
      the very next frame of the newest; any other frame fails the journal. */
  lemma BeginsExactly(j: Journal, snapshots: seq<Image>, memory: Image, frame: nat, extendPrevious: bool)
    requires Basic(j) && Held(j, snapshots, memory) && j.configured && !j.frameOpen && !j.failed && frame <= MAX_FRAME
    ensures var rs := j.Records();
      Begins(j, frame, extendPrevious)
      == if extendPrevious then rs != [] && frame == rs[|rs| - 1].endFrame + 1
         else forall i :: 0 <= i < |rs| ==> rs[i].endFrame < frame
    ensures Begun(j, frame, extendPrevious).failed == !Begins(j, frame, extendPrevious)
    ensures Begins(j, frame, extendPrevious) ==>
      Begun(j, frame, extendPrevious).frameOpen && Begun(j, frame, extendPrevious).openFrame == frame
  {
    Release(j, snapshots, memory);
    if j.frameCount > 0 {
      NewestIsLast(j, j.Newest());
      FramesAscend(j.Records(), snapshots, memory, j.From());
    }
  }

  lemma FramesAscend(rs: seq<FrameRecord>, snapshots: seq<Image>, memory: Image, from: nat)
    requires Chain(rs, snapshots, memory, from) && rs != []
    ensures forall i :: 0 <= i < |rs| ==> rs[i].endFrame <= rs[|rs| - 1].endFrame
  {
    ChainAscends(rs, snapshots, memory, from, |rs| - 1);
  }

  // ---------------------------------------------------------------- read-only capture

  function CaptureBegun(j: Journal): Journal
    requires Basic(j)
  {
    if !j.frameOpen || j.failed || j.window.open then j
    else j.(window := Window(true, |j.Newest().blocks|, 0, 0, j.window.stats.(scopes := j.window.stats.scopes + 1)))
  }

  lemma CaptureBeginKeeps(j: Journal, snapshots: seq<Image>, memory: Image)
    requires Basic(j) && Held(j, snapshots, memory)
    ensures Held(CaptureBegun(j), snapshots, memory)
  {
    if j.frameOpen && !j.failed && !j.window.open {
      CaptureBegunShape(j, snapshots, memory);
      HeldWith(CaptureBegun(j), j.Records(), snapshots, memory);
    }
  }

  lemma CaptureBegunShape(j: Journal, snapshots: seq<Image>, memory: Image)
    requires Basic(j) && Held(j, snapshots, memory) && j.frameOpen && !j.failed && !j.window.open
    ensures Shapely(CaptureBegun(j)) && CaptureBegun(j).Records() == j.Records()
    ensures Chain(j.Records(), snapshots, memory, CaptureBegun(j).From())
  {
    SettledFrom(j, snapshots, memory, |j.Newest().blocks|);
    CaptureBegunView(j, CaptureBegun(j));
  }

  lemma CaptureBegunView(j: Journal, c: Journal)
    requires Basic(j) && Shapely(j) && j.frameOpen && !j.failed && !j.window.open && c == CaptureBegun(j)
    ensures Shapely(c) && c.Records() == j.Records() && c.From() == |j.Newest().blocks|
  {
    assert Folded(ShapelyMark, 0);
    assert c.Newest() == j.Newest();
  }

  /** With everything settled the newest checkpoint is right from any of its blocks on. */
  lemma SettledFrom(j: Journal, snapshots: seq<Image>, memory: Image, n: nat)
    requires Basic(j) && Held(j, snapshots, memory) && j.frameOpen && !j.window.open && n == |j.Newest().blocks|
    ensures Shapely(j) && Chain(j.Records(), snapshots, memory, n)
  {
    Release(j, snapshots, memory);
    NewestIsLast(j, j.Newest());
    ChainAt(j.Records(), snapshots, memory, NO_BLOCK, j.frameCount - 1);
    ChainSettled(j.Records(), snapshots, memory, NO_BLOCK, n);
  }

  /** Copying, in acceptance order, every large block from position `from` on. */
  function CopiedFrom(r: FrameRecord, memory: Image, from: nat): FrameRecord
    decreases |r.blocks| - from
  {
    if from >= |r.blocks| then r else
      var b := r.blocks[from];
      if b.size >= LARGE && b.End() <= |memory| && b.offset + b.size <= |r.bytes| then
        CopiedFrom(r.(bytes := Splice(r.bytes, b.offset, memory[b.address..b.End()])), memory, from + 1)
      else CopiedFrom(r, memory, from + 1)
  }

  function Flushed(j: Journal, memory: Image): Journal
    requires Basic(j)
  {
    if j.window.pendingBlocks == 0 then j else
      var w := j.window;
      j.WithNewest(CopiedFrom(j.Newest(), memory, w.firstBlock)).(window :=
        Window(true, |j.Newest().blocks|, 0, 0, w.stats.(
          flushes := w.stats.flushes + 1,
          copiedBlocks := w.stats.copiedBlocks + w.pendingBlocks,
          copiedBytes := w.stats.copiedBytes + w.pendingBytes,
          maxBlocksPerFlush := Max(w.stats.maxBlocksPerFlush, w.pendingBlocks))))
  }

  function CaptureEnded(j: Journal, memory: Image): Journal
    requires Basic(j)
  {
    if !j.window.open then j else var f := Flushed(j, memory); f.(window := f.window.(open := false))
  }

  lemma {:induction false} CopiedFromKeeps(r: FrameRecord, memory: Image, from: nat)
    ensures CopiedFrom(r, memory, from) == r.(bytes := CopiedFrom(r, memory, from).bytes)
    ensures |CopiedFrom(r, memory, from).bytes| == |r.bytes|
    decreases |r.blocks| - from
  {
    if from < |r.blocks| {
      var b := r.blocks[from];
      if b.size >= LARGE && b.End() <= |memory| && b.offset + b.size <= |r.bytes| {
        CopiedFromKeeps(r.(bytes := Splice(r.bytes, b.offset, memory[b.address..b.End()])), memory, from + 1);
      } else {
        CopiedFromKeeps(r, memory, from + 1);
      }
    }
  }

  /** After the copies every block of the record holds the bytes an immediate copy would have stored. */
  lemma {:induction false} CopiedFromLeads(r: FrameRecord, before: Image, memory: Image, from: nat)
    requires Leads(r, before, memory, from) && from <= |r.blocks|
    ensures Leads(CopiedFrom(r, memory, from), before, memory, |r.blocks|)
    decreases |r.blocks| - from
  {
    if from < |r.blocks| {
      LeadsAfterCopy(r, before, memory, from);
      var b := r.blocks[from];
      if b.size >= LARGE {
        CopiedFromLeads(r.(bytes := Splice(r.bytes, b.offset, memory[b.address..b.End()])), before, memory, from + 1);
      } else {
        CopiedFromLeads(r, before, memory, from + 1);
      }
    }
  }

  lemma {:induction false} CopiedFromKeepsEarlier(r: FrameRecord, memory: Image, from: nat, kept: nat)
    requires kept <= |r.bytes| && forall k :: from <= k < |r.blocks| ==> kept <= r.blocks[k].offset
    ensures |CopiedFrom(r, memory, from).bytes| == |r.bytes|
    ensures CopiedFrom(r, memory, from).bytes[..kept] == r.bytes[..kept]
    decreases |r.blocks| - from
  {
    if from < |r.blocks| {
      var b := r.blocks[from];
      if b.size >= LARGE && b.End() <= |memory| && b.offset + b.size <= |r.bytes| {
        CopiedFromKeepsEarlier(r.(bytes := Splice(r.bytes, b.offset, memory[b.address..b.End()])), memory, from + 1,
            kept);
      } else {
        CopiedFromKeepsEarlier(r, memory, from + 1, kept);
      }
    }
  }

  /** Blocks from before the window are never recopied: whatever the memory has become since, a flush leaves
      every arena byte of the blocks accepted before the window opened as it was. */
  lemma EarlierNotRecopied(j: Journal, snapshots: seq<Image>, memory: Image, later: Image)
    requires Held(j, snapshots, memory) && Basic(j) && j.window.pendingBlocks != 0
    ensures var r, first := j.Newest(), j.window.firstBlock;
      && first < |r.blocks| && r.blocks[first].offset <= |r.bytes| && |Flushed(j, later).Newest().bytes| == |r.bytes|
      && (forall k :: 0 <= k < first ==> r.blocks[k].offset + r.blocks[k].size <= r.blocks[first].offset)
      && Flushed(j, later).Newest().bytes[..r.blocks[first].offset] == r.bytes[..r.blocks[first].offset]
  {
    Release(j, snapshots, memory);
    var r, first := j.Newest(), j.window.firstBlock;
    NewestIsLast(j, CopiedFrom(r, later, first));
    ChainAt(j.Records(), snapshots, memory, first, j.frameCount - 1);
    Opened(r, snapshots[j.frameCount - 1], memory, first);
    PackedApart(r.blocks, r.byteSize);
    CopiedFromKeepsEarlier(r, later, first, r.blocks[first].offset);
  }

  /** A flush counts what it copied, and remembers the largest one. */
  lemma FlushCounts(j: Journal, memory: Image)
    requires Basic(j) && j.window.pendingBlocks != 0
    ensures var s, s' := j.window.stats, Flushed(j, memory).window.stats;
      && s'.flushes == s.flushes + 1 && s'.copiedBlocks == s.copiedBlocks + j.window.pendingBlocks
      && s'.copiedBytes == s.copiedBytes + j.window.pendingBytes
      && s'.maxBlocksPerFlush >= s.maxBlocksPerFlush && s'.maxBlocksPerFlush >= j.window.pendingBlocks
      && (s'.maxBlocksPerFlush == s.maxBlocksPerFlush || s'.maxBlocksPerFlush == j.window.pendingBlocks)
      && s'.deferredBlocks == s.deferredBlocks && s'.deferredBytes == s.deferredBytes && s'.scopes == s.scopes
  {}

  /** A flush leaves nothing outstanding, whether or not the journal has failed. */
  lemma FlushedIsGood(j: Journal, snapshots: seq<Image>, memory: Image)
    requires Good(j, snapshots, memory)
    ensures Good(Flushed(j, memory), snapshots, memory)
    ensures Flushed(j, memory).window.pendingBlocks == Flushed(j, memory).window.pendingBytes == 0
    ensures Chain(Flushed(j, memory).Records(), snapshots, memory, NO_BLOCK)
  {
    var f := Flushed(j, memory);
    if j.window.pendingBlocks != 0 {
      var r := CopiedFrom(j.Newest(), memory, j.window.firstBlock);
      FlushedView(j, memory, f, r);
      FlushedChain(j, snapshots, memory, r);
    }
    if j.window.open { SettledJournal(f, snapshots, memory); }
    assert Folded(ShapelyMark, 0);
  }

  lemma FlushedView(j: Journal, memory: Image, f: Journal, r: FrameRecord)
    requires Shape(j) && j.window.pendingBlocks != 0 && f == Flushed(j, memory)
    requires r == CopiedFrom(j.Newest(), memory, j.window.firstBlock)
    ensures Shapely(f) && f.window.open && f.window.firstBlock == |r.blocks|
    ensures f.Newest() == r && f.Records() == j.WithNewest(r).Records()
  {
    NewestIsLast(j, r);
    CopiedFromKeeps(j.Newest(), memory, j.window.firstBlock);
    assert f.Newest() == r;
  }

  lemma FlushedChain(j: Journal, snapshots: seq<Image>, memory: Image, r: FrameRecord)
    requires Good(j, snapshots, memory) && j.window.pendingBlocks != 0
    requires r == CopiedFrom(j.Newest(), memory, j.window.firstBlock)
    ensures Chain(j.WithNewest(r).Records(), snapshots, memory, |r.blocks|)
  {
    NewestIsLast(j, r);
    CopiedFromKeeps(j.Newest(), memory, j.window.firstBlock);
    CopiedFromLeads(j.Newest(), snapshots[j.frameCount - 1], memory, j.window.firstBlock);
    ChainSetLast(j.Records(), snapshots, memory, j.From(), r, memory, |r.blocks|);
  }

  lemma SettledJournal(j: Journal, snapshots: seq<Image>, memory: Image)
    requires j.RingOk() && j.frameCount > 0 && j.window.open
    requires LargeBlocks(j.Newest().blocks, j.window.firstBlock) == 0
    requires Chain(j.Records(), snapshots, memory, j.window.firstBlock)
    ensures Chain(j.Records(), snapshots, memory, NO_BLOCK) && LargeBytes(j.Newest().blocks, j.window.firstBlock) == 0
  {
    NewestIsLast(j, j.Newest());
    ChainAt(j.Records(), snapshots, memory, j.window.firstBlock, j.frameCount - 1);
    ChainSettled(j.Records(), snapshots, memory, j.window.firstBlock, NO_BLOCK);
  }

  lemma FlushKeeps(j: Journal, snapshots: seq<Image>, memory: Image)
    requires Basic(j) && Held(j, snapshots, memory)
    ensures Held(Flushed(j, memory), snapshots, memory)
    ensures j.window.pendingBlocks != 0 ==>
      j.frameCount <= |snapshots| && Leads(j.Newest(), snapshots[j.frameCount - 1], memory, j.window.firstBlock)
      && j.window.firstBlock <= |j.Newest().blocks|
  {
    Release(j, snapshots, memory);
    FlushedIsGood(j, snapshots, memory);
    if j.frameCount > 0 { NewestIsLast(j, j.Newest()); }
  }

  /** Closing the window leaves nothing outstanding. */
  lemma CaptureEndKeeps(j: Journal, snapshots: seq<Image>, memory: Image)
    requires Basic(j) && Held(j, snapshots, memory)
    ensures Held(CaptureEnded(j, memory), snapshots, memory)
    ensures !CaptureEnded(j, memory).window.open
      && Chain(CaptureEnded(j, memory).Records(), snapshots, memory, NO_BLOCK)
  {
    Release(j, snapshots, memory);
    if j.window.open {
      FlushedIsGood(j, snapshots, memory);
      var f, e := Flushed(j, memory), CaptureEnded(j, memory);
      assert e.Records() == f.Records() && e.From() == NO_BLOCK;
    }
  }

  // ---------------------------------------------------------------- touching

  /** What a touch answers: an exact duplicate is accepted again, otherwise the range must be disjoint
      from every block of the open checkpoint and within its budget. */
  ghost predicate Accepts(j: Journal, start: nat, size: nat)
    requires Basic(j)
  {
    && j.frameOpen && !j.failed && start != 0 && size != 0 && start + size <= MAX_ADDRESS
    && (Listed(j.Newest().blocks, start, size) ||
        (AllApart(j.Newest().blocks, start, size)
         && |j.Newest().blocks| < j.config.maxBlocksPerFrame
         && j.Newest().byteSize + size <= j.config.maxBytesPerFrame))
  }

  /** A refused touch drains the window; only a call with an open checkpoint and a real range fails
      the journal. */
  function Refused(j: Journal, memory: Image, start: nat, size: nat): Journal
    requires Basic(j)
  {
    Flushed(j.(failed := j.failed || (j.frameOpen && start != 0 && size != 0)), memory)
  }

  /** Doubling towards the budget until the arena is large enough. */
  function Doubled(capacity: nat, required: nat, budget: nat): (c: nat)
    requires 0 < capacity && required <= budget
    ensures required <= c && (capacity <= budget ==> c <= budget)
    decreases if capacity < required then budget - capacity else 0
  {
    if capacity >= required then capacity
    else Doubled(if capacity <= budget / 2 then capacity * 2 else budget, required, budget)
  }

  function GrownCapacity(capacity: nat, required: nat, budget: nat): nat
    requires 0 < budget && required <= budget
  {
    if required <= capacity then capacity
    else Doubled(if capacity != 0 then capacity else if budget < FIRST_ARENA then budget else FIRST_ARENA, required,
          budget)
  }

  /** `r'` is `r` in an arena doubled towards the budget, with the stored bytes in front. */
  ghost predicate Moved(r: FrameRecord, r': FrameRecord, required: nat, budget: nat)
    requires required <= budget && 0 < budget
  {
    && r' == r.(bytes := r'.bytes) && |r'.bytes| == GrownCapacity(|r.bytes|, required, budget)
    && r.byteSize <= |r.bytes| <= |r'.bytes| && r'.bytes[..r.byteSize] == r.bytes[..r.byteSize]
  }

  /** `g` is the journal once the newest arena holds `required` bytes: the same journal, or a drained
      one whose arena has moved. */
  ghost predicate Grown(j: Journal, g: Journal, memory: Image, required: nat)
    requires Basic(j) && j.frameOpen && required <= j.config.maxBytesPerFrame
  {
    if required <= |j.Newest().bytes| then g == j else
      && g.RingOk() && g.frameCount > 0 && Flushed(j, memory).RingOk() && Flushed(j, memory).frameCount > 0
      && g == Flushed(j, memory).WithNewest(g.Newest())
      && Moved(Flushed(j, memory).Newest(), g.Newest(), required, j.config.maxBytesPerFrame)
  }

  lemma FailKeeps(j: Journal, snapshots: seq<Image>, memory: Image)
    requires Basic(j) && Held(j, snapshots, memory)
    ensures Held(j.(failed := true), snapshots, memory)
  {
    var f := j.(failed := true);
    Release(j, snapshots, memory);
    FailedView(j, f);
    HeldWith(f, j.Records(), snapshots, memory);
  }

  lemma FailedView(j: Journal, f: Journal)
    requires Shape(j) && f == j.(failed := true)
    ensures Shapely(f) && f.RingOk() && f.Records() == j.Records() && f.From() == j.From()
  {
    assert f.Records() == j.Records();
  }

  lemma RefuseKeeps(j: Journal, snapshots: seq<Image>, memory: Image, start: nat, size: nat)
    requires Basic(j) && Held(j, snapshots, memory)
    ensures Held(Refused(j, memory, start, size), snapshots, memory)
  {
    if j.frameOpen && start != 0 && size != 0 && !j.failed {
      FailKeeps(j, snapshots, memory);
      FlushHolds(j.(failed := true), snapshots, memory);
    } else {
      assert j.(failed := j.failed || (j.frameOpen && start != 0 && size != 0)) == j;
      FlushHolds(j, snapshots, memory);
    }
  }

  lemma FlushHolds(j: Journal, snapshots: seq<Image>, memory: Image)
    requires Basic(j) && Held(j, snapshots, memory)
    ensures Held(Flushed(j, memory), snapshots, memory)
  {
    Release(j, snapshots, memory);
    FlushedIsGood(j, snapshots, memory);
  }

  lemma FlushedNewest(j: Journal, memory: Image)
    requires Basic(j) && j.frameOpen
    ensures Flushed(j, memory).RingOk() && Flushed(j, memory).frameCount == j.frameCount
    ensures Flushed(j, memory).Newest() == j.Newest().(bytes := Flushed(j, memory).Newest().bytes)
    ensures |Flushed(j, memory).Newest().bytes| == |j.Newest().bytes|
    ensures Flushed(j, memory).Records()[..j.frameCount - 1] == j.Records()[..j.frameCount - 1]
  {
    if j.window.pendingBlocks != 0 {
      var r := CopiedFrom(j.Newest(), memory, j.window.firstBlock);
      CopiedFromKeeps(j.Newest(), memory, j.window.firstBlock);
      NewestIsLast(j, r);
      assert Flushed(j, memory).Records() == j.WithNewest(r).Records();
    }
  }

  lemma GrowKeeps(j: Journal, g: Journal, snapshots: seq<Image>, memory: Image, required: nat)
    requires Basic(j) && Held(j, snapshots, memory) && j.frameOpen && required <= j.config.maxBytesPerFrame
    requires Grown(j, g, memory, required)
    ensures Held(g, snapshots, memory)
  {
    Release(j, snapshots, memory);
    if required > |j.Newest().bytes| {
      var f := Flushed(j, memory);
      FlushedIsGood(j, snapshots, memory);
      FlushedNewest(j, memory);
      GrownFlushed(f, g, snapshots, memory);
    }
  }

  lemma RoomFor(j: Journal, snapshots: seq<Image>, memory: Image)
    requires Basic(j) && Held(j, snapshots, memory) && j.frameCount > 0
    ensures j.Newest().byteSize <= |j.Newest().bytes| && |j.Newest().blocks| < NO_BLOCK
    ensures Indexed(j.Newest().blocks, j.Newest().root)
  {
    Release(j, snapshots, memory);
    NewestIsLast(j, j.Newest());
    LeadsSameLength(j.Newest(), snapshots[j.frameCount - 1], memory, j.From());
  }

  lemma GrownFlushed(f: Journal, g: Journal, snapshots: seq<Image>, memory: Image)
    requires Good(f, snapshots, memory) && f.frameCount > 0 && Chain(f.Records(), snapshots, memory, NO_BLOCK)
    requires f.window.pendingBlocks == 0 && g.RingOk() && g.frameCount == f.frameCount
    requires g == f.WithNewest(g.Newest()) && g.Newest() == f.Newest().(bytes := g.Newest().bytes)
    requires f.Newest().byteSize <= |f.Newest().bytes| <= |g.Newest().bytes|
    requires g.Newest().bytes[..f.Newest().byteSize] == f.Newest().bytes[..f.Newest().byteSize]
    ensures Good(g, snapshots, memory)
  {
    NewestIsLast(f, g.Newest());
    GrownChain(f.Records(), snapshots, memory, g.Newest(), g.From());
    assert g.Records() == f.Records()[..f.frameCount - 1] + [g.Newest()];
  }

  lemma GrownChain(rs: seq<FrameRecord>, snapshots: seq<Image>, memory: Image, r: FrameRecord, from: nat)
    requires Chain(rs, snapshots, memory, NO_BLOCK) && rs != [] && r == rs[|rs| - 1].(bytes := r.bytes)
    requires rs[|rs| - 1].byteSize <= |rs[|rs| - 1].bytes| <= |r.bytes|
    requires r.bytes[..r.byteSize] == rs[|rs| - 1].bytes[..r.byteSize]
    requires from == NO_BLOCK || LargeBlocks(r.blocks, from) == 0
    ensures Chain(rs[..|rs| - 1] + [r], snapshots, memory, from)
  {
    ChainAfterGrowth(rs, snapshots, memory, r);
    var rs' := rs[..|rs| - 1] + [r];
    if from != NO_BLOCK {
      ChainAt(rs', snapshots, memory, NO_BLOCK, |rs'| - 1);
      ChainSettled(rs', snapshots, memory, NO_BLOCK, from);
    }
  }

  // ---------------------------------------------------------------- accepting a block

  function WindowAfter(w: Window, inserted: nat, size: nat): Window {
    if !w.open || size < LARGE then w else
      Window(true, if w.pendingBlocks == 0 then inserted else w.firstBlock, w.pendingBlocks + 1, w.pendingBytes + size,
        w.stats.(deferredBlocks := w.stats.deferredBlocks + 1, deferredBytes := w.stats.deferredBytes + size))
  }

  /** `r'` is record `r` with the range accepted: its bytes are copied at once, unless the copy is
      deferred by an open window. */
  ghost predicate AcceptedBlock(r: FrameRecord, r': FrameRecord, memory: Image, start: nat, size: nat, deferred: bool) {
    && Extends(r, r', start, size) && Indexed(r'.blocks, r'.root)
    && r'.startFrame == r.startFrame && r'.endFrame == r.endFrame
    && start + size <= |memory|
    && (!deferred ==> r'.bytes[r.byteSize..r'.byteSize] == memory[start..start + size])
  }

  lemma {:induction false} LargeAfterTouch(blocks: seq<Block>, blocks': seq<Block>, from: nat)
    requires SameRanges(blocks, blocks') && |blocks'| == |blocks| + 1 && from <= |blocks|
    ensures LargeBlocks(blocks', from) == LargeBlocks(blocks, from) + (if blocks'[|blocks|].size >= LARGE then 1 else 0)
    ensures LargeBytes(blocks', from) ==
      LargeBytes(blocks, from) + (if blocks'[|blocks|].size >= LARGE then blocks'[|blocks|].size else 0)
  {
    LargeSame(blocks, blocks'[..|blocks|], from);
  }

  lemma AcceptedCounts(j: Journal, r': FrameRecord, size: nat)
    requires Shape(j) && j.frameOpen && SameRanges(j.Newest().blocks, r'.blocks)
    requires |r'.blocks| == |j.Newest().blocks| + 1 && r'.blocks[|j.Newest().blocks|].size == size
    ensures Shape(j.WithNewest(r').(window := WindowAfter(j.window, |j.Newest().blocks|, size)))
  {
    var g := j.WithNewest(r').(window := WindowAfter(j.window, |j.Newest().blocks|, size));
    assert g.Newest() == r';
    if j.window.open {
      LargeAfterTouch(j.Newest().blocks, r'.blocks, g.window.firstBlock);
      if j.window.pendingBlocks == 0 { NoLarge(j.Newest().blocks, j.window.firstBlock); }
    }
  }

  /** Accepting a block keeps the invariant and the counts of outstanding copies. */
  lemma AcceptKeeps(j: Journal, snapshots: seq<Image>, memory: Image, r': FrameRecord, start: nat, size: nat)
    requires Basic(j) && Held(j, snapshots, memory) && j.frameOpen && 0 < start && 0 < size
    requires AllApart(j.Newest().blocks, start, size)
    requires AcceptedBlock(j.Newest(), r', memory, start, size, j.window.open && size >= LARGE)
    ensures Held(j.WithNewest(r').(window := WindowAfter(j.window, |j.Newest().blocks|, size)), snapshots, memory)
  {
    var g := j.WithNewest(r').(window := WindowAfter(j.window, |j.Newest().blocks|, size));
    OneSnapshotEach(j, snapshots, memory);
    AcceptedShape(j, snapshots, memory, r', start, size, g);
    AcceptedChain(j, snapshots, memory, r', start, size, g);
    HeldWith(g, j.Records()[..j.frameCount - 1] + [r'], snapshots, memory);
  }

  lemma AcceptedShape(j: Journal, snapshots: seq<Image>, memory: Image, r': FrameRecord, start: nat, size: nat,
      g: Journal)
    requires Basic(j) && Held(j, snapshots, memory) && j.frameOpen && 0 < start && 0 < size
    requires AcceptedBlock(j.Newest(), r', memory, start, size, j.window.open && size >= LARGE)
    requires g == j.WithNewest(r').(window := WindowAfter(j.window, |j.Newest().blocks|, size))
    ensures Shapely(g) && g.RingOk() && g.Records() == j.Records()[..j.frameCount - 1] + [r']
  {
    Release(j, snapshots, memory);
    AcceptedCounts(j, r', size);
    NewestIsLast(j, r');
  }

  lemma AcceptedChain(j: Journal, snapshots: seq<Image>, memory: Image, r': FrameRecord, start: nat, size: nat,
      g: Journal)
    requires Basic(j) && Held(j, snapshots, memory) && j.frameOpen && 0 < start && 0 < size
    requires AllApart(j.Newest().blocks, start, size)
    requires AcceptedBlock(j.Newest(), r', memory, start, size, j.window.open && size >= LARGE)
    requires g == j.WithNewest(r').(window := WindowAfter(j.window, |j.Newest().blocks|, size))
    ensures Chain(j.Records()[..j.frameCount - 1] + [r'], snapshots, memory, g.From())
  {
    Release(j, snapshots, memory);
    NewestIsLast(j, r');
    AcceptedFrom(j, size, g);
    ChainAfterTouch(j.Records(), snapshots, memory, j.From(), r', g.From(), start, size);
  }

  /** Where the outstanding copies begin after a block has been accepted. */
  lemma AcceptedFrom(j: Journal, size: nat, g: Journal)
    requires Shape(j) && j.frameOpen && g.window == WindowAfter(j.window, |j.Newest().blocks|, size)
    ensures g.From() == j.From()
      || (|j.Newest().blocks| <= g.From() && LargeBlocks(j.Newest().blocks, j.From()) == 0)
    ensures j.window.open && size >= LARGE ==> g.From() <= |j.Newest().blocks|
  {
    if j.window.open && j.window.pendingBlocks == 0 { NoLarge(j.Newest().blocks, j.window.firstBlock); }
  }

  /** A write to memory that the newest checkpoint covers, or with no checkpoint at all. */
  lemma WriteKeeps(j: Journal, snapshots: seq<Image>, memory: Image, a: nat, v: bv8)
    requires Basic(j) && Held(j, snapshots, memory) && a < |memory| && !j.window.open
    requires j.frameCount > 0 ==> Covers(j.Newest(), a)
    ensures Held(j, snapshots, memory[a := v])
  {
    Release(j, snapshots, memory);
    if j.frameCount > 0 { NewestIsLast(j, j.Newest()); }
    ChainAfterWrite(j.Records(), snapshots, memory, a, v);
  }

  /** `j'` is `j` after accepting a fresh range: room is made first, then the block is recorded. */
  ghost predicate Touched(j: Journal, j': Journal, memory: Image, start: nat, size: nat)
    requires Basic(j) && j.frameOpen && j.Newest().byteSize + size <= j.config.maxBytesPerFrame
  {
    exists g :: TouchedVia(j, g, j', memory, start, size)
  }

  ghost predicate TouchedVia(j: Journal, g: Journal, j': Journal, memory: Image, start: nat, size: nat)
    requires Basic(j) && j.frameOpen && j.Newest().byteSize + size <= j.config.maxBytesPerFrame
  {
    && Grown(j, g, memory, j.Newest().byteSize + size) && g.RingOk() && g.frameCount > 0 && j'.RingOk()
    && j'.frameCount > 0
    && j' == g.WithNewest(j'.Newest()).(window := WindowAfter(g.window, |g.Newest().blocks|, size))
    && AcceptedBlock(g.Newest(), j'.Newest(), memory, start, size, g.window.open && size >= LARGE)
  }

  lemma GrownNewest(j: Journal, g: Journal, memory: Image, required: nat)
    requires Basic(j) && j.frameOpen && required <= j.config.maxBytesPerFrame && Grown(j, g, memory, required)
    ensures g.RingOk() && g.frameCount == j.frameCount > 0 && g.frameOpen && g.config == j.config
    ensures g.Newest() == j.Newest().(bytes := g.Newest().bytes) && required <= |g.Newest().bytes|
  {
    FlushedNewest(j, memory);
  }

  lemma TouchStep(j: Journal, g: Journal, j': Journal, snapshots: seq<Image>, memory: Image, start: nat, size: nat)
    requires Basic(j) && j.frameOpen && j.Newest().byteSize + size <= j.config.maxBytesPerFrame
    requires Basic(g) && Held(g, snapshots, memory) && Grown(j, g, memory, j.Newest().byteSize + size) && 0 < start
      && 0 < size
    requires AllApart(j.Newest().blocks, start, size) && j'.RingOk() && j'.frameCount > 0 && g.frameCount > 0
    requires j' == g.WithNewest(j'.Newest()).(window := WindowAfter(g.window, |g.Newest().blocks|, size))
    requires AcceptedBlock(g.Newest(), j'.Newest(), memory, start, size, g.window.open && size >= LARGE)
    ensures Held(j', snapshots, memory) && Touched(j, j', memory, start, size)
  {
    GrownNewest(j, g, memory, j.Newest().byteSize + size);
    AcceptKeeps(g, snapshots, memory, j'.Newest(), start, size);
    assert TouchedVia(j, g, j', memory, start, size);
  }

  /** After an accepted touch the newest checkpoint covers the range, and all it covered before. */
  lemma TouchedCovers(j: Journal, j': Journal, memory: Image, start: nat, size: nat, a: int)
    requires Basic(j) && j.frameOpen && j.Newest().byteSize + size <= j.config.maxBytesPerFrame
    requires Touched(j, j', memory, start, size)
    ensures j'.RingOk() && j'.frameCount == j.frameCount
    ensures Covers(j'.Newest(), a) <==> Covers(j.Newest(), a) || start <= a < start + size
  {
    var g :| TouchedVia(j, g, j', memory, start, size);
    FlushedNewest(j, memory);
    assert g.Newest().blocks == j.Newest().blocks;
    assert Covers(g.Newest(), a) == Covers(j.Newest(), a);
    CoversAfterTouch(g.Newest(), j'.Newest(), start, size, a);
  }

  // ---------------------------------------------------------------- undo and discard

  /** What a restore through checkpoint `t` knows of the ring: the records by age, their indexes, and
      that exactly those from `t` on end at or after its start. */
  ghost predicate Undoable(frames: seq<FrameRecord>, first: nat, rs: seq<FrameRecord>, t: nat) {
    forall u: int :: Folded(UndoableMark, u) ==>
      && first < |frames| && t < |rs| <= |frames|
      && forall i :: 0 <= i < |rs| ==>
        && rs[i] == frames[Ring.Slot(first + i, |frames|)] && Indexed(rs[i].blocks, rs[i].root)
        && (t <= i <==> rs[t].startFrame <= rs[i].endFrame)
  }

  lemma UndoableAt(frames: seq<FrameRecord>, first: nat, rs: seq<FrameRecord>, t: nat, i: nat)
    requires Undoable(frames, first, rs, t) && i < |rs|
    ensures first < |frames| && t < |rs| <= |frames|
    ensures rs[i] == frames[Ring.Slot(first + i, |frames|)] && Indexed(rs[i].blocks, rs[i].root)
    ensures t <= i <==> rs[t].startFrame <= rs[i].endFrame
  {
    assert Folded(UndoableMark, 0);
  }

  lemma UndoStarts(j: Journal, snapshots: seq<Image>, memory: Image, t: nat)
    requires Basic(j) && Held(j, snapshots, memory) && !j.window.open && t < j.frameCount
    ensures Undoable(j.frames, j.firstFrame, j.Records(), t)
    ensures Undoing(j.Records(), snapshots, t, j.frameCount, memory, memory)
  {
    Release(j, snapshots, memory);
    var rs := j.Records();
    UndoingStarts(rs, snapshots, t, memory);
    forall i | 0 <= i < |rs|
      ensures Indexed(rs[i].blocks, rs[i].root) && (t <= i <==> rs[t].startFrame <= rs[i].endFrame)
    {
      ChainAt(rs, snapshots, memory, NO_BLOCK, i);
      ChainAscends(rs, snapshots, memory, NO_BLOCK, t);
      ChainAscends(rs, snapshots, memory, NO_BLOCK, i);
    }
  }

  /** Having restored the target checkpoint, the journal keeps the older ones. */
  lemma UndoKeeps(j: Journal, snapshots: seq<Image>, memory: Image, t: nat, restored: Image)
    requires Basic(j) && Held(j, snapshots, memory) && !j.window.open && t < j.frameCount && !j.frameOpen
    requires t <= |snapshots| && Chain(j.Records()[..t], snapshots[..t], restored, NO_BLOCK)
    ensures Held(j.(frameCount := t), snapshots[..t], restored)
    ensures j.(frameCount := t).Records() == j.Records()[..t]
  {
    UndoneShape(j, snapshots, memory, t);
    HeldWith(j.(frameCount := t), j.Records()[..t], snapshots[..t], restored);
  }

  lemma UndoneShape(j: Journal, snapshots: seq<Image>, memory: Image, t: nat)
    requires Basic(j) && Held(j, snapshots, memory) && !j.window.open && t < j.frameCount && !j.frameOpen
    ensures Shapely(j.(frameCount := t)) && j.(frameCount := t).Records() == j.Records()[..t]
  {
    Release(j, snapshots, memory);
    Ring.Take(j.frames, j.firstFrame, j.frameCount, t);
  }

  /** How many of the oldest checkpoints ended before `frame`. */
  function Stale(rs: seq<FrameRecord>, frame: nat): (k: nat)
    ensures k <= |rs| && forall i :: 0 <= i < k ==> rs[i].endFrame < frame
    ensures k < |rs| ==> frame <= rs[k].endFrame
  {
    if rs == [] || rs[0].endFrame >= frame then 0
    else
      var k := Stale(rs[1..], frame) + 1;
      assert forall i :: 1 <= i < k ==> rs[i] == rs[1..][i - 1];
      k
  }

  /** The journal without its `k` oldest checkpoints. */
  function Dropped(j: Journal, k: nat): Journal
    requires Basic(j) && k <= j.frameCount
  {
    if j.frames == [] then j
    else j.(firstFrame := Ring.Slot(j.firstFrame + k, |j.frames|), frameCount := j.frameCount - k)
  }

  lemma DroppedShape(j: Journal, k: nat)
    requires Basic(j) && k <= j.frameCount
    ensures Dropped(j, k).RingOk() && Dropped(j, k).Records() == j.Records()[k..] && Dropped(j, k).From() == j.From()
    ensures Shape(j) && !j.frameOpen ==> Shapely(Dropped(j, k))
  {
    if j.frames != [] { Ring.Drop(j.frames, j.firstFrame, j.frameCount, k); }
  }

  /** The checkpoints that remain can still be undone. */
  lemma DropKeeps(j: Journal, snapshots: seq<Image>, memory: Image, k: nat)
    requires Basic(j) && Held(j, snapshots, memory) && !j.frameOpen && k <= j.frameCount
    ensures k <= |snapshots| && Held(Dropped(j, k), snapshots[k..], memory)
    ensures Dropped(j, k).RingOk() && Dropped(j, k).Records() == j.Records()[k..]
  {
    DropChain(j, snapshots, memory, k);
    DroppedShape(j, k);
    HeldWith(Dropped(j, k), j.Records()[k..], snapshots[k..], memory);
  }

  lemma DropChain(j: Journal, snapshots: seq<Image>, memory: Image, k: nat)
    requires Basic(j) && Held(j, snapshots, memory) && !j.frameOpen && k <= j.frameCount
    ensures Shape(j) && k <= |snapshots| && Chain(j.Records()[k..], snapshots[k..], memory, NO_BLOCK)
  {
    Release(j, snapshots, memory);
    ChainDrops(j.Records(), snapshots, memory, NO_BLOCK, k);
  }

  lemma StaleAt(rs: seq<FrameRecord>, k: nat, frame: nat)
    requires k < |rs|
    ensures k <= Stale(rs, frame) && rs[k].endFrame < frame ==> k < Stale(rs, frame)
  {
    var n := Stale(rs, frame);
    if k == n { assert frame <= rs[n].endFrame; }
  }

  lemma StaleStep(j: Journal, k: nat, frame: nat)
    requires j.RingOk() && k < j.frameCount
    ensures j.Records()[k] == j.frames[Ring.Slot(j.firstFrame + k, |j.frames|)]
    ensures k <= Stale(j.Records(), frame) && j.Records()[k].endFrame < frame ==> k < Stale(j.Records(), frame)
  {
    StaleAt(j.Records(), k, frame);
  }
}
