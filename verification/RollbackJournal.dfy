/** The rollback journal: a bounded ring of undo checkpoints over the program's memory.

    `memory` is the address space the program writes; an address is a position in it and position 0
    is the null address. The ghost field `snapshots` remembers the whole memory at the start of every
    retained checkpoint; `Valid` says that the stored bytes suffice to return to each of them. */
module RollbackJournals {
  import opened BlockIndex
  import opened Memory
  import opened JournalRecord
  import opened JournalState
  import Ring

  class RollbackJournal {
    const memory: array<bv8>

    var config: Config
    var frames: seq<FrameRecord>
    var firstFrame: nat
    var frameCount: nat
    var configured: bool
    var frameOpen: bool
    var failed: bool
    var openFrame: nat
    var window: Window
    var restoreCopiedBytes: nat
    var restoreSkippedBytes: nat
    var arenaGrowths: nat

    ghost var snapshots: seq<Image>

    ghost function State(): Journal
      reads this
    {
      Journal(config, frames, firstFrame, frameCount, configured, frameOpen, failed, openFrame, window)
    }

    ghost predicate Valid()
      reads this, memory
    {
      memory.Length <= MAX_ADDRESS && Basic(State()) && Held(State(), snapshots, memory[..])
    }

    constructor (memory: array<bv8>)
      requires memory.Length <= MAX_ADDRESS
      ensures Valid() && this.memory == memory && snapshots == []
      ensures !configured && !frameOpen && !failed && frameCount == 0
    {
      this.memory := memory;
      config, frames, firstFrame, frameCount := Config(16, 8388608, 4096, false), [], 0, 0;
      configured, frameOpen, failed, openFrame := false, false, false, 0;
      window := Window(false, 0, 0, 0, NO_STATS);
      restoreCopiedBytes, restoreSkippedBytes, arenaGrowths := 0, 0, 0;
      snapshots := [];
      new;
      EmptyKeeps(State(), memory[..]);
    }

    method Clear()
      requires Valid()
      modifies this`frames, this`firstFrame, this`frameCount, this`configured, this`frameOpen, this`failed
      modifies this`openFrame, this`window, this`snapshots
      ensures Valid() && State() == Cleared(old(State()), memory[..]) && snapshots == []
    {
      ClearKeeps(State(), snapshots, memory[..]);
      ghost var cleared := Cleared(State(), memory[..]);
      if window.open { var _ := EndReadOnlyCapture(); }
      Empty();
      assert State() == cleared;
    }

    method Empty()
      modifies this`frames, this`firstFrame, this`frameCount, this`configured, this`frameOpen, this`failed
      modifies this`openFrame, this`window, this`snapshots
      ensures State() == Journal(config, [], 0, 0, false, false, false, 0, Window(false, 0, 0, 0, old(window.stats)))
      ensures snapshots == []
    {
      frames, firstFrame, frameCount := [], 0, 0;
      configured, frameOpen, failed, openFrame := false, false, false, 0;
      window := Window(false, 0, 0, 0, window.stats);
      snapshots := [];
    }

    /** A configuration with a zero bound or too many blocks is refused and leaves the journal cleared. */
    method Reset(config: Config) returns (ok: bool)
      requires Valid()
      modifies this
      ensures Valid() && ok == config.Usable() && snapshots == []
      ensures State() ==
        Journal(if ok then config else old(this.config), frames, 0, 0, ok, false, false, 0,
            Window(false, 0, 0, 0, NO_STATS))
      ensures restoreCopiedBytes == restoreSkippedBytes == arenaGrowths == 0
    {
      Clear();
      restoreCopiedBytes, restoreSkippedBytes, arenaGrowths := 0, 0, 0;
      window := Window(false, 0, 0, 0, NO_STATS);
      if config.maxFrames == 0 || config.maxBytesPerFrame == 0 ||
         config.maxBlocksPerFrame == 0 || config.maxBlocksPerFrame >= NO_BLOCK {
        return false;
      }
      this.config := config;
      frames := seq(config.maxFrames, _ => EmptyRecord(0, []));
      configured := true;
      return true;
    }

    method BeginFrame(frame: nat, extendPrevious: bool) returns (ok: bool)
      requires Valid() && frame <= MAX_FRAME
      modifies this`frames, this`firstFrame, this`frameCount, this`frameOpen, this`openFrame,
        this`failed, this`snapshots
      ensures Valid() && ok == Begins(old(State()), frame, extendPrevious)
      ensures State() == Begun(old(State()), frame, extendPrevious)
      ensures snapshots == SnapshotsBegun(old(State()), old(snapshots), memory[..], frame, extendPrevious)
    {
      BeginKeeps(State(), snapshots, memory[..], frame, extendPrevious);
      snapshots := SnapshotsBegun(State(), snapshots, memory[..], frame, extendPrevious);
      if !configured || frameOpen || failed { return false; }
      if extendPrevious {
        ok := frameCount != 0 && frames[Ring.Slot(firstFrame + frameCount - 1, |frames|)].endFrame != MAX_FRAME
          && frame == frames[Ring.Slot(firstFrame + frameCount - 1, |frames|)].endFrame + 1;
        if ok {
          var back := Ring.Slot(firstFrame + frameCount - 1, |frames|);
          frames := frames[back := frames[back].(endFrame := frame)];
          frameOpen, openFrame := true, frame;
        } else {
          failed := true;
        }
      } else {
        ok := frameCount == 0 || frames[Ring.Slot(firstFrame + frameCount - 1, |frames|)].endFrame < frame;
        if ok { StartRecord(frame); } else { failed := true; }
      }
      assert State() == Begun(old(State()), frame, extendPrevious);
    }

    method StartRecord(frame: nat)
      requires State().RingOk() && frames != []
      modifies this`frames, this`firstFrame, this`frameCount, this`frameOpen, this`openFrame
      ensures State() == Started(old(State()), frame)
    {
      if frameCount == |frames| {
        firstFrame := Ring.Slot(firstFrame + 1, |frames|);
      } else {
        frameCount := frameCount + 1;
      }
      var back := Ring.Slot(firstFrame + frameCount - 1, |frames|);
      frames := frames[back := EmptyRecord(frame, frames[back].bytes)];
      frameOpen, openFrame := true, frame;
    }

    method EndFrame() returns (ok: bool)
      requires Valid()
      modifies this`frameOpen
      ensures Valid() && ok == (old(frameOpen) && !failed && !window.open)
      ensures State() == old(State()).(frameOpen := old(frameOpen) && !ok)
    {
      if !frameOpen || failed || window.open { return false; }
      frameOpen := false;
      return true;
    }

    /** The game's own write: touched first, and never inside a read-only capture window. */
    method Write(a: nat, v: bv8)
      requires Valid() && a < memory.Length && !window.open
      requires frameCount > 0 ==> Covers(State().Newest(), a)
      modifies memory
      ensures Valid() && memory[..] == old(memory[..])[a := v]
    {
      WriteKeeps(State(), snapshots, memory[..], a, v);
      memory[a] := v;
      assert memory[..] == old(memory[..])[a := v];
    }

    // ------------------------------------------------------------ read-only capture

    method BeginReadOnlyCapture() returns (ok: bool)
      requires Valid()
      modifies this`window
      ensures Valid() && State() == CaptureBegun(old(State()))
      ensures ok == (frameOpen && !failed && !old(window).open)
    {
      CaptureBeginKeeps(State(), snapshots, memory[..]);
      if !frameOpen || frameCount == 0 || failed || window.open { return false; }
      var back := Ring.Slot(firstFrame + frameCount - 1, |frames|);
      window := Window(true, |frames[back].blocks|, 0, 0, window.stats.(scopes := window.stats.scopes + 1));
      assert State() == CaptureBegun(old(State()));
      return true;
    }

    /** Closing the window leaves nothing outstanding: every block of every checkpoint holds the bytes
        an immediate copy would have stored, even after a refused touch. */
    method EndReadOnlyCapture() returns (ok: bool)
      requires Valid()
      modifies this`frames, this`window
      ensures Valid() && State() == CaptureEnded(old(State()), memory[..]) && ok == (old(window).open && !failed)
      ensures Chain(State().Records(), snapshots, memory[..], NO_BLOCK)
    {
      CaptureEndKeeps(State(), snapshots, memory[..]);
      if !window.open { return false; }
      FlushReadOnlyCapture();
      window := window.(open := false);
      return !failed;
    }

    method FlushReadOnlyCapture()
      requires Valid()
      modifies this`frames, this`window
      ensures Valid() && State() == Flushed(old(State()), memory[..])
    {
      FlushKeeps(State(), snapshots, memory[..]);
      if window.pendingBlocks != 0 { Drain(snapshots[frameCount - 1]); }
    }

    method Drain(ghost before: Image)
      requires Basic(State()) && window.pendingBlocks != 0 && window.firstBlock <= |State().Newest().blocks|
      requires Leads(State().Newest(), before, memory[..], window.firstBlock)
      modifies this`frames, this`window
      ensures State() == Flushed(old(State()), memory[..])
    {
      var back := Ring.Slot(firstFrame + frameCount - 1, |frames|);
      var copied := CopyOutstanding(frames[back], before);
      frames := frames[back := copied];
      window := Window(true, |copied.blocks|, 0, 0, window.stats.(
        flushes := window.stats.flushes + 1,
        copiedBlocks := window.stats.copiedBlocks + window.pendingBlocks,
        copiedBytes := window.stats.copiedBytes + window.pendingBytes,
        maxBlocksPerFlush := Max(window.stats.maxBlocksPerFlush, window.pendingBlocks)));
    }

    method CopyOutstanding(r: FrameRecord, ghost before: Image) returns (r': FrameRecord)
      requires Leads(r, before, memory[..], window.firstBlock) && window.firstBlock <= |r.blocks|
      ensures r' == CopiedFrom(r, memory[..], window.firstBlock) && r'.blocks == r.blocks
    {
      r' := r;
      var index := window.firstBlock;
      while index < |r'.blocks|
        invariant window.firstBlock <= index <= |r'.blocks| && r'.blocks == r.blocks
        invariant CopiedFrom(r', memory[..], index) == CopiedFrom(r, memory[..], window.firstBlock)
        invariant Leads(r', before, memory[..], index)
      {
        var block := r'.blocks[index];
        LeadsAfterCopy(r', before, memory[..], index);
        if block.size >= LARGE {
          assert memory[block.address..block.End()] == memory[..][block.address..block.End()];
          r' := r'.(bytes := Splice(r'.bytes, block.offset, memory[block.address..block.End()]));
        }
        index := index + 1;
      }
    }
 
    // ------------------------------------------------------------ touching

    /** The newest arena comes to hold `required` bytes. Growing drains the window first, so that the
        move sees every accepted byte. */
    method EnsureByteCapacity(required: nat) returns (ok: bool)
      requires Valid() && frameOpen
      modifies this`frames, this`window, this`failed, this`arenaGrowths
      ensures Valid() && ok == (required <= config.maxBytesPerFrame)
      ensures ok ==> Grown(old(State()), State(), memory[..], required)
      ensures !ok ==> State() == Flushed(old(State()).(failed := true), memory[..])
    {
      ok := required <= config.maxBytesPerFrame;
      if !ok {
        FailKeeps(State(), snapshots, memory[..]);
        failed := true;
        assert State() == old(State()).(failed := true);
        FlushReadOnlyCapture();
      } else if required > |frames[Ring.Slot(firstFrame + frameCount - 1, |frames|)].bytes| {
        Grow(required);
      }
    }

    method Grow(required: nat)
      requires Valid() && frameOpen && |State().Newest().bytes| < required <= config.maxBytesPerFrame
      modifies this`frames, this`window, this`arenaGrowths
      ensures Valid() && Grown(old(State()), State(), memory[..], required)
    {
      ghost var j := State();
      FlushedNewest(j, memory[..]);
      RoomFor(j, snapshots, memory[..]);
      FlushReadOnlyCapture();
      Move(required);
      assert Grown(j, State(), memory[..], required);
      GrowKeeps(j, State(), snapshots, memory[..], required);
    }

    method Move(required: nat)
      requires Basic(State()) && frameCount > 0 && required <= config.maxBytesPerFrame
      requires State().Newest().byteSize <= |State().Newest().bytes| < required
      modifies this`frames, this`arenaGrowths
      ensures State().RingOk() && State() == old(State()).WithNewest(State().Newest())
      ensures Moved(old(State()).Newest(), State().Newest(), required, config.maxBytesPerFrame)
    {
      var back := Ring.Slot(firstFrame + frameCount - 1, |frames|);
      var r := frames[back];
      var capacity := if |r.bytes| != 0 then |r.bytes|
        else if config.maxBytesPerFrame < FIRST_ARENA then config.maxBytesPerFrame else FIRST_ARENA;
      while capacity < required
        invariant 0 < capacity
          && Doubled(capacity, required, config.maxBytesPerFrame) ==
           GrownCapacity(|r.bytes|, required, config.maxBytesPerFrame)
        decreases if capacity < required then config.maxBytesPerFrame - capacity else 0
      {
        capacity := if capacity <= config.maxBytesPerFrame / 2 then capacity * 2 else config.maxBytesPerFrame;
      }
      // The new arena is not initialised; only the stored bytes move.
      var arena := new bv8[capacity];
      arenaGrowths := arenaGrowths + 1;
      var bytes := r.bytes[..r.byteSize] + arena[r.byteSize..];
      assert bytes[..r.byteSize] == r.bytes[..r.byteSize];
      frames := frames[back := r.(bytes := bytes)];
    }
 
    /** Record the old bytes of a range before it is written. An exact duplicate is accepted without
        effect; a range that partly overlaps a block, or exceeds the budget, is refused and fails the
        journal. Bytes already accepted in the window survive a refusal. */
    method Touch(address: nat, size: nat) returns (ok: bool)
      requires Valid() && address <= MAX_ADDRESS
      requires address + size <= MAX_ADDRESS ==> address + size <= memory.Length
      modifies this`frames, this`window, this`failed, this`arenaGrowths
      ensures Valid() && ok == Accepts(old(State()), address, size)
      ensures !ok ==> State() == Refused(old(State()), memory[..], address, size)
      ensures ok && Listed(old(State()).Newest().blocks, address, size) ==> State() == old(State())
      ensures ok && !Listed(old(State()).Newest().blocks, address, size) ==>
        Touched(old(State()), State(), memory[..], address, size)
    {
      if !frameOpen || failed || address == 0 || size == 0 || size > MAX_ADDRESS - address {
        Refuse(address, size);
        return false;
      }
      RoomFor(State(), snapshots, memory[..]);
      var r := frames[Ring.Slot(firstFrame + frameCount - 1, |frames|)];
      ghost var t :| IndexedBy(r.blocks, r.root, t);
      var outcome, ancestors;
      ghost var path;
      outcome, ancestors, path := Search(r.blocks, r.root, address, size, t);
      if outcome == Duplicate { return true; }
      if outcome == Overlapping || |r.blocks| >= config.maxBlocksPerFrame || r.byteSize > config.maxBytesPerFrame ||
         size > config.maxBytesPerFrame - r.byteSize {
        Refuse(address, size);
        return false;
      }
      Accept(address, size, ancestors, path, t);
      return true;
    }

    method Refuse(address: nat, size: nat)
      requires Valid()
      modifies this`frames, this`window, this`failed
      ensures Valid() && State() == Refused(old(State()), memory[..], address, size)
    {
      RefuseKeeps(State(), snapshots, memory[..], address, size);
      FailKeeps(State(), snapshots, memory[..]);
      if frameOpen && address != 0 && size != 0 { failed := true; }
      assert State() == old(State()).(failed := old(failed) || (frameOpen && address != 0 && size != 0));
      FlushReadOnlyCapture();
    }

    method Accept(address: nat, size: nat, ancestors: seq<nat>, ghost path: Path, ghost t: Tree)
      requires Valid() && frameOpen && 0 < address && 0 < size && address + size <= memory.Length
      requires |State().Newest().blocks| < config.maxBlocksPerFrame
      requires State().Newest().byteSize + size <= config.maxBytesPerFrame
      requires IndexedBy(State().Newest().blocks, State().Newest().root, t) && ancestors == Ids(path)
      requires Cursor(State().Newest().blocks, State().Newest().root, t, path, Leaf, NO_BLOCK, address, address + size)
      requires AllApart(State().Newest().blocks, address, size)
      modifies this`frames, this`window, this`failed, this`arenaGrowths
      ensures Valid() && Touched(old(State()), State(), memory[..], address, size)
    {
      ghost var j := State();
      var offset := frames[Ring.Slot(firstFrame + frameCount - 1, |frames|)].byteSize;
      var roomy := EnsureByteCapacity(offset + size);
      assert roomy;
      ghost var g := State();
      GrownNewest(j, g, memory[..], offset + size);
      Place(address, size, ancestors, path, t);
      TouchStep(j, g, State(), snapshots, memory[..], address, size);
    }

    /** Copy the bytes now, or leave the copy to the window; then enter the block into the index. */
    method Place(address: nat, size: nat, ancestors: seq<nat>, ghost path: Path, ghost t: Tree)
      requires Basic(State()) && frameOpen && 0 < address && 0 < size && address + size <= memory.Length
      requires |State().Newest().blocks| < config.maxBlocksPerFrame
      requires State().Newest().byteSize + size <= |State().Newest().bytes|
      requires IndexedBy(State().Newest().blocks, State().Newest().root, t) && ancestors == Ids(path)
      requires Cursor(State().Newest().blocks, State().Newest().root, t, path, Leaf, NO_BLOCK, address, address + size)
      modifies this`frames, this`window
      ensures Basic(State())
      ensures State() ==
        old(State()).WithNewest(State().Newest()).(
          window := WindowAfter(old(window), |old(State()).Newest().blocks|, size))
      ensures AcceptedBlock(old(State()).Newest(), State().Newest(), memory[..], address, size,
                            old(window).open && size >= LARGE)
    {
      var back := Ring.Slot(firstFrame + frameCount - 1, |frames|);
      var r := frames[back];
      var defer := window.open && size >= LARGE;
      var bytes := r.bytes;
      if !defer {
        bytes := Splice(r.bytes, r.byteSize, memory[address..address + size]);
        SplicedSlices(r.bytes, r.byteSize, memory[address..address + size]);
        assert memory[address..address + size] == memory[..][address..address + size];
      }
      var blocks, root := Insert(r.blocks, r.root, address, size, r.byteSize, ancestors, path, t);
      frames := frames[back := FrameRecord(r.startFrame, r.endFrame, bytes, r.byteSize + size, blocks, root)];
      if defer {
        window := Window(true, if window.pendingBlocks == 0 then |r.blocks| else window.firstBlock,
          window.pendingBlocks + 1, window.pendingBytes + size,
          window.stats.(deferredBlocks := window.stats.deferredBlocks + 1,
              deferredBytes := window.stats.deferredBytes + size));
      }
      assert State() ==
        old(State()).WithNewest(State().Newest()).(window := WindowAfter(old(window), |r.blocks|, size));
    }
 
    // ------------------------------------------------------------ undo and discard

    /** The position of the oldest checkpoint whose frames include `frame`. */
    method FindFrame(frame: nat) returns (index: nat)
      requires State().RingOk()
      ensures index == Containing(State().Records(), frame)
    {
      index := 0;
      ghost var rs := State().Records();
      while index < frameCount
        invariant index <= frameCount
        invariant forall i :: 0 <= i < index ==> !(rs[i].startFrame <= frame <= rs[i].endFrame)
      {
        var r := frames[Ring.Slot(firstFrame + index, |frames|)];
        assert r == rs[index];
        if r.startFrame <= frame && frame <= r.endFrame { break; }
        index := index + 1;
      }
      ContainingIsFirst(rs, frame, index);
    }

    /** Restore the memory of the moment the checkpoint containing `frame` began, and drop that
        checkpoint and every newer one. Whether covered blocks are skipped changes the work, never the
        result; copied and skipped bytes together are the bytes of the dropped checkpoints. */
    method UndoTo(frame: nat) returns (ok: bool, restoredFrame: nat)
      requires Valid()
      modifies memory, this`frameCount, this`snapshots, this`restoreCopiedBytes, this`restoreSkippedBytes
      ensures Valid()
      ensures ok == (configured && !frameOpen && !failed && Containing(old(State()).Records(), frame) < old(frameCount))
      ensures !ok ==> State() == old(State()) && memory[..] == old(memory[..]) && snapshots == old(snapshots)
      ensures ok ==>
        var t := Containing(old(State()).Records(), frame);
        && |old(snapshots)| == old(frameCount)
        && memory[..] == old(snapshots)[t]
        && State() == old(State()).(frameCount := t) && State().Records() == old(State()).Records()[..t]
        && snapshots == old(snapshots)[..t]
        && restoredFrame == old(State()).Records()[t].startFrame
        && restoreCopiedBytes + restoreSkippedBytes
           == old(restoreCopiedBytes + restoreSkippedBytes) + ByteSizes(old(State()).Records()[t..])
    {
      ok, restoredFrame := false, 0;
      OneSnapshotEach(State(), snapshots, memory[..]);
      var target := FindFrame(frame);
      if !configured || frameOpen || failed || target == frameCount { return; }
      restoredFrame := Restore(target);
      ok := true;
    }

    method Restore(target: nat) returns (restoredFrame: nat)
      requires Valid() && configured && !frameOpen && target < frameCount == |snapshots|
      modifies memory, this`frameCount, this`snapshots, this`restoreCopiedBytes, this`restoreSkippedBytes
      ensures Valid() && memory[..] == old(snapshots)[target] && snapshots == old(snapshots)[..target]
      ensures State() == old(State()).(frameCount := target) && State().Records() == old(State()).Records()[..target]
      ensures restoredFrame == old(State()).Records()[target].startFrame
      ensures restoreCopiedBytes + restoreSkippedBytes
        == old(restoreCopiedBytes + restoreSkippedBytes) + ByteSizes(old(State()).Records()[target..])
    {
      ghost var j, before := State(), memory[..];
      restoredFrame := frames[Ring.Slot(firstFrame + target, |frames|)].startFrame;
      UndoStarts(j, snapshots, before, target);
      RestoreThrough(target, restoredFrame, j.Records(), snapshots);
      UndoKeeps(j, snapshots, before, target, memory[..]);
      snapshots := snapshots[..target];
      assert State() == j.(frameCount := target);
    }

    /** Restore checkpoint after checkpoint, newest first, while they end at or after the target's start. */
    method RestoreThrough(target: nat, start: nat, ghost rs: seq<FrameRecord>, ghost snaps: seq<Image>)
      requires target < frameCount == |rs| == |snaps| <= |frames| && firstFrame < |frames|
      requires Undoable(frames, firstFrame, rs, target) && start == rs[target].startFrame
      requires Undoing(rs, snaps, target, frameCount, memory[..], memory[..])
      modifies memory, this`frameCount, this`restoreCopiedBytes, this`restoreSkippedBytes
      ensures frameCount == target && memory[..] == snaps[target]
      ensures Chain(rs[..target], snaps[..target], memory[..], NO_BLOCK)
      ensures restoreCopiedBytes + restoreSkippedBytes
        == old(restoreCopiedBytes + restoreSkippedBytes) + ByteSizes(rs[target..])
    {
      ghost var after := memory[..];
      UndoableAt(frames, firstFrame, rs, target, frameCount - 1);
      while frameCount != 0 && frames[Ring.Slot(firstFrame + frameCount - 1, |frames|)].endFrame >= start
        invariant target <= frameCount <= |rs| && Undoing(rs, snaps, target, frameCount, after, memory[..])
        invariant frameCount < |rs| ==> after == snaps[frameCount]
        invariant frameCount != 0 ==>
          (target < frameCount <==> frames[Ring.Slot(firstFrame + frameCount - 1, |frames|)].endFrame >= start)
        invariant restoreCopiedBytes + restoreSkippedBytes
          == old(restoreCopiedBytes + restoreSkippedBytes) + ByteSizes(rs[frameCount..])
      {
        RestoreNewest(target, rs, snaps, after);
        after := snaps[frameCount];
        assert rs[frameCount..][1..] == rs[frameCount + 1..];
        if frameCount > 0 { UndoableAt(frames, firstFrame, rs, target, frameCount - 1); }
      }
      UndoingEnds(rs, snaps, target, after, memory[..]);
    }

    /** Restore one checkpoint, newest block first, and drop it. */
    method RestoreNewest(target: nat, ghost rs: seq<FrameRecord>, ghost snaps: seq<Image>, ghost after: Image)
      requires target < frameCount <= |rs| == |snaps| <= |frames| && firstFrame < |frames|
      requires Undoable(frames, firstFrame, rs, target)
      requires Undoing(rs, snaps, target, frameCount, after, memory[..])
      modifies memory, this`frameCount, this`restoreCopiedBytes, this`restoreSkippedBytes
      ensures frameCount == old(frameCount) - 1 && Undoing(rs, snaps, target, frameCount, snaps[frameCount], memory[..])
      ensures restoreCopiedBytes + restoreSkippedBytes
        == old(restoreCopiedBytes + restoreSkippedBytes) + rs[frameCount].byteSize
    {
      ghost var k := frameCount - 1;
      var record := frames[Ring.Slot(firstFrame + frameCount - 1, |frames|)];
      UndoableAt(frames, firstFrame, rs, target, k);
      assert record == rs[k];
      UndoingRecord(rs, snaps, target, k, after, memory[..]);
      var index := |record.blocks|;
      ghost var now := memory[..];
      assert record.blocks[..index] == record.blocks;
      while index > 0
        invariant frameCount == k + 1 && index <= |record.blocks|
        invariant now == memory[..] && Progress(rs, target, k, snaps[k], now, index)
        invariant restoreCopiedBytes + restoreSkippedBytes + Total(record.blocks[..index])
          == old(restoreCopiedBytes + restoreSkippedBytes) + record.byteSize
      {
        index := index - 1;
        assert record.blocks[..index + 1][..index] == record.blocks[..index];
        now := RestoreBlock(target, record, index, rs, snaps[k], now);
      }
      UndoingNext(rs, snaps, target, k, now);
      frameCount := frameCount - 1;
    }

    /** Put one block back, unless it is large and an older checkpoint will overwrite all of it. */
    method RestoreBlock(target: nat, record: FrameRecord, index: nat, ghost rs: seq<FrameRecord>, ghost before: Image,
                        ghost now: Image) returns (ghost restored: Image)
      requires target < frameCount <= |rs| <= |frames| && firstFrame < |frames| && record == rs[frameCount - 1]
      requires Undoable(frames, firstFrame, rs, target)
      requires Restorable(record, before) && index < |record.blocks|
      requires now == memory[..] && Progress(rs, target, frameCount - 1, before, now, index + 1)
      modifies memory, this`restoreCopiedBytes, this`restoreSkippedBytes
      ensures restored == memory[..] && Progress(rs, target, frameCount - 1, before, restored, index)
      ensures restoreCopiedBytes + restoreSkippedBytes
        == old(restoreCopiedBytes + restoreSkippedBytes) + record.blocks[index].size
    {
      RestorableAt(record, before, index);
      var block := record.blocks[index];
      var overwritten := false;
      if config.coalesceRestore && block.size >= LARGE {
        overwritten := Overwritten(target, block, rs);
      }
      if overwritten {
        ProgressBySkip(rs, target, frameCount - 1, before, now, index);
        restored := now;
        restoreSkippedBytes := restoreSkippedBytes + block.size;
      } else {
        restored := CopyBack(target, record, index, rs, before, now);
        restoreCopiedBytes := restoreCopiedBytes + block.size;
      }
    }

    method CopyBack(ghost target: nat, record: FrameRecord, index: nat, ghost rs: seq<FrameRecord>, ghost before: Image,
                    ghost now: Image) returns (ghost restored: Image)
      requires 0 < frameCount <= |rs| && record == rs[frameCount - 1]
      requires Restorable(record, before) && index < |record.blocks|
      requires now == memory[..] && Progress(rs, target, frameCount - 1, before, now, index + 1)
      modifies memory
      ensures restored == memory[..] && Progress(rs, target, frameCount - 1, before, restored, index)
    {
      RestorableAt(record, before, index);
      ProgressLength(rs, target, frameCount - 1, before, now, index + 1);
      var block := record.blocks[index];
      var bytes := record.bytes[block.offset..block.offset + block.size];
      restored := Splice(now, block.address, bytes);
      ProgressByCopy(rs, target, frameCount - 1, before, now, index, restored);
      CopyToMemory(block.address, bytes, restored);
    }

    /** Whether an older checkpoint that is also being restored covers the whole block. */
    method Overwritten(target: nat, block: Block, ghost rs: seq<FrameRecord>) returns (yes: bool)
      requires target < frameCount <= |rs| <= |frames| && firstFrame < |frames| && block.size > 0
      requires Undoable(frames, firstFrame, rs, target)
      ensures yes <==> EnclosedIn(rs, target, frameCount - 1, block.address, block.size)
    {
      var earlier := target;
      yes := false;
      while earlier + 1 < frameCount
        invariant target <= earlier <= frameCount - 1
        invariant !EnclosedIn(rs, target, earlier, block.address, block.size)
      {
        var record := frames[Ring.Slot(firstFrame + earlier, |frames|)];
        UndoableAt(frames, firstFrame, rs, target, earlier);
        ghost var t :| IndexedBy(record.blocks, record.root, t);
        var covered := CoversBlock(record.blocks, record.root, block.address, block.size, t);
        if covered { return true; }
        earlier := earlier + 1;
      }
    }

    method CopyToMemory(address: nat, source: seq<bv8>, ghost result: Image)
      requires address + |source| <= memory.Length && result == Splice(memory[..], address, source)
      modifies memory
      ensures memory[..] == result
    {
      forall i | 0 <= i < |source| { memory[address + i] := source[i]; }
    }

    /** Forget the oldest checkpoints that ended before `frame`; the rest can still be undone. Nothing
        is forgotten while a checkpoint is open. */
    method DiscardBefore(frame: nat)
      requires Valid()
      modifies this`firstFrame, this`frameCount, this`snapshots
      ensures Valid() && |old(snapshots)| == old(frameCount)
      ensures old(frameOpen) ==> State() == old(State()) && snapshots == old(snapshots)
      ensures !old(frameOpen) ==>
        var k := Stale(old(State()).Records(), frame);
        && State() == Dropped(old(State()), k) && snapshots == old(snapshots)[k..]
        && State().Records() == old(State()).Records()[k..]
    {
      OneSnapshotEach(State(), snapshots, memory[..]);
      if frameOpen { return; }
      ghost var k := Stale(State().Records(), frame);
      DropKeeps(State(), snapshots, memory[..], k);
      DropStale(frame);
      snapshots := snapshots[k..];
      assert State() == Dropped(old(State()), k);
    }

    method DropStale(frame: nat)
      requires Basic(State())
      modifies this`firstFrame, this`frameCount
      ensures State() == Dropped(old(State()), Stale(old(State()).Records(), frame))
    {
      ghost var j, k := State(), 0;
      ghost var stale := Stale(j.Records(), frame);
      while frameCount != 0 && frames[firstFrame].endFrame < frame
        invariant 0 <= k <= stale && frameCount == j.frameCount - k
        invariant firstFrame == Dropped(j, k).firstFrame
      {
        StaleStep(j, k, frame);
        firstFrame := Ring.Slot(firstFrame + 1, |frames|);
        frameCount := frameCount - 1;
        k := k + 1;
      }
      if k < j.frameCount { StaleStep(j, k, frame); }
      assert k == stale && State() == Dropped(j, stale);
    }
  }
}
