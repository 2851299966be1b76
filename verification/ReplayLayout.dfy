/** Where everything stands in a replay file, byte by byte and in numbers. */
module ReplayLayout {
  import opened Words
  import opened ReplayFormat

  /** A word, lowest byte first. */
  function Little(bytes: Bytes, at: nat): nat
    requires at + 4 <= |bytes|
  {
    (bytes[at] as int) + 0x100 * (bytes[at + 1] as int) + 0x1_0000 * (bytes[at + 2] as int)
      + 0x100_0000 * (bytes[at + 3] as int)
  }

  lemma LittleIsWord(bytes: Bytes, at: nat)
    requires at + 4 <= |bytes|
    ensures WordAt(bytes, at) == Little(bytes, at)
  {}

  /** The twelve bytes of one sample: buttons, mode, flags and the two axes. */
  ghost predicate SampleIs(bytes: Bytes, at: nat, s: Sample)
    requires at + 12 <= |bytes|
  {
    && s.buttons == (bytes[at] as int) + 0x100 * (bytes[at + 1] as int) && s.analogMode == bytes[at + 2]
    && bytes[at + 3] == (if s.unlimited then 1 else 0) + (if s.touchUsed then 2 else 0) + (if s.touchBomb then 4 else 0)
    && s.x == Little(bytes, at + 4) && s.y == Little(bytes, at + 8)
  }

  lemma SampleStands(bytes: Bytes, at: nat)
    requires at + SAMPLE <= |bytes| && SampleOk(bytes, at)
    ensures SampleIs(bytes, at, SampleAt(bytes, at))
  {
    LittleIsWord(bytes, at + 4);
    LittleIsWord(bytes, at + 8);
    FlagsSplit(bytes[at + 3]);
  }

  lemma FlagsSplit(flags: Byte)
    requires flags < 8
    ensures flags == flags % 2 + 2 * (flags / 2 % 2) + 4 * (flags / 4 % 2)
  {}

  lemma {:induction false} SampleInRow(bytes: Bytes, at: nat, seats: nat, s: nat)
    requires s < seats && at + SAMPLE * seats <= |bytes| && RowOk(bytes, at, seats)
    ensures at + 12 * s + 12 <= |bytes| && SampleIs(bytes, at + 12 * s, RowAt(bytes, at, seats)[s])
    decreases s
  {
    if s == 0 { SampleStands(bytes, at); } else { SampleInRow(bytes, at + SAMPLE, seats - 1, s - 1); }
  }

  lemma {:induction false} RowInFrames(bytes: Bytes, at: nat, frames: nat, seats: nat, f: nat, offset: nat)
    requires f < frames && at + FramesSize(frames, seats) <= |bytes| && FramesOk(bytes, at, frames, seats)
    requires offset == FramesSize(f, seats)
    ensures at + offset + SAMPLE * seats <= |bytes| && RowOk(bytes, at + offset, seats)
    ensures FramesAt(bytes, at, frames, seats)[f] == RowAt(bytes, at + offset, seats)
    decreases f
  {
    if f > 0 { RowInFrames(bytes, at + SAMPLE * seats, frames - 1, seats, f - 1, FramesSize(f - 1, seats)); }
  }

  lemma {:induction false} ChapterInList(bytes: Bytes, at: nat, count: nat, k: nat)
    requires k < count && at + 8 * count <= |bytes|
    ensures at + 8 * k + 8 <= |bytes|
    ensures ChaptersAt(bytes, at, count)[k] == Chapter(Little(bytes, at + 8 * k), Little(bytes, at + 8 * k + 4))
    decreases k
  {
    if k == 0 {
      LittleIsWord(bytes, at);
      LittleIsWord(bytes, at + 4);
    } else {
      ChapterInList(bytes, at + 8, count - 1, k - 1);
    }
  }

  /** The forty bytes of the header: "EAGLRPY1", the version, who recorded what, and the counts. */
  lemma HeaderStands(bytes: Bytes)
    requires Accepts(bytes)
    ensures bytes[..8] == [69, 65, 71, 76, 82, 80, 89, 49] && Little(bytes, 8) == 1
    ensures var r := Read(bytes);
      && r.config.gameId == Little(bytes, 12) && r.config.gameplayAbi == Little(bytes, 16)
      && r.config.playerCount == bytes[20] && r.config.recordedPlayer == bytes[21] && bytes[22] == bytes[23] == 0
      && |r.config.description| == Little(bytes, 24) && |r.chapters| == Little(bytes, 28)
      && |r.frames| == Little(bytes, 32) && Little(bytes, 36) == Checksum(bytes)
      && |bytes| == 40 + |r.config.description| + 8 * |r.chapters| + |r.frames| * r.config.playerCount * 12
      && bytes[40..40 + |r.config.description|] == r.config.description
  {
    WordsStand(bytes);
    FramesSizeIs(WordAt(bytes, 32), bytes[20]);
    forall i | 0 <= i < 8 ensures bytes[..8][i] == SIGNATURE[i] {}
  }

  lemma WordsStand(bytes: Bytes)
    requires 40 <= |bytes|
    ensures WordAt(bytes, 8) == Little(bytes, 8) && WordAt(bytes, 12) == Little(bytes, 12)
    ensures WordAt(bytes, 16) == Little(bytes, 16) && WordAt(bytes, 24) == Little(bytes, 24)
    ensures WordAt(bytes, 28) == Little(bytes, 28) && WordAt(bytes, 32) == Little(bytes, 32)
    ensures WordAt(bytes, 36) == Little(bytes, 36)
  {
    LittleIsWord(bytes, 8);
    LittleIsWord(bytes, 12);
    LittleIsWord(bytes, 16);
    LittleIsWord(bytes, 24);
    LittleIsWord(bytes, 28);
    LittleIsWord(bytes, 32);
    LittleIsWord(bytes, 36);
  }

  /** Behind the description, eight bytes for each chapter: its label and its first frame. */
  lemma ChapterStands(bytes: Bytes, k: nat)
    requires Accepts(bytes) && k < |Read(bytes).chapters|
    ensures var r := Read(bytes);
      var at := 40 + |r.config.description| + 8 * k;
      at + 8 <= |bytes| && r.chapters[k] == Chapter(Little(bytes, at), Little(bytes, at + 4))
  {
    ChapterInList(bytes, HEADER + WordAt(bytes, 24), WordAt(bytes, 28), k);
  }

  lemma Offset(f: nat, seats: nat, s: nat)
    ensures FramesSize(f, seats) + 12 * s == (f * seats + s) * 12
  {
    FramesSizeIs(f, seats);
  }

  lemma SampleInFrames(bytes: Bytes, at: nat, n: nat, seats: nat, f: nat, s: nat, frames: seq<Frame>)
    requires f < n && s < seats && at + FramesSize(n, seats) <= |bytes| && FramesOk(bytes, at, n, seats)
    requires frames == FramesAt(bytes, at, n, seats)
    ensures s < |frames[f]| && at + FramesSize(f, seats) + 12 * s + 12 <= |bytes|
    ensures SampleIs(bytes, at + FramesSize(f, seats) + 12 * s, frames[f][s])
  {
    RowInFrames(bytes, at, n, seats, f, FramesSize(f, seats));
    SampleInRow(bytes, at + FramesSize(f, seats), seats, s);
  }

  /** Behind the chapters, frame by frame and seat by seat, twelve bytes for each sample. */
  lemma FrameStands(bytes: Bytes, r: Recording, f: nat, s: nat, at: nat)
    requires Accepts(bytes) && r == Read(bytes) && f < |r.frames| && s < r.config.playerCount
    requires at == 40 + |r.config.description| + 8 * |r.chapters| + (f * (r.config.playerCount as int) + s) * 12
    ensures s < |r.frames[f]| && at + 12 <= |bytes| && SampleIs(bytes, at, r.frames[f][s])
  {
    Offset(f, r.config.playerCount, s);
    SampleInFrames(bytes, HEADER + WordAt(bytes, 24) + 8 * WordAt(bytes, 28), WordAt(bytes, 32), bytes[20], f, s,
        r.frames);
  }
}
