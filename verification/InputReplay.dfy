/** The replay owner: it records confirmed frames, prints them as a file and reads a file back. Every
    method is proved against the printer and the strict reader of `ReplayFormat`. */
module InputReplays {
  import opened Options
  import opened ReplayFormat
  import opened Words

  const NO_SAMPLE := Sample(0, 0, 0, 0, false, false, false)
  const NO_ROW: Frame := [NO_SAMPLE, NO_SAMPLE, NO_SAMPLE]
  const NO_CONFIG := Config(0, 0, 0, 0, [])

  datatype Info = Info(config: Config, chapters: seq<Chapter>, frameCount: nat)

  function Summary(r: Recording): Info { Info(r.config, r.chapters, |r.frames|) }

  /** The seats in use of each stored row. */
  function Seated(rows: seq<Frame>, seats: nat): (r: seq<Frame>)
    requires forall f :: 0 <= f < |rows| ==> seats <= |rows[f]|
    ensures |r| == |rows| && forall f :: 0 <= f < |rows| ==> r[f] == rows[f][..seats]
  {
    seq(|rows|, f requires 0 <= f < |rows| => rows[f][..seats])
  }

  // ---------------------------------------------------------------- recording

  predicate Continues(chapters: seq<Chapter>, title: Word) { chapters != [] && chapters[|chapters| - 1].title == title }

  predicate Unused(chapters: seq<Chapter>, title: Word) {
    forall c :: 0 <= c < |chapters| ==> chapters[c].title != title
  }

  /** The next frame, from every seat, in the current chapter or a fresh one. */
  predicate Appends(r: Recording, frame: nat, title: Word, inputs: Frame) {
    && |inputs| == r.config.playerCount && frame == |r.frames| && frame < MAX_FRAMES && title != 0 && AllValid(inputs)
    && (Continues(r.chapters, title) || (|r.chapters| < MAX_CHAPTERS && Unused(r.chapters, title)))
  }

  function Appended(r: Recording, title: Word, inputs: Frame): Recording
    requires |r.frames| < MAX_FRAMES
  {
    r.(chapters := if Continues(r.chapters, title) then r.chapters else r.chapters + [Chapter(title, |r.frames|)],
       frames := r.frames + [inputs])
  }

  /** A recording that has begun: empty, or ready to be printed. */
  predicate Sound(r: Recording) {
    if r.frames == [] then r.config.Valid() && r.chapters == [] else Valid(r)
  }

  /** However frames are appended, what is recorded can be printed and read back. */
  lemma AppendKeeps(r: Recording, frame: nat, title: Word, inputs: Frame)
    requires Sound(r) && Appends(r, frame, title, inputs)
    ensures Valid(Appended(r, title, inputs)) && Accepts(Printed(Appended(r, title, inputs)))
    ensures Read(Printed(Appended(r, title, inputs))) == Appended(r, title, inputs)
  {
    AppendedIsValid(r, frame, title, inputs);
    PrintedIsRead(Appended(r, title, inputs));
  }

  lemma AppendedIsValid(r: Recording, frame: nat, title: Word, inputs: Frame)
    requires Sound(r) && Appends(r, frame, title, inputs)
    ensures Valid(Appended(r, title, inputs))
  {}

  /** A frame is taken exactly when it is the next one and what it gives is again a valid recording: so the rules of
      recording and those of the strict reader are the same. */
  lemma AppendsExactly(r: Recording, frame: nat, title: Word, inputs: Frame)
    requires Sound(r)
    ensures Appends(r, frame, title, inputs)
      == (frame == |r.frames| && |r.frames| < MAX_FRAMES && Valid(Appended(r, title, inputs)))
  {
    if frame == |r.frames| && |r.frames| < MAX_FRAMES && Valid(Appended(r, title, inputs)) {
      var a := Appended(r, title, inputs);
      assert a.frames[frame] == inputs;
      if !Continues(r.chapters, title) {
        assert a.chapters[|r.chapters|] == Chapter(title, frame);
        assert forall c :: 0 <= c < |r.chapters| ==> a.chapters[c] == r.chapters[c];
      }
    }
  }

  /** What is recorded is what was given: the frames before and this one, under its label, and a chapter of its own
      exactly when the label is a new one. */
  lemma AppendsAsGiven(r: Recording, frame: nat, title: Word, inputs: Frame)
    requires Sound(r) && Appends(r, frame, title, inputs)
    ensures var a := Appended(r, title, inputs);
      && a.config == r.config && a.frames == r.frames + [inputs] && r.chapters <= a.chapters
      && a.chapters != [] && a.chapters[|a.chapters| - 1].title == title
      && (if r.chapters != [] && r.chapters[|r.chapters| - 1].title == title then |a.chapters| == |r.chapters|
          else |a.chapters| == |r.chapters| + 1 && a.chapters[|r.chapters|].firstFrame == frame)
  {}

  // ---------------------------------------------------------------- growing the printed pieces

  lemma {:induction false} ChaptersGrow(chapters: seq<Chapter>, c: Chapter)
    ensures ChaptersBytes(chapters + [c]) == ChaptersBytes(chapters) + (WordBytes(c.title) + WordBytes(c.firstFrame))
  {
    if chapters == [] {
      assert ChaptersBytes([c]) == WordBytes(c.title) + WordBytes(c.firstFrame) + ChaptersBytes([]);
    } else {
      assert (chapters + [c])[1..] == chapters[1..] + [c];
      ChaptersGrow(chapters[1..], c);
    }
  }

  lemma {:induction false} RowGrows(row: Frame, s: Sample)
    requires AllValid(row) && s.Valid()
    ensures AllValid(row + [s]) && RowBytes(row + [s]) == RowBytes(row) + SampleBytes(s)
  {
    if row == [] {
      assert RowBytes([s]) == SampleBytes(s) + RowBytes([]);
    } else {
      assert (row + [s])[1..] == row[1..] + [s];
      RowGrows(row[1..], s);
    }
  }

  predicate AllFrames(frames: seq<Frame>, seats: nat) { forall f :: 0 <= f < |frames| ==> ValidFrame(frames[f], seats) }

  lemma {:induction false} FramesGrow(frames: seq<Frame>, row: Frame, seats: nat)
    requires AllFrames(frames, seats) && ValidFrame(row, seats)
    ensures AllFrames(frames + [row], seats)
      && FramesBytes(frames + [row], seats) == FramesBytes(frames, seats) + RowBytes(row)
  {
    if frames == [] {
      assert FramesBytes([row], seats) == RowBytes(row) + FramesBytes([], seats);
    } else {
      var whole := frames + [row];
      FramesGrow(frames[1..], row, seats);
      assert whole[0] == frames[0] && whole[1..] == frames[1..] + [row] && ValidFrame(whole[0], seats);
      assert FramesBytes(whole, seats) == RowBytes(whole[0]) + FramesBytes(whole[1..], seats);
    }
  }

  /** Writing the hash over its word is all that separates the hashed file from the finished one. */
  lemma PatchIsHash(r: Recording, hash: Word, before: Bytes, after: Bytes)
    requires Valid(r) && before == FileBytes(r, 0) && |after| == |before|
    requires forall i :: 0 <= i < |before| && !(36 <= i < 40) ==> after[i] == before[i]
    requires forall i :: 0 <= i < 4 ==> after[36 + i] == WordBytes(hash)[i]
    ensures after == FileBytes(r, hash)
  {
    FileLength(r, 0);
    FileLength(r, hash);
    var file := FileBytes(r, hash);
    forall i | 0 <= i < |after| ensures after[i] == file[i] {
      if i < 36 {
        assert HeaderBytes(r, 0)[i] == HeaderBytes(r, hash)[i];
      } else if i < 40 {
        assert HeaderBytes(r, hash)[i] == WordBytes(hash)[i - 36];
        assert after[36 + (i - 36)] == WordBytes(hash)[i - 36];
      }
    }
  }

  // ---------------------------------------------------------------- writing

  method Put(bytes: Bytes, value: Word) returns (r: Bytes)
    ensures r == bytes + WordBytes(value)
  {
    r := bytes;
    var rest: nat, i := value, 0;
    while i < 4
      invariant 0 <= i <= 4 && r == bytes + WordBytes(value)[..i]
      invariant rest ==
        (if i == 0 then value
         else if i == 1 then value / 256 else if i == 2 then value / 65536 else if i == 3 then value / 16777216 else 0)
    {
      r := r + [rest % 256];
      rest := rest / 256;
      i := i + 1;
    }
  }

  method ComputeChecksum(bytes: Bytes) returns (hash: Word)
    ensures hash == Checksum(bytes)
  {
    hash := FNV_BASIS;
    var i := 0;
    while i < |bytes|
      invariant 0 <= i <= |bytes| && hash == HashUpTo(bytes, i)
    {
      if i < 36 || i >= 40 { hash := Step(hash, bytes[i]); }
      i := i + 1;
    }
  }

  method PutHeader(c: Config, description: nat, chapters: nat, frames: nat) returns (out: Bytes)
    requires description < WORD_LIMIT && chapters < WORD_LIMIT && frames < WORD_LIMIT
    ensures out == SIGNATURE + (WordBytes(1) + (WordBytes(c.gameId) + (WordBytes(c.gameplayAbi) + (Players(c)
      + (WordBytes(description) + (WordBytes(chapters) + (WordBytes(frames) + WordBytes(0))))))))
  {
    out := SIGNATURE;
    out := Put(out, 1);
    out := Put(out, c.gameId);
    out := Put(out, c.gameplayAbi);
    out := out + [c.playerCount] + [c.recordedPlayer] + [0] + [0];
    assert out == SIGNATURE + (WordBytes(1) + (WordBytes(c.gameId) + (WordBytes(c.gameplayAbi) + Players(c))));
    ghost var first := out;
    out := Put(out, description);
    out := Put(out, chapters);
    out := Put(out, frames);
    out := Put(out, 0);
    assert out == first + (WordBytes(description) + (WordBytes(chapters) + (WordBytes(frames) + WordBytes(0))));
  }

  method PutChapters(bytes: Bytes, chapters: seq<Chapter>, count: nat) returns (out: Bytes)
    requires count <= |chapters|
    ensures out == bytes + ChaptersBytes(chapters[..count])
  {
    out := bytes;
    var i := 0;
    while i < count
      invariant 0 <= i <= count && out == bytes + ChaptersBytes(chapters[..i])
    {
      ChaptersGrow(chapters[..i], chapters[i]);
      assert chapters[..i + 1] == chapters[..i] + [chapters[i]];
      out := Put(out, chapters[i].title);
      out := Put(out, chapters[i].firstFrame);
      i := i + 1;
    }
  }

  method PutSample(bytes: Bytes, s: Sample) returns (out: Bytes)
    requires s.Valid()
    ensures out == bytes + SampleBytes(s)
  {
    out := bytes + [s.buttons % 256] + [s.buttons / 256] + [s.analogMode] + [Flags(s)];
    assert out == bytes + [s.buttons % 256, s.buttons / 256, s.analogMode, Flags(s)];
    out := Put(out, s.x);
    out := Put(out, s.y);
  }

  method PutRow(bytes: Bytes, row: Frame, seats: nat) returns (out: Bytes)
    requires seats <= |row| && AllValid(row[..seats])
    ensures out == bytes + RowBytes(row[..seats])
  {
    out := bytes;
    var seat := 0;
    while seat < seats
      invariant 0 <= seat <= seats && AllValid(row[..seat]) && out == bytes + RowBytes(row[..seat])
    {
      assert row[..seats][seat] == row[seat];
      RowGrows(row[..seat], row[seat]);
      assert row[..seat + 1] == row[..seat] + [row[seat]];
      out := PutSample(out, row[seat]);
      seat := seat + 1;
    }
  }

  method PutFrames(bytes: Bytes, rows: array<Frame>, count: nat, seats: nat) returns (out: Bytes)
    requires count <= rows.Length && forall f :: 0 <= f < count ==> seats <= |rows[f]|
    requires AllFrames(Seated(rows[..count], seats), seats)
    ensures out == bytes + FramesBytes(Seated(rows[..count], seats), seats)
  {
    ghost var all := Seated(rows[..count], seats);
    out := bytes;
    var frame := 0;
    while frame < count
      invariant 0 <= frame <= count && AllFrames(all[..frame], seats) && out == bytes + FramesBytes(all[..frame], seats)
    {
      assert all[frame] == rows[frame][..seats] && ValidFrame(all[frame], seats);
      FramesGrow(all[..frame], all[frame], seats);
      assert all[..frame + 1] == all[..frame] + [all[frame]];
      out := PutRow(out, rows[frame], seats);
      frame := frame + 1;
    }
    assert all[..count] == all;
  }

  method PatchHash(bytes: Bytes, hash: Word) returns (out: Bytes)
    requires HEADER <= |bytes|
    ensures |out| == |bytes| && (forall i :: 0 <= i < |bytes| && !(36 <= i < 40) ==> out[i] == bytes[i])
    ensures forall i :: 0 <= i < 4 ==> out[36 + i] == WordBytes(hash)[i]
  {
    out := bytes[36 := hash % 256];
    out := out[37 := hash / 256 % 256];
    out := out[38 := hash / 65536 % 256];
    out := out[39 := hash / 16777216];
  }

  /** How many chapters begin before frame `k`. */
  method CountChapters(chapters: seq<Chapter>, k: nat) returns (count: nat)
    ensures count == ChaptersBefore(chapters, k)
  {
    count := 0;
    while count < |chapters| && chapters[count].firstFrame < k
      invariant count <= |chapters| && ChaptersBefore(chapters, k) == count + ChaptersBefore(chapters[count..], k)
    {
      assert chapters[count..][1..] == chapters[count + 1..];
      count := count + 1;
    }
  }

  // ---------------------------------------------------------------- reading

  method HasSignature(bytes: Bytes) returns (ok: bool)
    ensures ok <==> 8 <= |bytes| && Holds8(bytes)
  {
    ok := 8 <= |bytes| && bytes[..8] == SIGNATURE;
    if 8 <= |bytes| && Holds8(bytes) { assert bytes[..8] == SIGNATURE; }
    if ok { assert forall i :: 0 <= i < 8 ==> bytes[i] == bytes[..8][i]; }
  }

  /** Signature, bounds, exact size and checksum, before anything else is trusted. */
  method InspectHeader(bytes: Bytes) returns (ok: bool)
    ensures ok == HeaderOk(bytes)
  {
    var signed := HasSignature(bytes);
    if !signed || |bytes| < HEADER || |bytes| > MAX_BYTES || WordAt(bytes, 8) != 1 || bytes[22] != 0 || bytes[23] != 0 {
      return false;
    }
    var players, description := bytes[20], WordAt(bytes, 24);
    var chapters, frames := WordAt(bytes, 28), WordAt(bytes, 32);
    if !(WordAt(bytes, 12) != 0 && WordAt(bytes, 16) != 0 && 2 <= players <= MAX_PLAYERS && bytes[21] < players)
      || description > MAX_DESCRIPTION || chapters == 0 || chapters > MAX_CHAPTERS
      || frames == 0 || frames > MAX_FRAMES { return false; }
    var expected := HEADER + description as int + chapters as int * 8 + frames as int * players as int * SAMPLE;
    FramesSizeIs(frames, players);
    if expected != |bytes| { return false; }
    var hash := ComputeChecksum(bytes);
    ok := WordAt(bytes, 36) == hash;
  }

  /** What one chapter must satisfy given those before it. */
  predicate ChapterFits(before: seq<Chapter>, chapter: Chapter, frames: nat) {
    && chapter.title != 0 && chapter.firstFrame < frames && (before == [] ==> chapter.firstFrame == 0)
    && (before != [] ==> before[|before| - 1].firstFrame < chapter.firstFrame) && Unused(before, chapter.title)
  }

  predicate ChapterOk(chapters: seq<Chapter>, i: nat, frames: nat)
    requires i < |chapters|
  {
    ChapterFits(chapters[..i], chapters[i], frames)
  }

  lemma ChaptersAreValid(chapters: seq<Chapter>, frames: nat)
    requires 1 <= |chapters| <= MAX_CHAPTERS
    ensures ValidChapters(chapters, frames) <==> forall i :: 0 <= i < |chapters| ==> ChapterOk(chapters, i, frames)
  {
    if forall i :: 0 <= i < |chapters| ==> ChapterOk(chapters, i, frames) {
      assert ChapterOk(chapters, 0, frames);
      forall i | 0 <= i < |chapters|
        ensures chapters[i].title != 0 && chapters[i].firstFrame < frames
        ensures i > 0 ==> chapters[i - 1].firstFrame < chapters[i].firstFrame
      {
        assert ChapterOk(chapters, i, frames);
      }
      forall i, j | 0 <= j < i < |chapters| ensures chapters[j].title != chapters[i].title {
        assert ChapterOk(chapters, i, frames) && chapters[..i][j] == chapters[j];
      }
    }
  }

  lemma {:induction false} ChaptersAtIndex(bytes: Bytes, at: nat, count: nat, i: nat)
    requires at + 8 * count <= |bytes| && i < count
    ensures ChaptersAt(bytes, at, count)[i] == ChapterAt(bytes, at + 8 * i)
    decreases count
  {
    if i > 0 { ChaptersAtIndex(bytes, at + 8, count - 1, i - 1); }
  }

  method TitleUnused(chapters: seq<Chapter>, title: Word) returns (ok: bool)
    ensures ok == Unused(chapters, title)
  {
    var j := 0;
    while j < |chapters|
      invariant 0 <= j <= |chapters| && forall k :: 0 <= k < j ==> chapters[k].title != title
    {
      if chapters[j].title == title { return false; }
      j := j + 1;
    }
    ok := true;
  }

  method InspectChapter(before: seq<Chapter>, chapter: Chapter, frames: nat) returns (ok: bool)
    ensures ok <==> ChapterFits(before, chapter, frames)
  {
    if chapter.title == 0 || chapter.firstFrame >= frames || (before == [] && chapter.firstFrame != 0)
      || (before != [] && chapter.firstFrame <= before[|before| - 1].firstFrame) { return false; }
    ok := TitleUnused(before, chapter.title);
  }

  method InspectChapters(bytes: Bytes, start: nat, count: nat, frames: nat) returns (ok: bool, chapters: seq<Chapter>)
    requires 1 <= count <= MAX_CHAPTERS && start + 8 * count <= |bytes|
    ensures ok <==> ValidChapters(ChaptersAt(bytes, start, count), frames)
    ensures ok ==> chapters == ChaptersAt(bytes, start, count)
  {
    ghost var all := ChaptersAt(bytes, start, count);
    ok, chapters := InspectEach(bytes, start, count, frames, all);
    ChaptersAreValid(all, frames);
  }

  method InspectEach(bytes: Bytes, start: nat, count: nat, frames: nat, ghost all: seq<Chapter>)
    returns (ok: bool, chapters: seq<Chapter>)
    requires start + 8 * count <= |bytes| && all == ChaptersAt(bytes, start, count)
    ensures ok <==> forall k :: 0 <= k < count ==> ChapterOk(all, k, frames)
    ensures ok ==> chapters == all
  {
    chapters := [];
    var i := 0;
    while i < count
      invariant 0 <= i <= count && chapters == all[..i] && forall k :: 0 <= k < i ==> ChapterOk(all, k, frames)
    {
      ChaptersAtIndex(bytes, start, count, i);
      var chapter := ChapterAt(bytes, start + 8 * i);
      ok := InspectChapter(chapters, chapter, frames);
      assert ok <==> ChapterOk(all, i, frames);
      if !ok { return; }
      chapters := chapters + [chapter];
      i := i + 1;
    }
    ok := true;
  }

  method InspectRow(bytes: Bytes, at: nat, seats: nat) returns (ok: bool)
    requires at + SAMPLE * seats <= |bytes|
    ensures ok <==> RowOk(bytes, at, seats)
  {
    var seat, cursor := 0, at;
    while seat < seats
      invariant 0 <= seat <= seats && cursor == at + SAMPLE * seat
      invariant RowOk(bytes, at, seats) <==> RowOk(bytes, cursor, seats - seat)
    {
      if !SampleOk(bytes, cursor) { return false; }
      seat, cursor := seat + 1, cursor + SAMPLE;
    }
    ok := true;
  }

  method InspectFrames(bytes: Bytes, at: nat, frames: nat, seats: nat) returns (ok: bool)
    requires at + FramesSize(frames, seats) <= |bytes|
    ensures ok <==> FramesOk(bytes, at, frames, seats)
  {
    var frame, cursor := 0, at;
    while frame < frames
      invariant 0 <= frame <= frames && at <= cursor && cursor + FramesSize(frames - frame, seats) <= |bytes|
      invariant FramesOk(bytes, at, frames, seats) <==> FramesOk(bytes, cursor, frames - frame, seats)
    {
      var rowOk := InspectRow(bytes, cursor, seats);
      if !rowOk { return false; }
      frame, cursor := frame + 1, cursor + SAMPLE * seats;
    }
    ok := true;
  }

  function InfoAt(bytes: Bytes, d: nat, c: nat, n: nat): Info
    requires HEADER + d + 8 * c <= |bytes|
  {
    Info(ConfigAt(bytes, d), ChaptersAt(bytes, HEADER + d, c), n)
  }

  lemma InfoIsSummary(bytes: Bytes, d: nat, c: nat, n: nat, seats: nat)
    requires HEADER <= |bytes| == FileSize(d, c, n, seats)
    ensures InfoAt(bytes, d, c, n) == Summary(ReadAs(bytes, d, c, n, seats))
  {}

  lemma BodyDecides(bytes: Bytes, d: nat, c: nat, n: nat, seats: nat, chapters: bool, frames: bool)
    requires HEADER <= |bytes| == FileSize(d, c, n, seats)
    requires chapters == ValidChapters(ChaptersAt(bytes, HEADER + d, c), n)
    requires chapters ==> frames == FramesOk(bytes, HEADER + d + 8 * c, n, seats)
    ensures (chapters && frames) == BodyOk(bytes, d, c, n, seats)
  {}

  /** Every check without keeping any sample: this accepts exactly the files the specification accepts. */
  method Inspect(bytes: Bytes) returns (info: Option<Info>)
    ensures info.Some? == Accepts(bytes)
    ensures info.Some? ==> info.value == Summary(Read(bytes))
  {
    var headerOk := InspectHeader(bytes);
    if !headerOk { return None; }
    InfoIsSummary(bytes, WordAt(bytes, 24), WordAt(bytes, 28), WordAt(bytes, 32), bytes[20]);
    info := InspectBody(bytes, WordAt(bytes, 24), WordAt(bytes, 28), WordAt(bytes, 32), bytes[20]);
  }

  /** Past the header, the chapters and the samples decide. */
  method InspectBody(bytes: Bytes, d: nat, c: nat, n: nat, seats: nat) returns (info: Option<Info>)
    requires HEADER <= |bytes| == FileSize(d, c, n, seats) && 1 <= c <= MAX_CHAPTERS
    ensures info.Some? == BodyOk(bytes, d, c, n, seats)
    ensures info.Some? ==> info.value == InfoAt(bytes, d, c, n)
  {
    var chaptersOk, chapters := InspectChapters(bytes, HEADER + d, c, n);
    if !chaptersOk {
      BodyDecides(bytes, d, c, n, seats, false, false);
      return None;
    }
    var framesOk := InspectFrames(bytes, HEADER + d + 8 * c, n, seats);
    BodyDecides(bytes, d, c, n, seats, true, framesOk);
    info := if framesOk then Some(Info(ConfigAt(bytes, d), chapters, n)) else None;
  }

  method ReadRow(bytes: Bytes, at: nat, seats: nat) returns (row: Frame)
    requires seats <= MAX_PLAYERS && at + SAMPLE * seats <= |bytes|
    ensures |row| == MAX_PLAYERS && row[..seats] == RowAt(bytes, at, seats)
  {
    row := NO_ROW;
    var seat, cursor := 0, at;
    while seat < seats
      invariant 0 <= seat <= seats && cursor == at + SAMPLE * seat && |row| == MAX_PLAYERS
      invariant RowAt(bytes, at, seats) == row[..seat] + RowAt(bytes, cursor, seats - seat)
    {
      ghost var before := row[..seat];
      row := row[seat := SampleAt(bytes, cursor)];
      assert row[..seat + 1] == before + [SampleAt(bytes, cursor)];
      assert RowAt(bytes, cursor, seats - seat) ==
        [SampleAt(bytes, cursor)] + RowAt(bytes, cursor + SAMPLE, seats - seat - 1);
      seat, cursor := seat + 1, cursor + SAMPLE;
    }
  }

  lemma FramesAtHead(bytes: Bytes, at: nat, frames: nat, seats: nat, rest: seq<Frame>)
    requires frames > 0 && at + FramesSize(frames, seats) <= |bytes| && rest == FramesAt(bytes, at, frames, seats)
    ensures at + SAMPLE * seats + FramesSize(frames - 1, seats) <= |bytes|
    ensures rest[0] == RowAt(bytes, at, seats) && rest[1..] == FramesAt(bytes, at + SAMPLE * seats, frames - 1, seats)
  {}

  ghost predicate Filled(rows: seq<Frame>, all: seq<Frame>, frame: nat, seats: nat) {
    && |rows| == |all| && frame <= |all| && seats <= MAX_PLAYERS
    && (forall f :: 0 <= f < |rows| ==> |rows[f]| == MAX_PLAYERS)
    && forall f :: 0 <= f < frame ==> rows[f][..seats] == all[f]
  }

  lemma FilledIsSeated(rows: seq<Frame>, all: seq<Frame>, seats: nat)
    requires Filled(rows, all, |all|, seats)
    ensures Seated(rows, seats) == all
  {}

  method ReadInto(bytes: Bytes, cursor: nat, rows: array<Frame>, frame: nat, left: nat, seats: nat,
      ghost all: seq<Frame>)
    requires left > 0 && cursor + FramesSize(left, seats) <= |bytes|
    requires Filled(rows[..], all, frame, seats) && frame < rows.Length
      && all[frame..] == FramesAt(bytes, cursor, left, seats)
    modifies rows
    ensures cursor + SAMPLE * seats + FramesSize(left - 1, seats) <= |bytes|
    ensures Filled(rows[..], all, frame + 1, seats)
      && all[frame + 1..] == FramesAt(bytes, cursor + SAMPLE * seats, left - 1, seats)
  {
    FramesAtHead(bytes, cursor, left, seats, all[frame..]);
    assert all[frame..][1..] == all[frame + 1..];
    var row := ReadRow(bytes, cursor, seats);
    rows[frame] := row;
  }

  method ReadFrames(bytes: Bytes, at: nat, frames: nat, seats: nat) returns (rows: array<Frame>)
    requires seats <= MAX_PLAYERS && at + FramesSize(frames, seats) <= |bytes|
    ensures fresh(rows) && rows.Length == frames && Filled(rows[..], FramesAt(bytes, at, frames, seats), frames, seats)
  {
    ghost var all := FramesAt(bytes, at, frames, seats);
    rows := new Frame[frames](_ => NO_ROW);
    var frame, cursor, left := 0, at, frames;
    while left > 0
      invariant 0 <= left && frame == frames - left && at <= cursor && cursor + FramesSize(left, seats) <= |bytes|
      invariant Filled(rows[..], all, frame, seats) && all[frame..] == FramesAt(bytes, cursor, left, seats)
    {
      ReadInto(bytes, cursor, rows, frame, left, seats, all);
      frame, cursor, left := frame + 1, cursor + SAMPLE * seats, left - 1;
    }
  }

  // ---------------------------------------------------------------- writing a whole file

  lemma FileIs(p: Recording, header: Bytes)
    requires Valid(p)
    requires header ==
      SIGNATURE + (WordBytes(1) + (WordBytes(p.config.gameId) + (WordBytes(p.config.gameplayAbi) + (Players(p.config)
      + (WordBytes(|p.config.description|) + (WordBytes(|p.chapters|) + (WordBytes(|p.frames|) + WordBytes(0))))))))
    ensures |header| == HEADER
    ensures header + p.config.description + ChaptersBytes(p.chapters) + FramesBytes(p.frames, p.config.playerCount) ==
      FileBytes(p, 0)
  {
    assert header == HeaderBytes(p, 0);
    Regroup(header, p.config.description, ChaptersBytes(p.chapters), FramesBytes(p.frames, p.config.playerCount));
  }

  lemma Regroup(a: Bytes, b: Bytes, c: Bytes, d: Bytes)
    ensures a + b + c + d == a + (b + (c + d))
  {}

  /** Header, description, chapter table and samples, then the checksum over all of it. */
  method Assemble(c: Config, chapters: seq<Chapter>, count: nat, rows: array<Frame>, n: nat, ghost p: Recording)
    returns (out: Bytes)
    requires n <= rows.Length && count <= |chapters| && c.playerCount <= MAX_PLAYERS
    requires forall f :: 0 <= f < n ==> |rows[f]| == MAX_PLAYERS
    requires p == Recording(c, chapters[..count], Seated(rows[..n], c.playerCount)) && Valid(p)
    ensures out == Printed(p)
  {
    out := PutHeader(c, |c.description|, count, n);
    FileIs(p, out);
    out := out + c.description;
    out := PutChapters(out, chapters, count);
    out := PutFrames(out, rows, n, c.playerCount);
    FileLength(p, 0);
    var hash := ComputeChecksum(out);
    ghost var before := out;
    out := PatchHash(out, hash);
    PatchIsHash(p, hash, before, out);
  }

  /** What `Encode` prints: the first `n` frames, possibly under another description. */
  function Excerpt(r: Recording, override: Option<Bytes>, n: nat): Recording
    requires n <= |r.frames|
  {
    Prefix(r.(config := Described(r.config, override)), n)
  }

  function Described(c: Config, override: Option<Bytes>): Config {
    if override.Some? then c.(description := override.value) else c
  }

  lemma ExcerptIsValid(r: Recording, override: Option<Bytes>, n: nat)
    requires Sound(r) && 0 < n <= |r.frames| && |Described(r.config, override).description| <= MAX_DESCRIPTION
    ensures Valid(Excerpt(r, override, n))
  {
    var whole := r.(config := Described(r.config, override));
    WithDescription(r, override, whole);
    PrefixIsRead(whole, n);
  }

  /** What a file of the first `n` frames reads back as, under the description it was given. */
  lemma ExcerptIsRead(r: Recording, override: Option<Bytes>, n: nat)
    requires Sound(r) && 0 < n <= |r.frames| && |Described(r.config, override).description| <= MAX_DESCRIPTION
    ensures Valid(Excerpt(r, override, n)) && Accepts(Printed(Excerpt(r, override, n)))
    ensures var p := Read(Printed(Excerpt(r, override, n)));
      && p.frames == r.frames[..n] && p.chapters <= r.chapters
      && (forall i :: 0 <= i < |r.chapters| ==> (i < |p.chapters| <==> r.chapters[i].firstFrame < n))
      && p.config.(description := []) == r.config.(description := [])
      && p.config.description == (if override.Some? then override.value else r.config.description)
  {
    var whole := r.(config := Described(r.config, override));
    WithDescription(r, override, whole);
    PrefixIsRead(whole, n);
  }

  /** Reading an accepted file and encoding all of it gives the file back, byte for byte. */
  lemma EncodedIsDecoded(bytes: Bytes)
    requires Accepts(bytes)
    ensures var r := Read(bytes);
      Valid(Excerpt(r, None, |r.frames|)) && Printed(Excerpt(r, None, |r.frames|)) == bytes
  {
    var r := Read(bytes);
    ReadIsPrinted(bytes);
    WholeIsPrefix(r);
    assert r.(config := Described(r.config, None)) == r;
  }

  lemma WithDescription(r: Recording, override: Option<Bytes>, whole: Recording)
    requires Valid(r) && |Described(r.config, override).description| <= MAX_DESCRIPTION
    requires whole == r.(config := Described(r.config, override))
    ensures Valid(whole)
  {}

  // ---------------------------------------------------------------- the owner

  method AllSamplesValid(inputs: Frame) returns (ok: bool)
    ensures ok == AllValid(inputs)
  {
    var seat := 0;
    while seat < |inputs|
      invariant 0 <= seat <= |inputs| && forall k :: 0 <= k < seat ==> inputs[k].Valid()
    {
      if !inputs[seat].Valid() { return false; }
      seat := seat + 1;
    }
    ok := true;
  }

  lemma SeatedGrows(before: seq<Frame>, after: seq<Frame>, inputs: Frame, seats: nat)
    requires forall f :: 0 <= f < |before| ==> seats <= |before[f]|
    requires |after| == |before| + 1 && after[..|before|] == before && seats <= |after[|before|]|
      && after[|before|][..seats] == inputs
    ensures forall f :: 0 <= f < |after| ==> seats <= |after[f]|
    ensures Seated(after, seats) == Seated(before, seats) + [inputs]
  {
    forall f | 0 <= f < |before| ensures after[f] == before[f] { assert after[..|before|][f] == before[f]; }
  }

  class InputReplay {
    var config: Config
    var chapters: seq<Chapter>
    var frameCount: nat
    var rows: array?<Frame>
    var recording: bool
    var loaded: bool

    ghost predicate Valid()
      reads this, rows
    {
      && (rows == null ==> !recording && !loaded && frameCount == 0)
      && (rows != null ==> Stored(rows))
      && (recording ==> rows != null && rows.Length == MAX_FRAMES)
    }

    ghost predicate Stored(a: array<Frame>)
      reads this, a
    {
      && frameCount <= a.Length <= MAX_FRAMES && config.Valid()
      && (forall f :: 0 <= f < a.Length ==> |a[f]| == MAX_PLAYERS)
      && Sound(Recorded(a[..frameCount]))
    }

    ghost function Recorded(stored: seq<Frame>): Recording
      requires config.playerCount <= MAX_PLAYERS && forall f :: 0 <= f < |stored| ==> |stored[f]| == MAX_PLAYERS
      reads this
    {
      Recording(config, chapters, Seated(stored, config.playerCount))
    }

    /** What is held: the frames of the seats in use. */
    ghost function Contents(): Recording
      requires Valid() && rows != null
      reads this, rows
    {
      Recorded(rows[..frameCount])
    }

    constructor ()
      ensures Valid() && rows == null
    {
      config, chapters, frameCount, rows, recording, loaded := NO_CONFIG, [], 0, null, false, false;
    }

    method Clear()
      modifies this
      ensures Valid() && rows == null && !recording && !loaded
    {
      config, chapters, frameCount, rows, recording, loaded := NO_CONFIG, [], 0, null, false, false;
    }

    method Begin(c: Config) returns (ok: bool)
      requires Valid()
      modifies this
      ensures Valid() && ok == c.Valid()
      ensures ok ==> recording && !loaded && rows != null && fresh(rows) && Contents() == Recording(c, [], [])
      ensures !ok ==> unchanged(this)
    {
      if !c.Valid() { return false; }
      config, chapters, frameCount, recording, loaded := c, [], 0, true, false;
      rows := new Frame[MAX_FRAMES](_ => NO_ROW);
      assert rows[..frameCount] == [];
      ok := true;
    }

    /** Records one frame, or refuses and changes nothing. */
    method Append(frame: Word, chapter: Word, inputs: Frame) returns (ok: bool)
      requires Valid()
      modifies this, rows
      ensures Valid() && rows == old(rows)
      ensures ok == old(recording && Appends(Contents(), frame, chapter, inputs))
      ensures ok ==> recording && Contents() == old(Appended(Contents(), chapter, inputs))
      ensures !ok ==> unchanged(this) && (rows != null ==> rows[..] == old(rows[..]))
    {
      if !recording || |inputs| != config.playerCount as int || frame != frameCount || frame >= MAX_FRAMES
        || chapter == 0 {
        return false;
      }
      ok := AllSamplesValid(inputs);
      if !ok { return; }
      var newChapter := chapters == [] || chapter != chapters[|chapters| - 1].title;
      if newChapter {
        if |chapters| >= MAX_CHAPTERS { return false; }
        ok := TitleUnused(chapters, chapter);
        if !ok { return; }
      }
      Store(frame, chapter, inputs, newChapter);
    }

    method Store(frame: Word, chapter: Word, inputs: Frame, newChapter: bool)
      requires Valid() && recording && Appends(Contents(), frame, chapter, inputs)
        && newChapter == !Continues(chapters, chapter)
      modifies this, rows
      ensures Valid() && rows == old(rows) && recording && Contents() == old(Appended(Contents(), chapter, inputs))
    {
      ghost var r, stored := Contents(), rows[..frameCount];
      AppendedIsValid(r, frame, chapter, inputs);
      if newChapter { chapters := chapters + [Chapter(chapter, frame)]; }
      rows[frame] := inputs + NO_ROW[|inputs|..];
      frameCount := frameCount + 1;
      SeatedGrows(stored, rows[..frameCount], inputs, config.playerCount);
      assert Recorded(rows[..frameCount]) == Appended(r, chapter, inputs);
    }

    method FrameAt(frame: nat) returns (row: Option<Frame>)
      requires Valid()
      ensures row.Some? <==> rows != null && frame < |Contents().frames|
      ensures row.Some? ==> |row.value| == MAX_PLAYERS && row.value[..config.playerCount] == Contents().frames[frame]
    {
      row := if rows != null && frame < frameCount then Some(rows[frame]) else None;
    }

    function Limit(frameLimit: Word): nat
      reads this
    {
      if frameLimit == INVALID_FRAME then frameCount else frameLimit
    }

    /** Prints the first frames, all of them when no count is given. A valid recording never exceeds the size
        limit of the format (`SizeBound`). */
    method Encode(descriptionOverride: Option<Bytes>, frameLimit: Word) returns (ok: bool, out: Bytes)
      requires Valid()
      ensures ok == (rows != null && 0 < Limit(frameLimit) <= |Contents().frames|
                     && |Described(config, descriptionOverride).description| <= MAX_DESCRIPTION)
      ensures ok ==> rows != null && Limit(frameLimit) <= |Contents().frames|
      ensures ok ==> ReplayFormat.Valid(Excerpt(Contents(), descriptionOverride, Limit(frameLimit)))
      ensures ok ==> out == Printed(Excerpt(Contents(), descriptionOverride, Limit(frameLimit)))
    {
      var c, n := Described(config, descriptionOverride), Limit(frameLimit);
      if rows == null || n == 0 || n > frameCount || |c.description| > MAX_DESCRIPTION { return false, []; }
      var count := CountChapters(chapters, n);
      ExcerptIsValid(Contents(), descriptionOverride, n);
      ghost var p := Excerpt(Contents(), descriptionOverride, n);
      assert p.frames == Seated(rows[..n], c.playerCount);
      out := Assemble(c, chapters, count, rows, n, p);
      ok := true;
    }

    /** Reads a file, or refuses and changes nothing. */
    method Decode(bytes: Bytes) returns (ok: bool)
      requires Valid()
      modifies this
      ensures Valid() && ok == Accepts(bytes)
      ensures ok ==> loaded && !recording && rows != null && fresh(rows) && Contents() == Read(bytes)
      ensures !ok ==> unchanged(this)
    {
      var info := Inspect(bytes);
      if info == None { return false; }
      ReadIsValid(bytes);
      var candidate := ReadSamples(bytes, info.value);
      config, chapters, frameCount := info.value.config, info.value.chapters, info.value.frameCount;
      rows, recording, loaded := candidate, false, true;
      assert rows[..frameCount] == rows[..];
      assert Recorded(rows[..frameCount]) == Read(bytes);
      ok := true;
    }

    static method ReadSamples(bytes: Bytes, info: Info) returns (candidate: array<Frame>)
      requires Accepts(bytes) && info == Summary(Read(bytes))
      ensures fresh(candidate) && candidate.Length == info.frameCount && forall f :: 0 <= f < candidate.Length ==>
        |candidate[f]| == MAX_PLAYERS
      ensures info.config.playerCount <= MAX_PLAYERS
        && Seated(candidate[..], info.config.playerCount) == Read(bytes).frames
    {
      var c := info.config;
      candidate := ReadFrames(bytes, HEADER + |c.description| + 8 * |info.chapters|, info.frameCount, c.playerCount);
      FilledIsSeated(candidate[..], Read(bytes).frames, c.playerCount);
    }
  }
}
