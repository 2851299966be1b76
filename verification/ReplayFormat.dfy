/** The replay file: what a recording prints as, what a strict reader accepts, and the checksum that ties
    the two together. Numbers are little-endian; floating-point axes are their 32-bit patterns. */
module ReplayFormat {
  import opened Words

  const SIGNATURE: Bytes := [69, 65, 71, 76, 82, 80, 89, 49]
  const MAX_FRAMES: nat := 250000
  const MAX_BYTES: nat := 16777216
  const MAX_DESCRIPTION: nat := 16384
  const MAX_CHAPTERS: nat := 64
  const MAX_PLAYERS: nat := 3
  const HEADER: nat := 40
  const SAMPLE: nat := 12

  datatype Sample = Sample(buttons: nat, analogMode: Byte, x: Word, y: Word, unlimited: bool, touchUsed: bool,
      touchBomb: bool)
  {
    predicate Valid() { buttons < 65536 && analogMode <= 4 && Finite(x) && Finite(y) }
  }

  /** A binary32 pattern is finite when its exponent field is not all ones (IEEE 754-2019, section 3.4). */
  predicate Finite(bits: Word) { (bits / 0x80_0000) % 256 != 255 }

  datatype Chapter = Chapter(title: Word, firstFrame: Word)

  datatype Config = Config(gameId: Word, gameplayAbi: Word, playerCount: Byte, recordedPlayer: Byte, description: Bytes)
  {
    predicate Valid() {
      && gameId != 0 && gameplayAbi != 0 && 2 <= playerCount <= MAX_PLAYERS && recordedPlayer < playerCount
      && |description| <= MAX_DESCRIPTION
    }
  }

  type Frame = seq<Sample>

  datatype Recording = Recording(config: Config, chapters: seq<Chapter>, frames: seq<Frame>)

  predicate AllValid(frame: Frame) { forall s :: 0 <= s < |frame| ==> frame[s].Valid() }

  predicate ValidFrame(frame: Frame, players: nat) { |frame| == players && AllValid(frame) }

  /** Chapters have distinct labels, ascend strictly and begin with the first frame. */
  predicate ValidChapters(chapters: seq<Chapter>, frames: nat) {
    && 1 <= |chapters| <= MAX_CHAPTERS && chapters[0].firstFrame == 0
    && (forall i :: 0 <= i < |chapters| ==> chapters[i].title != 0 && chapters[i].firstFrame < frames)
    && (forall i :: 0 < i < |chapters| ==> chapters[i - 1].firstFrame < chapters[i].firstFrame)
    && forall i, j :: 0 <= j < i < |chapters| ==> chapters[j].title != chapters[i].title
  }

  predicate Valid(r: Recording) {
    && r.config.Valid() && 1 <= |r.frames| <= MAX_FRAMES && ValidChapters(r.chapters, |r.frames|)
    && forall f :: 0 <= f < |r.frames| ==> ValidFrame(r.frames[f], r.config.playerCount)
  }

  // ---------------------------------------------------------------- the checksum

  function XorBits(a: nat, b: nat, n: nat): nat {
    if n == 0 then 0 else (if a % 2 == b % 2 then 0 else 1) + 2 * XorBits(a / 2, b / 2, n - 1)
  }

  function Power2(n: nat): nat { if n == 0 then 1 else 2 * Power2(n - 1) }

  lemma {:induction false} XorBounded(a: nat, b: nat, n: nat)
    ensures XorBits(a, b, n) < Power2(n)
  {
    if n > 0 { XorBounded(a / 2, b / 2, n - 1); }
  }

  /** Exclusive or undoes itself, so it is injective in either argument. */
  lemma {:induction false} XorTwice(a: nat, b: nat, n: nat)
    requires a < Power2(n)
    ensures XorBits(XorBits(a, b, n), b, n) == a && XorBits(a, b, n) == XorBits(b, a, n)
  {
    if n > 0 { XorTwice(a / 2, b / 2, n - 1); }
  }

  const FNV_BASIS: nat := 2166136261
  const FNV_PRIME: nat := 16777619
  const FNV_INVERSE: nat := 899433627
  const FNV_QUOTIENT: nat := 3513497

  /** The running hash with a byte xored into its low eight bits. */
  function Mixed(h: Word, b: Byte): Word {
    XorBounded(h % 256, b, 8);
    EightBits();
    MixedBound(h, XorBits(h % 256, b, 8));
    h - h % 256 + XorBits(h % 256, b, 8)
  }

  lemma MixedBound(h: Word, x: nat)
    requires x < 256
    ensures 0 <= h - h % 256 + x < WORD_LIMIT
  {}

  /** One step of the 32-bit FNV-1a hash. */
  function Step(h: Word, b: Byte): Word { Mixed(h, b) * FNV_PRIME % WORD_LIMIT }

  /** Multiplying by the prime is injective modulo 2^32: the prime has an inverse. */
  lemma TimesPrime(x: int, y: int)
    requires 0 <= x < WORD_LIMIT && 0 <= y < WORD_LIMIT && x * FNV_PRIME % WORD_LIMIT == y * FNV_PRIME % WORD_LIMIT
    ensures x == y
  {
    var d, k := x - y, x * FNV_PRIME / WORD_LIMIT - y * FNV_PRIME / WORD_LIMIT;
    assert d * FNV_PRIME == k * WORD_LIMIT;
    assert FNV_PRIME * FNV_INVERSE == 1 + FNV_QUOTIENT * WORD_LIMIT;
    assert d == WORD_LIMIT * (k * FNV_INVERSE - d * FNV_QUOTIENT);
  }

  lemma XorInjective(a: nat, a': nat, b: nat, b': nat)
    requires a < 256 && a' < 256 && b < 256 && b' < 256 && XorBits(a, b, 8) == XorBits(a', b', 8)
    ensures a == a' <==> b == b'
  {
    EightBits();
    XorTwice(a, b, 8);
    XorTwice(a', b', 8);
    XorTwice(b, a, 8);
    XorTwice(b', a', 8);
  }

  lemma SameDigits(q: nat, x: nat, q': nat, x': nat)
    requires x < 256 && x' < 256 && 256 * q + x == 256 * q' + x'
    ensures q == q' && x == x'
  {}

  lemma MixedInjective(h: Word, h': Word, b: Byte, b': Byte)
    requires Mixed(h, b) == Mixed(h', b')
    ensures h == h' <==> b == b'
  {
    var x, x' := XorBits(h % 256, b, 8), XorBits(h' % 256, b', 8);
    EightBits();
    XorBounded(h % 256, b, 8);
    XorBounded(h' % 256, b', 8);
    DigitsOf(h);
    DigitsOf(h');
    SameDigits(h / 256, x, h' / 256, x');
    XorInjective(h % 256, h' % 256, b, b');
  }

  lemma DigitsOf(h: Word)
    ensures h == 256 * (h / 256) + h % 256
  {}

  /** Each step is injective in the running hash and in the byte. */
  lemma StepInjective(h: Word, h': Word, b: Byte, b': Byte)
    requires Step(h, b) == Step(h', b')
    ensures (h == h') <==> (b == b')
  {
    TimesPrime(Mixed(h, b), Mixed(h', b'));
    MixedInjective(h, h', b, b');
  }

  lemma EightBits()
    ensures Power2(8) == 256
  {
    assert Power2(8) == 2 * Power2(7) && Power2(7) == 2 * Power2(6) && Power2(6) == 2 * Power2(5) &&
      Power2(5) == 2 * Power2(4);
    assert Power2(4) == 16;
  }

  /** The hash of the first `n` bytes; the checksum word itself, at 36 to 39, is left out. */
  function HashUpTo(bytes: Bytes, n: nat): Word
    requires n <= |bytes|
  {
    if n == 0 then FNV_BASIS
    else if 36 <= n - 1 < 40 then HashUpTo(bytes, n - 1)
    else Step(HashUpTo(bytes, n - 1), bytes[n - 1])
  }

  function Checksum(bytes: Bytes): Word { HashUpTo(bytes, |bytes|) }

  lemma {:induction false} HashSame(a: Bytes, b: Bytes, n: nat)
    requires n <= |a| && n <= |b| && forall i :: 0 <= i < n && !(36 <= i < 40) ==> a[i] == b[i]
    ensures HashUpTo(a, n) == HashUpTo(b, n)
  {
    if n > 0 { HashSame(a, b, n - 1); }
  }

  /** Files that differ in one hashed byte have different hashes, however long they are. */
  lemma {:induction false} HashDiffers(a: Bytes, b: Bytes, i: nat, n: nat)
    requires i < n <= |a| == |b| && !(36 <= i < 40) && a[i] != b[i]
    requires forall k :: 0 <= k < n && k != i ==> a[k] == b[k]
    ensures HashUpTo(a, n) != HashUpTo(b, n)
  {
    if i == n - 1 {
      HashSame(a, b, n - 1);
      if HashUpTo(a, n) == HashUpTo(b, n) { StepInjective(HashUpTo(a, n - 1), HashUpTo(b, n - 1), a[n - 1], b[n - 1]); }
    } else {
      HashDiffers(a, b, i, n - 1);
      if HashUpTo(a, n) == HashUpTo(b, n) && !(36 <= n - 1 < 40) {
        StepInjective(HashUpTo(a, n - 1), HashUpTo(b, n - 1), a[n - 1], b[n - 1]);
      }
    }
  }

  // ---------------------------------------------------------------- pieces at positions

  /** `piece` stands in the file at position `at`. */
  ghost predicate Holds(bytes: Bytes, at: nat, piece: Bytes) {
    at + |piece| <= |bytes| && forall i :: 0 <= i < |piece| ==> bytes[at + i] == piece[i]
  }

  lemma HoldsBoth(bytes: Bytes, at: nat, a: Bytes, b: Bytes)
    ensures Holds(bytes, at, a + b) <==> Holds(bytes, at, a) && Holds(bytes, at + |a|, b)
  {
    if Holds(bytes, at, a + b) {
      forall i | 0 <= i < |b| ensures bytes[at + |a| + i] == b[i] { assert (a + b)[|a| + i] == b[i]; }
      forall i | 0 <= i < |a| ensures bytes[at + i] == a[i] { assert (a + b)[i] == a[i]; }
    }
    if Holds(bytes, at, a) && Holds(bytes, at + |a|, b) {
      forall i | 0 <= i < |a + b| ensures bytes[at + i] == (a + b)[i] {
        if i >= |a| { assert bytes[at + |a| + (i - |a|)] == b[i - |a|]; }
      }
    }
  }

  lemma HoldsWhole(bytes: Bytes, piece: Bytes)
    requires Holds(bytes, 0, piece) && |bytes| == |piece|
    ensures bytes == piece
  {
    assert forall i :: 0 <= i < |piece| ==> bytes[0 + i] == piece[i];
  }

  function FromDigits(a: Byte, b: Byte, c: Byte, d: Byte): Word {
    (a as int) + 256 * (b as int) + 65536 * (c as int) + 16777216 * (d as int)
  }

  lemma Digits(a: Byte, b: Byte, c: Byte, d: Byte, w: Word)
    ensures FromDigits(a, b, c, d) == w <==>
      a == w % 256 && b == w / 256 % 256 && c == w / 65536 % 256 && d == w / 16777216
  {
    var low, mid, high := w / 256, w / 65536, w / 16777216;
    Quotients(w);
    if FromDigits(a, b, c, d) == w {
      SameDigits(b + 256 * c + 65536 * d, a, low, w % 256);
      SameDigits(c + 256 * d, b, mid, low % 256);
      SameDigits(d, c, high, mid % 256);
    }
  }

  lemma Quotients(w: Word)
    ensures w == 256 * (w / 256) + w % 256 && w / 256 == 256 * (w / 65536) + w / 256 % 256
    ensures w / 65536 == 256 * (w / 16777216) + w / 65536 % 256
  {
    assert w / 65536 == w / 256 / 256 && w / 16777216 == w / 65536 / 256;
  }

  function WordAt(bytes: Bytes, at: nat): Word
    requires at + 4 <= |bytes|
  {
    FromDigits(bytes[at], bytes[at + 1], bytes[at + 2], bytes[at + 3])
  }

  function WordBytes(w: Word): (r: Bytes)
    ensures |r| == 4
  {
    [w % 256, w / 256 % 256, w / 65536 % 256, w / 16777216]
  }

  /** Writing a word and reading one are inverse, either way round. */
  lemma WordHolds(bytes: Bytes, at: nat, w: Word)
    requires at + 4 <= |bytes|
    ensures Holds(bytes, at, WordBytes(w)) <==> WordAt(bytes, at) == w
  {
    Digits(bytes[at], bytes[at + 1], bytes[at + 2], bytes[at + 3], w);
    FourHold(bytes, at, WordBytes(w));
  }

  lemma FourHold(bytes: Bytes, at: nat, piece: Bytes)
    requires at + 4 <= |bytes| && |piece| == 4
    ensures Holds(bytes, at, piece) <==>
      bytes[at] == piece[0] && bytes[at + 1] == piece[1] && bytes[at + 2] == piece[2] && bytes[at + 3] == piece[3]
  {
    if Holds(bytes, at, piece) { assert bytes[at + 0] == piece[0]; }
  }

  // ---------------------------------------------------------------- samples and chapters

  function Flags(s: Sample): Byte {
    (if s.unlimited then 1 else 0) + (if s.touchUsed then 2 else 0) + (if s.touchBomb then 4 else 0)
  }

  function SampleBytes(s: Sample): (r: Bytes)
    requires s.buttons < 65536
    ensures |r| == SAMPLE
  {
    [s.buttons % 256, s.buttons / 256, s.analogMode, Flags(s)] + WordBytes(s.x) + WordBytes(s.y)
  }

  function SampleAt(bytes: Bytes, at: nat): Sample
    requires at + SAMPLE <= |bytes|
  {
    var flags := bytes[at + 3];
    Sample(bytes[at] as int + 256 * (bytes[at + 1] as int), bytes[at + 2], WordAt(bytes, at + 4), WordAt(bytes, at + 8),
           flags % 2 == 1, flags / 2 % 2 == 1, flags / 4 % 2 == 1)
  }

  predicate SampleOk(bytes: Bytes, at: nat)
    requires at + SAMPLE <= |bytes|
  {
    bytes[at + 3] < 8 && SampleAt(bytes, at).Valid()
  }

  lemma SampleHolds(bytes: Bytes, at: nat, s: Sample)
    requires at + SAMPLE <= |bytes| && s.Valid()
    ensures Holds(bytes, at, SampleBytes(s)) <==> SampleOk(bytes, at) && SampleAt(bytes, at) == s
  {
    var first: Bytes := [s.buttons % 256, s.buttons / 256, s.analogMode, Flags(s)];
    HoldsBoth(bytes, at, first + WordBytes(s.x), WordBytes(s.y));
    HoldsBoth(bytes, at, first, WordBytes(s.x));
    WordHolds(bytes, at + 4, s.x);
    WordHolds(bytes, at + 8, s.y);
    FirstHolds(bytes, at, s);
  }

  lemma FirstHolds(bytes: Bytes, at: nat, s: Sample)
    requires at + SAMPLE <= |bytes| && s.Valid()
    ensures Holds(bytes, at, [s.buttons % 256, s.buttons / 256, s.analogMode, Flags(s)]) <==>
      && bytes[at + 3] < 8 && bytes[at] as int + 256 * (bytes[at + 1] as int) == s.buttons
      && bytes[at + 2] == s.analogMode
      && (bytes[at + 3] % 2 == 1) == s.unlimited && (bytes[at + 3] / 2 % 2 == 1) == s.touchUsed
      && (bytes[at + 3] / 4 % 2 == 1) == s.touchBomb
  {
    var piece: Bytes := [s.buttons % 256, s.buttons / 256, s.analogMode, Flags(s)];
    FourHold(bytes, at, piece);
  }

  function RowBytes(row: Frame): Bytes
    requires AllValid(row)
  {
    if row == [] then [] else SampleBytes(row[0]) + RowBytes(row[1..])
  }

  function RowAt(bytes: Bytes, at: nat, seats: nat): (row: Frame)
    requires at + SAMPLE * seats <= |bytes|
    ensures |row| == seats
    decreases seats
  {
    if seats == 0 then [] else [SampleAt(bytes, at)] + RowAt(bytes, at + SAMPLE, seats - 1)
  }

  predicate RowOk(bytes: Bytes, at: nat, seats: nat)
    requires at + SAMPLE * seats <= |bytes|
    decreases seats
  {
    seats == 0 || (SampleOk(bytes, at) && RowOk(bytes, at + SAMPLE, seats - 1))
  }

  lemma {:induction false} RowHolds(bytes: Bytes, at: nat, row: Frame, seats: nat)
    requires at + SAMPLE * seats <= |bytes| && ValidFrame(row, seats)
    ensures |RowBytes(row)| == SAMPLE * seats
    ensures Holds(bytes, at, RowBytes(row)) == (RowOk(bytes, at, seats) && RowAt(bytes, at, seats) == row)
    decreases seats
  {
    if seats == 0 { return; }
    SampleHolds(bytes, at, row[0]);
    RowHolds(bytes, at + SAMPLE, row[1..], seats - 1);
    HoldsBoth(bytes, at, SampleBytes(row[0]), RowBytes(row[1..]));
    SplitHead(RowAt(bytes, at, seats), SampleAt(bytes, at), RowAt(bytes, at + SAMPLE, seats - 1), row);
    assert RowBytes(row) == SampleBytes(row[0]) + RowBytes(row[1..]);
  }

  lemma SplitHead<T>(whole: seq<T>, head: T, tail: seq<T>, s: seq<T>)
    requires whole == [head] + tail && s != []
    ensures whole == s <==> head == s[0] && tail == s[1..]
  {
    assert s == [s[0]] + s[1..];
    assert whole[0] == head && whole[1..] == tail;
  }

  lemma {:induction false} RowAtValid(bytes: Bytes, at: nat, seats: nat)
    requires at + SAMPLE * seats <= |bytes| && RowOk(bytes, at, seats)
    ensures ValidFrame(RowAt(bytes, at, seats), seats)
    decreases seats
  {
    if seats > 0 { RowAtValid(bytes, at + SAMPLE, seats - 1); }
  }

  // ---------------------------------------------------------------- all frames

  function FramesSize(frames: nat, seats: nat): nat {
    if frames == 0 then 0 else SAMPLE * seats + FramesSize(frames - 1, seats)
  }

  lemma {:induction false} FramesSizeIs(frames: nat, seats: nat)
    ensures FramesSize(frames, seats) == frames * seats * SAMPLE
  {
    if frames > 0 {
      FramesSizeIs(frames - 1, seats);
      assert frames * seats == (frames - 1) * seats + seats;
    }
  }

  function FramesBytes(frames: seq<Frame>, seats: nat): Bytes
    requires forall f :: 0 <= f < |frames| ==> ValidFrame(frames[f], seats)
  {
    if frames == [] then [] else
      assert ValidFrame(frames[0], seats);
      RowBytes(frames[0]) + FramesBytes(frames[1..], seats)
  }

  function FramesAt(bytes: Bytes, at: nat, frames: nat, seats: nat): (r: seq<Frame>)
    requires at + FramesSize(frames, seats) <= |bytes|
    ensures |r| == frames
    decreases frames
  {
    if frames == 0 then [] else [RowAt(bytes, at, seats)] + FramesAt(bytes, at + SAMPLE * seats, frames - 1, seats)
  }

  predicate FramesOk(bytes: Bytes, at: nat, frames: nat, seats: nat)
    requires at + FramesSize(frames, seats) <= |bytes|
    decreases frames
  {
    frames == 0 || (RowOk(bytes, at, seats) && FramesOk(bytes, at + SAMPLE * seats, frames - 1, seats))
  }

  lemma {:induction false} FramesHold(bytes: Bytes, at: nat, frames: seq<Frame>, seats: nat)
    requires forall f :: 0 <= f < |frames| ==> ValidFrame(frames[f], seats)
    requires at + FramesSize(|frames|, seats) <= |bytes|
    ensures |FramesBytes(frames, seats)| == FramesSize(|frames|, seats)
    ensures Holds(bytes, at, FramesBytes(frames, seats)) ==
      (FramesOk(bytes, at, |frames|, seats) && FramesAt(bytes, at, |frames|, seats) == frames)
    decreases |frames|
  {
    if frames == [] { return; }
    var n := |frames|;
    RowHolds(bytes, at, frames[0], seats);
    FramesHold(bytes, at + SAMPLE * seats, frames[1..], seats);
    HoldsBoth(bytes, at, RowBytes(frames[0]), FramesBytes(frames[1..], seats));
    SplitHead(FramesAt(bytes, at, n, seats), RowAt(bytes, at, seats),
        FramesAt(bytes, at + SAMPLE * seats, n - 1, seats), frames);
    assert FramesBytes(frames, seats) == RowBytes(frames[0]) + FramesBytes(frames[1..], seats);
    assert FramesOk(bytes, at, n, seats) ==
      (RowOk(bytes, at, seats) && FramesOk(bytes, at + SAMPLE * seats, n - 1, seats));
  }

  lemma {:induction false} FramesAtValid(bytes: Bytes, at: nat, frames: nat, seats: nat)
    requires at + FramesSize(frames, seats) <= |bytes| && FramesOk(bytes, at, frames, seats)
    ensures forall f :: 0 <= f < frames ==> ValidFrame(FramesAt(bytes, at, frames, seats)[f], seats)
    decreases frames
  {
    if frames > 0 {
      RowAtValid(bytes, at, seats);
      FramesAtValid(bytes, at + SAMPLE * seats, frames - 1, seats);
    }
  }

  // ---------------------------------------------------------------- chapters

  function ChaptersBytes(chapters: seq<Chapter>): Bytes {
    if chapters == [] then []
    else WordBytes(chapters[0].title) + WordBytes(chapters[0].firstFrame) + ChaptersBytes(chapters[1..])
  }

  function ChapterAt(bytes: Bytes, at: nat): Chapter
    requires at + 8 <= |bytes|
  {
    Chapter(WordAt(bytes, at), WordAt(bytes, at + 4))
  }

  function ChaptersAt(bytes: Bytes, at: nat, count: nat): (r: seq<Chapter>)
    requires at + 8 * count <= |bytes|
    ensures |r| == count
    decreases count
  {
    if count == 0 then [] else [ChapterAt(bytes, at)] + ChaptersAt(bytes, at + 8, count - 1)
  }

  lemma {:induction false} ChaptersHold(bytes: Bytes, at: nat, chapters: seq<Chapter>)
    requires at + 8 * |chapters| <= |bytes|
    ensures |ChaptersBytes(chapters)| == 8 * |chapters|
    ensures Holds(bytes, at, ChaptersBytes(chapters)) <==> ChaptersAt(bytes, at, |chapters|) == chapters
    decreases |chapters|
  {
    if chapters == [] { return; }
    var c, n := chapters[0], |chapters|;
    WordHolds(bytes, at, c.title);
    WordHolds(bytes, at + 4, c.firstFrame);
    HoldsBoth(bytes, at, WordBytes(c.title), WordBytes(c.firstFrame));
    ChaptersHold(bytes, at + 8, chapters[1..]);
    HoldsBoth(bytes, at, WordBytes(c.title) + WordBytes(c.firstFrame), ChaptersBytes(chapters[1..]));
    SplitHead(ChaptersAt(bytes, at, n), ChapterAt(bytes, at), ChaptersAt(bytes, at + 8, n - 1), chapters);
  }

  // ---------------------------------------------------------------- the whole file

  function Players(c: Config): Bytes { [c.playerCount, c.recordedPlayer, 0, 0] }

  function CountsBytes(r: Recording, hash: Word): (b: Bytes)
    requires Valid(r)
    ensures |b| == 16
  {
    WordBytes(|r.config.description|) + (WordBytes(|r.chapters|) + (WordBytes(|r.frames|) + WordBytes(hash)))
  }

  function HeaderBytes(r: Recording, hash: Word): (b: Bytes)
    requires Valid(r)
    ensures |b| == HEADER
  {
    SIGNATURE + (WordBytes(1) + (WordBytes(r.config.gameId)
      + (WordBytes(r.config.gameplayAbi) + (Players(r.config) + CountsBytes(r, hash)))))
  }

  function FileBytes(r: Recording, hash: Word): Bytes
    requires Valid(r)
  {
    HeaderBytes(r,
        hash) + (r.config.description + (ChaptersBytes(r.chapters) + FramesBytes(r.frames, r.config.playerCount)))
  }

  function FileSize(description: nat, chapters: nat, frames: nat, seats: nat): nat {
    HEADER + description + 8 * chapters + FramesSize(frames, seats)
  }

  /** The file of a recording: the checksum is that of the file with the checksum word left zero. */
  function Printed(r: Recording): Bytes
    requires Valid(r)
  {
    FileBytes(r, Checksum(FileBytes(r, 0)))
  }

  // ---------------------------------------------------------------- the strict reader

  predicate CountsOk(bytes: Bytes)
    requires HEADER <= |bytes|
  {
    && Holds8(bytes) && WordAt(bytes, 8) == 1 && bytes[22] == 0 && bytes[23] == 0
    && WordAt(bytes, 12) != 0 && WordAt(bytes, 16) != 0 && 2 <= bytes[20] <= MAX_PLAYERS && bytes[21] < bytes[20]
    && WordAt(bytes, 24) <= MAX_DESCRIPTION && 1 <= WordAt(bytes, 28) <= MAX_CHAPTERS
    && 1 <= WordAt(bytes, 32) <= MAX_FRAMES
    && |bytes| == FileSize(WordAt(bytes, 24), WordAt(bytes, 28), WordAt(bytes, 32), bytes[20])
  }

  predicate Holds8(bytes: Bytes)
    requires 8 <= |bytes|
  {
    forall i :: 0 <= i < 8 ==> bytes[i] == SIGNATURE[i]
  }

  function ConfigAt(bytes: Bytes, description: nat): Config
    requires HEADER + description <= |bytes|
  {
    Config(WordAt(bytes, 12), WordAt(bytes, 16), bytes[20], bytes[21], bytes[HEADER..HEADER + description])
  }

  function ReadAs(bytes: Bytes, d: nat, c: nat, n: nat, seats: nat): Recording
    requires HEADER <= |bytes| && FileSize(d, c, n, seats) == |bytes|
  {
    Recording(ConfigAt(bytes, d), ChaptersAt(bytes, HEADER + d, c), FramesAt(bytes, HEADER + d + 8 * c, n, seats))
  }

  function Read(bytes: Bytes): Recording
    requires HEADER <= |bytes| && CountsOk(bytes)
  {
    ReadAs(bytes, WordAt(bytes, 24), WordAt(bytes, 28), WordAt(bytes, 32), bytes[20])
  }

  predicate HeaderOk(bytes: Bytes) {
    HEADER <= |bytes| <= MAX_BYTES && CountsOk(bytes) && WordAt(bytes, 36) == Checksum(bytes)
  }

  predicate BodyOk(bytes: Bytes, d: nat, c: nat, n: nat, seats: nat)
    requires FileSize(d, c, n, seats) == |bytes|
  {
    ValidChapters(ChaptersAt(bytes, HEADER + d, c), n) && FramesOk(bytes, HEADER + d + 8 * c, n, seats)
  }

  /** What `Inspect` accepts. */
  predicate Accepts(bytes: Bytes) {
    HeaderOk(bytes) && BodyOk(bytes, WordAt(bytes, 24), WordAt(bytes, 28), WordAt(bytes, 32), bytes[20])
  }

  // ---------------------------------------------------------------- printing and reading are inverse

  lemma CountsHold(bytes: Bytes, r: Recording, hash: Word)
    requires Valid(r) && HEADER <= |bytes|
    ensures Holds(bytes, 24, CountsBytes(r, hash)) <==>
      && WordAt(bytes, 24) == |r.config.description| && WordAt(bytes, 28) == |r.chapters|
      && WordAt(bytes, 32) == |r.frames| && WordAt(bytes, 36) == hash
  {
    WordHolds(bytes, 24, |r.config.description|);
    WordHolds(bytes, 28, |r.chapters|);
    WordHolds(bytes, 32, |r.frames|);
    WordHolds(bytes, 36, hash);
    HoldsBoth(bytes, 32, WordBytes(|r.frames|), WordBytes(hash));
    HoldsBoth(bytes, 28, WordBytes(|r.chapters|), WordBytes(|r.frames|) + WordBytes(hash));
    HoldsBoth(bytes, 24, WordBytes(|r.config.description|),
        WordBytes(|r.chapters|) + (WordBytes(|r.frames|) + WordBytes(hash)));
  }

  ghost predicate HeaderFields(bytes: Bytes, r: Recording, hash: Word)
    requires HEADER <= |bytes|
  {
    && Holds8(bytes) && WordAt(bytes, 8) == 1 && WordAt(bytes, 12) == r.config.gameId
    && WordAt(bytes, 16) == r.config.gameplayAbi
    && bytes[20] == r.config.playerCount && bytes[21] == r.config.recordedPlayer && bytes[22] == 0 && bytes[23] == 0
    && WordAt(bytes, 24) == |r.config.description| && WordAt(bytes, 28) == |r.chapters|
    && WordAt(bytes, 32) == |r.frames| && WordAt(bytes, 36) == hash
  }

  lemma HeaderHolds(bytes: Bytes, r: Recording, hash: Word)
    requires Valid(r) && HEADER <= |bytes|
    ensures Holds(bytes, 0, HeaderBytes(r, hash)) <==> HeaderFields(bytes, r, hash)
  {
    var counts, players := CountsBytes(r, hash), Players(r.config);
    CountsHold(bytes, r, hash);
    FourHold(bytes, 20, players);
    HoldsBoth(bytes, 20, players, counts);
    WordHolds(bytes, 16, r.config.gameplayAbi);
    HoldsBoth(bytes, 16, WordBytes(r.config.gameplayAbi), players + counts);
    WordHolds(bytes, 12, r.config.gameId);
    HoldsBoth(bytes, 12, WordBytes(r.config.gameId), WordBytes(r.config.gameplayAbi) + (players + counts));
    WordHolds(bytes, 8, 1);
    HoldsBoth(bytes, 8, WordBytes(1),
        WordBytes(r.config.gameId) + (WordBytes(r.config.gameplayAbi) + (players + counts)));
    HoldsBoth(bytes, 0, SIGNATURE,
        WordBytes(1) + (WordBytes(r.config.gameId) + (WordBytes(r.config.gameplayAbi) + (players + counts))));
    SignatureHolds(bytes);
  }

  lemma SignatureHolds(bytes: Bytes)
    requires 8 <= |bytes|
    ensures Holds(bytes, 0, SIGNATURE) <==> Holds8(bytes)
  {
    if Holds(bytes, 0, SIGNATURE) { assert forall i :: 0 <= i < 8 ==> bytes[0 + i] == SIGNATURE[i]; }
  }

  lemma SliceHolds(bytes: Bytes, at: nat, piece: Bytes)
    requires at + |piece| <= |bytes|
    ensures Holds(bytes, at, piece) <==> bytes[at..at + |piece|] == piece
  {
    var slice := bytes[at..at + |piece|];
    if Holds(bytes, at, piece) {
      forall i | 0 <= i < |piece| ensures slice[i] == piece[i] { assert bytes[at + i] == piece[i]; }
    }
    if slice == piece {
      forall i | 0 <= i < |piece| ensures bytes[at + i] == piece[i] { assert slice[i] == piece[i]; }
    }
  }

  ghost predicate BodyFields(bytes: Bytes, r: Recording)
    requires |bytes| == FileSize(|r.config.description|, |r.chapters|, |r.frames|, r.config.playerCount)
  {
    var d, c, n, seats := |r.config.description|, |r.chapters|, |r.frames|, r.config.playerCount;
    && bytes[HEADER..HEADER + d] == r.config.description && ChaptersAt(bytes, HEADER + d, c) == r.chapters
    && FramesOk(bytes, HEADER + d + 8 * c, n, seats) && FramesAt(bytes, HEADER + d + 8 * c, n, seats) == r.frames
  }

  lemma SizeBound(r: Recording)
    requires Valid(r)
    ensures FileSize(|r.config.description|, |r.chapters|, |r.frames|, r.config.playerCount) <= MAX_BYTES
  {
    FramesSizeIs(|r.frames|, r.config.playerCount);
    ProductBound(|r.frames|, r.config.playerCount);
  }

  lemma ProductBound(n: nat, seats: nat)
    requires n <= MAX_FRAMES && seats <= MAX_PLAYERS
    ensures n * seats * SAMPLE <= MAX_FRAMES * MAX_PLAYERS * SAMPLE
  {
    assert n * seats <= n * MAX_PLAYERS;
  }

  lemma {:induction false} FramesLength(frames: seq<Frame>, seats: nat)
    requires forall f :: 0 <= f < |frames| ==> ValidFrame(frames[f], seats)
    ensures |FramesBytes(frames, seats)| == FramesSize(|frames|, seats)
  {
    if frames != [] {
      assert ValidFrame(frames[0], seats);
      RowLength(frames[0]);
      FramesLength(frames[1..], seats);
    }
  }

  lemma {:induction false} RowLength(row: Frame)
    requires AllValid(row)
    ensures |RowBytes(row)| == SAMPLE * |row|
  {
    if row != [] { RowLength(row[1..]); }
  }

  lemma {:induction false} ChaptersLength(chapters: seq<Chapter>)
    ensures |ChaptersBytes(chapters)| == 8 * |chapters|
  {
    if chapters != [] { ChaptersLength(chapters[1..]); }
  }

  lemma FileLength(r: Recording, hash: Word)
    requires Valid(r)
    ensures |FileBytes(r, hash)| == FileSize(|r.config.description|, |r.chapters|, |r.frames|, r.config.playerCount)
  {
    ChaptersLength(r.chapters);
    FramesLength(r.frames, r.config.playerCount);
  }

  lemma HoldsFour(bytes: Bytes, a: Bytes, b: Bytes, c: Bytes, d: Bytes, whole: Bytes)
    requires whole == a + (b + (c + d))
    ensures Holds(bytes, 0, whole) <==>
      Holds(bytes, 0, a) && Holds(bytes, |a|, b) && Holds(bytes, |a| + |b|, c) && Holds(bytes, |a| + |b| + |c|, d)
  {
    HoldsBoth(bytes, |a| + |b|, c, d);
    HoldsBoth(bytes, |a|, b, c + d);
    HoldsBoth(bytes, 0, a, b + (c + d));
  }

  lemma BodyHolds(bytes: Bytes, r: Recording, chapters: nat, frames: nat)
    requires Valid(r) && |bytes| == FileSize(|r.config.description|, |r.chapters|, |r.frames|, r.config.playerCount)
    requires chapters == HEADER + |r.config.description| && frames == chapters + 8 * |r.chapters|
    ensures |ChaptersBytes(r.chapters)| == 8 * |r.chapters|
    ensures |FramesBytes(r.frames, r.config.playerCount)| == FramesSize(|r.frames|, r.config.playerCount)
    ensures BodyFields(bytes, r) <==>
      (Holds(bytes, HEADER, r.config.description)
       && Holds(bytes, chapters, ChaptersBytes(r.chapters))
       && Holds(bytes, frames, FramesBytes(r.frames, r.config.playerCount)))
  {
    SliceHolds(bytes, HEADER, r.config.description);
    ChaptersHold(bytes, chapters, r.chapters);
    FramesHold(bytes, frames, r.frames, r.config.playerCount);
  }

  lemma WholeHolds(bytes: Bytes, file: Bytes)
    requires |bytes| == |file|
    ensures Holds(bytes, 0, file) <==> bytes == file
  {
    if Holds(bytes, 0, file) { HoldsWhole(bytes, file); }
  }

  lemma FileHolds(bytes: Bytes, r: Recording, hash: Word)
    requires Valid(r) && |bytes| == FileSize(|r.config.description|, |r.chapters|, |r.frames|, r.config.playerCount)
    ensures |FileBytes(r, hash)| == |bytes|
    ensures (bytes == FileBytes(r, hash)) == (HeaderFields(bytes, r, hash) && BodyFields(bytes, r))
  {
    var d, c, file := r.config.description, ChaptersBytes(r.chapters), FileBytes(r, hash);
    FileLength(r, hash);
    BodyHolds(bytes, r, HEADER + |d|, HEADER + |d| + 8 * |r.chapters|);
    HeaderHolds(bytes, r, hash);
    HoldsFour(bytes, HeaderBytes(r, hash), d, c, FramesBytes(r.frames, r.config.playerCount), file);
    WholeHolds(bytes, file);
  }

  /** Patching the checksum word does not change the checksum. */
  lemma PatchedChecksum(r: Recording, a: Word, b: Word)
    requires Valid(r)
    ensures Checksum(FileBytes(r, a)) == Checksum(FileBytes(r, b))
  {
    FileLength(r, a);
    FileLength(r, b);
    var x, y := FileBytes(r, a), FileBytes(r, b);
    forall i | 0 <= i < |x| && !(36 <= i < 40) ensures x[i] == y[i] {
      if i < 36 { assert HeaderBytes(r, a)[i] == HeaderBytes(r, b)[i]; }
    }
    HashSame(x, y, |x|);
  }

  lemma HeaderIsCounted(bytes: Bytes, r: Recording, hash: Word)
    requires Valid(r) && |bytes| == FileSize(|r.config.description|, |r.chapters|, |r.frames|, r.config.playerCount)
    requires HeaderFields(bytes, r, hash)
    ensures CountsOk(bytes)
  {}

  lemma FieldsAreRead(bytes: Bytes, r: Recording, hash: Word)
    requires |bytes| == FileSize(|r.config.description|, |r.chapters|, |r.frames|, r.config.playerCount)
    requires HeaderFields(bytes, r, hash) && CountsOk(bytes) && BodyFields(bytes, r)
    requires ValidChapters(r.chapters, |r.frames|)
    ensures Read(bytes) == r
    ensures BodyOk(bytes, WordAt(bytes, 24), WordAt(bytes, 28), WordAt(bytes, 32), bytes[20])
  {}

  /** A recording prints as a file that the reader accepts and reads back as the same recording: metadata,
      chapters, and every sample bit for bit. */
  lemma PrintedIsRead(r: Recording)
    requires Valid(r)
    ensures Accepts(Printed(r)) && Read(Printed(r)) == r
  {
    var hash, bytes := Checksum(FileBytes(r, 0)), Printed(r);
    PrintedFits(r, hash, bytes);
    HeaderIsCounted(bytes, r, hash);
    FieldsAreRead(bytes, r, hash);
  }

  lemma PrintedFits(r: Recording, hash: Word, bytes: Bytes)
    requires Valid(r) && hash == Checksum(FileBytes(r, 0)) && bytes == FileBytes(r, hash)
    ensures HEADER <= |bytes| <= MAX_BYTES
    ensures |bytes| == FileSize(|r.config.description|, |r.chapters|, |r.frames|, r.config.playerCount)
    ensures HeaderFields(bytes, r, hash) && BodyFields(bytes, r) && hash == Checksum(bytes)
  {
    FileLength(r, hash);
    SizeBound(r);
    FileHolds(bytes, r, hash);
    PatchedChecksum(r, 0, hash);
  }

  lemma BodyIsValid(bytes: Bytes, d: nat, c: nat, n: nat, seats: nat, r: Recording)
    requires HEADER <= |bytes| == FileSize(d, c, n, seats) && r == ReadAs(bytes, d, c, n, seats)
    requires BodyOk(bytes, d, c, n, seats) && r.config.Valid() && r.config.playerCount == seats && 1 <= n <= MAX_FRAMES
    ensures Valid(r)
  {
    FramesAtValid(bytes, HEADER + d + 8 * c, n, seats);
  }

  lemma ConfigIsValid(bytes: Bytes)
    requires HEADER <= |bytes| && CountsOk(bytes)
    ensures ConfigAt(bytes, WordAt(bytes, 24)).Valid()
  {}

  lemma ReadIsValid(bytes: Bytes)
    requires Accepts(bytes)
    ensures Valid(Read(bytes))
  {
    ConfigIsValid(bytes);
    BodyIsValid(bytes, WordAt(bytes, 24), WordAt(bytes, 28), WordAt(bytes, 32), bytes[20], Read(bytes));
  }

  lemma AcceptedFields(bytes: Bytes, r: Recording, hash: Word)
    requires Accepts(bytes) && r == Read(bytes) && hash == Checksum(bytes)
    ensures |bytes| == FileSize(|r.config.description|, |r.chapters|, |r.frames|, r.config.playerCount)
    ensures HeaderFields(bytes, r, hash) && BodyFields(bytes, r)
  {}

  /** Every accepted file prints as itself: the reader is exactly the inverse of the printer. */
  lemma ReadIsPrinted(bytes: Bytes)
    requires Accepts(bytes)
    ensures Valid(Read(bytes)) && Printed(Read(bytes)) == bytes
  {
    ReadIsValid(bytes);
    PrintsAs(bytes, Read(bytes), Checksum(bytes));
  }

  lemma PrintsAs(bytes: Bytes, r: Recording, hash: Word)
    requires Accepts(bytes) && r == Read(bytes) && hash == Checksum(bytes) && Valid(r)
    ensures Printed(r) == bytes
  {
    AcceptedFields(bytes, r, hash);
    FileHolds(bytes, r, hash);
    PatchedChecksum(r, 0, hash);
  }

  // ---------------------------------------------------------------- prefixes

  /** How many chapters begin before frame `k`. */
  function ChaptersBefore(chapters: seq<Chapter>, k: nat): (n: nat)
    ensures n <= |chapters|
  {
    if chapters == [] || chapters[0].firstFrame >= k then 0 else 1 + ChaptersBefore(chapters[1..], k)
  }

  lemma {:induction false} ChaptersBeforeExactly(chapters: seq<Chapter>, k: nat)
    requires forall i :: 0 < i < |chapters| ==> chapters[i - 1].firstFrame < chapters[i].firstFrame
    ensures forall i :: 0 <= i < |chapters| ==> (chapters[i].firstFrame < k <==> i < ChaptersBefore(chapters, k))
  {
    if chapters != [] {
      ChaptersBeforeExactly(chapters[1..], k);
      forall i | 0 < i < |chapters| ensures chapters[i] == chapters[1..][i - 1] {}
      if chapters[0].firstFrame >= k { NoneBefore(chapters, k); }
    }
  }

  lemma {:induction false} NoneBefore(chapters: seq<Chapter>, k: nat)
    requires chapters != [] && chapters[0].firstFrame >= k
    requires forall i :: 0 < i < |chapters| ==> chapters[i - 1].firstFrame < chapters[i].firstFrame
    ensures forall i :: 0 <= i < |chapters| ==> chapters[i].firstFrame >= k
  {
    if |chapters| > 1 {
      NoneBefore(chapters[1..], k);
      forall i | 0 < i < |chapters| ensures chapters[i].firstFrame >= k { assert chapters[i] == chapters[1..][i - 1]; }
    }
  }

  function Prefix(r: Recording, k: nat): Recording
    requires k <= |r.frames|
  {
    r.(chapters := r.chapters[..ChaptersBefore(r.chapters, k)], frames := r.frames[..k])
  }

  /** The file of the first `k` frames reads back as those frames, with exactly the chapters that begin
      among them. */
  lemma PrefixIsRead(r: Recording, k: nat)
    requires Valid(r) && 1 <= k <= |r.frames|
    ensures Valid(Prefix(r, k)) && Accepts(Printed(Prefix(r, k)))
    ensures var p := Read(Printed(Prefix(r, k)));
      && p.frames == r.frames[..k] && p.config == r.config && p.chapters <= r.chapters
      && forall i :: 0 <= i < |r.chapters| ==> (i < |p.chapters| <==> r.chapters[i].firstFrame < k)
  {
    ChaptersBeforeExactly(r.chapters, k);
    assert ChaptersBefore(r.chapters, k) >= 1;
    PrintedIsRead(Prefix(r, k));
  }

  lemma {:induction false} AllBefore(chapters: seq<Chapter>, k: nat)
    requires forall i :: 0 <= i < |chapters| ==> chapters[i].firstFrame < k
    ensures ChaptersBefore(chapters, k) == |chapters|
  {
    if chapters != [] { AllBefore(chapters[1..], k); }
  }

  /** The first frames, when they are all of them, are the whole recording. */
  lemma WholeIsPrefix(r: Recording)
    requires Valid(r)
    ensures Prefix(r, |r.frames|) == r
  {
    AllBefore(r.chapters, |r.frames|);
    assert r.chapters[..|r.chapters|] == r.chapters && r.frames[..|r.frames|] == r.frames;
  }

  // ---------------------------------------------------------------- corruption

  lemma WordDiffers(a: Bytes, b: Bytes, at: nat, i: nat)
    requires at + 4 <= |a| == |b| && at <= i < at + 4 && a[i] != b[i] && forall k :: 0 <= k < |a| && k != i ==>
      a[k] == b[k]
    ensures WordAt(a, at) != WordAt(b, at)
  {
    if WordAt(a, at) == WordAt(b, at) {
      Digits(a[at], a[at + 1], a[at + 2], a[at + 3], WordAt(b, at));
      Digits(b[at], b[at + 1], b[at + 2], b[at + 3], WordAt(b, at));
    }
  }

  lemma ChecksumDiffers(bytes: Bytes, i: nat, corrupt: Bytes)
    requires HEADER <= |bytes| == |corrupt| && i < |bytes| && corrupt[i] != bytes[i]
    requires forall k :: 0 <= k < |bytes| && k != i ==> corrupt[k] == bytes[k]
    requires WordAt(bytes, 36) == Checksum(bytes)
    ensures WordAt(corrupt, 36) != Checksum(corrupt)
  {
    if 36 <= i < 40 {
      HashSame(bytes, corrupt, |bytes|);
      WordDiffers(bytes, corrupt, 36, i);
    } else {
      HashDiffers(bytes, corrupt, i, |bytes|);
      assert WordAt(corrupt, 36) == WordAt(bytes, 36);
    }
  }

  lemma AcceptedChecksum(bytes: Bytes)
    requires Accepts(bytes)
    ensures HEADER <= |bytes| && WordAt(bytes, 36) == Checksum(bytes)
  {}

  /** Replacing any one byte of an accepted file, of whatever length, by another value makes the reader
      reject it. */
  lemma CorruptionIsDetected(bytes: Bytes, i: nat, v: Byte)
    requires Accepts(bytes) && i < |bytes| && v != bytes[i]
    ensures !Accepts(bytes[i := v])
  {
    var corrupt := bytes[i := v];
    AcceptedChecksum(bytes);
    ChecksumDiffers(bytes, i, corrupt);
    if Accepts(corrupt) { AcceptedChecksum(corrupt); }
  }
}
