/** The running hash of a replay file is FNV-1a: each step takes the exclusive or of the lowest byte, bit by bit,
    and multiplies by the prime; the hash of a known text comes out. */
module KnownHash {
  import opened Words
  import opened ReplayFormat

  /** The bit at position `i`. */
  predicate Bit(x: nat, i: nat) { if i == 0 then x % 2 == 1 else Bit(x / 2, i - 1) }

  /** Each bit is set when exactly one of the two is. */
  lemma {:induction false} XorBitwise(a: nat, b: nat, n: nat, i: nat)
    requires i < n
    ensures Bit(XorBits(a, b, n), i) == (Bit(a, i) != Bit(b, i))
    decreases n
  {
    if i > 0 { XorBitwise(a / 2, b / 2, n - 1, i - 1); }
  }

  /** A step of the hash: the bits of the lowest byte change where the input's are set, the others stay, and the
      whole is multiplied by the prime. */
  lemma StepIsFnv(h: Word, b: Byte, i: nat) returns (mixed: nat)
    requires i < 8
    ensures Step(h, b) == mixed * 16777619 % 0x1_0000_0000
    ensures mixed / 256 == h / 256 && Bit(mixed % 256, i) == (Bit(h % 256, i) != Bit(b, i))
  {
    mixed := Mixed(h, b);
    EightBits();
    XorBounded(h % 256, b, 8);
    XorBitwise(h % 256, b, 8, i);
    Replaced(h, XorBits(h % 256, b, 8), mixed);
  }

  lemma Replaced(h: nat, low: nat, mixed: nat)
    requires low < 256 && mixed == h - h % 256 + low
    ensures mixed / 256 == h / 256 && mixed % 256 == low
  {
    SameDigits(mixed / 256, mixed % 256, h / 256, low);
  }

  lemma XorUnfolds(a: nat, b: nat, n: nat, rest: nat)
    requires n > 0 && XorBits(a / 2, b / 2, n - 1) == rest
    ensures XorBits(a, b, n) == (if a % 2 == b % 2 then 0 else 1) + 2 * rest
  {}

  /** 1100'0101 and 0110'0001 give 1010'0100. */
  lemma SomeXor()
    ensures XorBits(197, 97, 8) == 164
  {
    XorUnfolds(1, 0, 1, 0);
    XorUnfolds(3, 1, 2, 1);
    XorUnfolds(6, 3, 3, 2);
    XorUnfolds(12, 6, 4, 5);
    XorUnfolds(24, 12, 5, 10);
    XorUnfolds(49, 24, 6, 20);
    XorUnfolds(98, 48, 7, 41);
    XorUnfolds(197, 97, 8, 82);
  }

  lemma FirstByte(bytes: Bytes, low: nat, mixed: nat)
    requires bytes != [] && XorBits(197, bytes[0], 8) == low && mixed == 2166136064 + low
    ensures HashUpTo(bytes, 1) == mixed * FNV_PRIME % WORD_LIMIT
  {
    assert HashUpTo(bytes, 1) == Step(HashUpTo(bytes, 0), bytes[0]);
    BasisStep(bytes[0], low, mixed);
  }

  lemma BasisStep(b: Byte, low: nat, mixed: nat)
    requires XorBits(197, b, 8) == low && mixed == 2166136064 + low
    ensures Step(FNV_BASIS, b) == mixed * FNV_PRIME % WORD_LIMIT
  {
    assert Mixed(FNV_BASIS, b) == mixed;
  }

  lemma Remainder(x: nat, q: nat, r: nat)
    requires x == q * WORD_LIMIT + r && r < WORD_LIMIT
    ensures x % WORD_LIMIT == r
  {}

  /** The hash of nothing, and of the one byte "a". */
  lemma KnownHashes(bytes: Bytes)
    requires bytes != [] && bytes[0] == 97
    ensures HashUpTo(bytes, 0) == 0x811C9DC5 && HashUpTo(bytes, 1) == 0xE40C292C
  {
    SomeXor();
    FirstByte(bytes, 164, 2166136228);
    Remainder(2166136228 * 16777619, 8461672, 0xE40C292C);
  }
}
