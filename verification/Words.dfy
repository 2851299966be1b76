/** Fixed-width unsigned numbers. */
module Words {
  const WORD_LIMIT: nat := 0x1_0000_0000

  type Byte = x: nat | x < 256
  type Word = x: nat | x < WORD_LIMIT
  type Bytes = seq<Byte>

  /** The frame number that stands for "no frame". */
  const INVALID_FRAME: Word := 0xFFFF_FFFF
}
