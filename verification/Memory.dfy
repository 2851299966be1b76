/** Memory as bytes, and copies into it. */
module Memory {
  type Image = seq<bv8>

  /** The frame number that stands for "no frame". */
  const MAX_FRAME: nat := 0xFFFF_FFFF

  function Splice(bytes: Image, at: nat, source: Image): (r: Image)
    requires at + |source| <= |bytes|
    ensures |r| == |bytes|
  {
    bytes[..at] + source + bytes[at + |source|..]
  }
}
