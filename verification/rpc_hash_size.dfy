/** The command-id width selector. The enum is backed by a byte, so besides
    its two named members any of the other 254 byte values can be stored in
    it (by a cast), and every consumer has to say what it does with them. */
module RpcHashSize {

  newtype HashSize = x: int | 0 <= x < 0x100

  /** Four-byte (XXH32) command ids; the enum's zero value and default. */
  const VarIntFourBytes: HashSize := 0

  /** Eight-byte (XXH64) command ids. */
  const VarIntEightBytes: HashSize := 1

  /** Whether `w` is one of the two named members. */
  predicate IsNamed(w: HashSize) {
    w == VarIntFourBytes || w == VarIntEightBytes
  }
}
