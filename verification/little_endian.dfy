/** Little-endian reading and writing of 32- and 64-bit words in a byte
    sequence. The hash functions read their input words this way (an
    unaligned `*(uint*)` / `*(ulong*)` load on a little-endian machine), and
    the serializer stores `uint`, `ulong` and length prefixes this way. */
module LittleEndian {

  type Bytes = seq<bv8>

  /** The 32-bit word stored at `s[i..i + 4]`, least significant byte first. */
  function U32At(s: Bytes, i: nat): bv32
    requires i + 4 <= |s|
  {
    (s[i] as bv32)
    | ((s[i + 1] as bv32) << 8)
    | ((s[i + 2] as bv32) << 16)
    | ((s[i + 3] as bv32) << 24)
  }

  /** The 64-bit word stored at `s[i..i + 8]`, least significant byte first. */
  function U64At(s: Bytes, i: nat): bv64
    requires i + 8 <= |s|
  {
    (U32At(s, i) as bv64) | ((U32At(s, i + 4) as bv64) << 32)
  }

  /** The low 32 bits of `n`: `n` itself whenever it fits, as every array
      length does. */
  function Low32(n: nat): bv32 {
    if n < 0x1_0000_0000 then n as bv32 else (n % 0x1_0000_0000) as bv32
  }

  /** The four bytes of `x`, least significant first. */
  function U32Bytes(x: bv32): (r: Bytes)
    ensures |r| == 4
  {
    [(x & 0xFF) as bv8, ((x >> 8) & 0xFF) as bv8, ((x >> 16) & 0xFF) as bv8, (x >> 24) as bv8]
  }

  /** The eight bytes of `x`, least significant first. */
  function U64Bytes(x: bv64): (r: Bytes)
    ensures |r| == 8
  {
    U32Bytes((x & 0xFFFF_FFFF) as bv32) + U32Bytes((x >> 32) as bv32)
  }

  /** Reading back a written 32-bit word gives the word, wherever it sits. */
  lemma U32RoundTrip(pre: Bytes, x: bv32, post: Bytes)
    ensures U32At(pre + U32Bytes(x) + post, |pre|) == x
  {
    var s := pre + U32Bytes(x) + post;
    var b := U32Bytes(x);
    assert s[|pre|] == b[0] && s[|pre| + 1] == b[1] && s[|pre| + 2] == b[2] && s[|pre| + 3] == b[3];
  }

  /** Conversely, writing a read word reproduces the four bytes it came from. */
  lemma U32BytesOfRead(s: Bytes, i: nat)
    requires i + 4 <= |s|
    ensures U32Bytes(U32At(s, i)) == s[i..i + 4]
  {
    var w := U32At(s, i);
    Unpack(s[i], s[i + 1], s[i + 2], s[i + 3]);
    assert U32Bytes(w) == [s[i], s[i + 1], s[i + 2], s[i + 3]];
    assert s[i..i + 4] == [s[i], s[i + 1], s[i + 2], s[i + 3]];
  }

  /** Byte-level core of `U32BytesOfRead`, kept free of sequences. */
  lemma Unpack(b0: bv8, b1: bv8, b2: bv8, b3: bv8)
    ensures U32Bytes((b0 as bv32) | ((b1 as bv32) << 8) | ((b2 as bv32) << 16) | ((b3 as bv32) << 24))
            == [b0, b1, b2, b3]
  {
    var w := (b0 as bv32) | ((b1 as bv32) << 8) | ((b2 as bv32) << 16) | ((b3 as bv32) << 24);
    assert (w & 0xFF) as bv8 == b0;
    assert ((w >> 8) & 0xFF) as bv8 == b1;
    assert ((w >> 16) & 0xFF) as bv8 == b2;
    assert (w >> 24) as bv8 == b3;
  }

  /** Reading back a written 64-bit word gives the word, wherever it sits. */
  lemma U64RoundTrip(pre: Bytes, x: bv64, post: Bytes)
    ensures U64At(pre + U64Bytes(x) + post, |pre|) == x
  {
    var lo := (x & 0xFFFF_FFFF) as bv32;
    var hi := (x >> 32) as bv32;
    var s := pre + U64Bytes(x) + post;
    assert s == pre + U32Bytes(lo) + (U32Bytes(hi) + post);
    U32RoundTrip(pre, lo, U32Bytes(hi) + post);
    assert s == (pre + U32Bytes(lo)) + U32Bytes(hi) + post;
    U32RoundTrip(pre + U32Bytes(lo), hi, post);
  }
}
