/** The slice of the MemoryPack wire format that the envelope and relay
    packets use, written out concretely so that their round trips are proved
    rather than assumed:

      object header    one byte holding the member count, 255 for null
      byte array       a 32-bit little-endian signed length, -1 for null,
                       followed by that many bytes
      uint / ulong     four / eight bytes, little-endian

    Readers work on the front of a buffer and hand back what follows; a
    reader that would run past the end fails with `InsufficientBuffer`. */
module MemoryPackWire {
  import opened Wrappers
  import opened LittleEndian

  /** The exceptions the model distinguishes. */
  datatype Exception =
    | InsufficientBuffer
    | InvalidLength(length: int)
    | InvalidPropertyCount(expected: nat, actual: nat)
    | ArgumentOutOfRange
    | SerializerFailure

  /** A value read from the front of a buffer, and the bytes after it. */
  datatype Read<+T> = Read(value: T, rest: Bytes)

  /** A CLR `byte[]`: its length is an `int`, so below 2^31. */
  type ByteArray = b: Bytes | |b| < 0x8000_0000

  /** The object-header byte that stands for a null object. */
  const NullObject: bv8 := 255

  /** The collection length that stands for a null array. */
  const NullCollection: int := -1

  /** The byte whose value is `x`, counted up from zero so that its value
      follows from its construction. */
  function ByteOf(x: nat): (b: bv8)
    requires x < 0x100
    ensures b as int == x
  {
    if x == 0 then 0 else ByteOf(x - 1) + 1
  }

  /** The signed 32-bit integer stored little-endian at `s[i..i + 4]`. */
  function Int32At(s: Bytes, i: nat): (n: int)
    requires i + 4 <= |s|
    ensures -0x8000_0000 <= n < 0x8000_0000
  {
    var u := (s[i] as int) + 0x100 * ((s[i + 1] as int) + 0x100 * ((s[i + 2] as int) + 0x100 * (s[i + 3] as int)));
    if u < 0x8000_0000 then u else u - 0x1_0000_0000
  }

  /** The four bytes of the signed 32-bit integer `n`, two's complement,
      least significant first. */
  function Int32Bytes(n: int): (r: Bytes)
    requires -0x8000_0000 <= n < 0x8000_0000
    ensures |r| == 4
  {
    var u := if n < 0 then n + 0x1_0000_0000 else n;
    var q0 := u / 0x100;
    var q1 := q0 / 0x100;
    [ByteOf(u % 0x100), ByteOf(q0 % 0x100), ByteOf(q1 % 0x100), ByteOf(q1 / 0x100)]
  }

  /** `TryReadObjectHeader`: the member count, or `None` for a null object. */
  function ReadObjectHeader(s: Bytes): (r: Result<Read<Option<nat>>, Exception>)
    ensures r.Success? <==> |s| > 0
    ensures r.Success? ==> r.value.rest == s[1..] && (r.value.value.None? <==> s[0] == NullObject)
    ensures r.Success? && r.value.value.Some? ==> r.value.value.value == s[0] as nat < 255
  {
    if |s| == 0 then Failure(InsufficientBuffer)
    else if s[0] == NullObject then Success(Read(None, s[1..]))
    else Success(Read(Some(s[0] as nat), s[1..]))
  }

  /** An object header announcing `count` members. */
  function WriteObjectHeader(count: bv8): Bytes
    requires count != NullObject
  {
    [count]
  }

  /** `ReadUnmanaged<uint>`: four bytes, little-endian. */
  function ReadU32(s: Bytes): (r: Result<Read<bv32>, Exception>)
    ensures r.Success? <==> |s| >= 4
    ensures r.Success? ==> r.value.rest == s[4..]
  {
    if |s| < 4 then Failure(InsufficientBuffer) else Success(Read(U32At(s, 0), s[4..]))
  }

  /** `ReadUnmanagedArray<byte>`: a length, then that many bytes. A length of
      -1 is a null array, a length below -1 is invalid, and a length beyond
      the remaining bytes runs past the end. */
  function ReadArray(s: Bytes): (r: Result<Read<Option<ByteArray>>, Exception>)
    ensures |s| < 4 ==> r == Failure(InsufficientBuffer)
    ensures r.Success? ==> |r.value.rest| <= |s| - 4 && r.value.rest == s[|s| - |r.value.rest|..]
  {
    if |s| < 4 then Failure(InsufficientBuffer)
    else
      var n := Int32At(s, 0);
      if n == NullCollection then Success(Read(None, s[4..]))
      else if n < NullCollection then Failure(InvalidLength(n))
      else if |s| - 4 < n then Failure(InsufficientBuffer)
      else
        var b: ByteArray := s[4..4 + n];
        Success(Read(Some(b), s[4 + n..]))
  }

  /** `WriteUnmanagedArray` / `WriteValue` of a `byte[]`. */
  function WriteArray(a: Option<ByteArray>): (r: Bytes)
    ensures |r| == 4 + (if a.Some? then |a.value| else 0)
  {
    match a
    case None => Int32Bytes(NullCollection)
    case Some(b) => Int32Bytes(|b|) + b
  }

  /** `MemoryPackSerializer.Deserialize<uint>`: at least four bytes are
      needed; any beyond the fourth are ignored. */
  function DeserializeU32(s: Bytes): (r: Result<bv32, Exception>)
    ensures r.Success? <==> |s| >= 4
  {
    if |s| < 4 then Failure(InsufficientBuffer) else Success(U32At(s, 0))
  }

  /** `MemoryPackSerializer.Deserialize<ulong>`: at least eight bytes are
      needed; any beyond the eighth are ignored. */
  function DeserializeU64(s: Bytes): (r: Result<bv64, Exception>)
    ensures r.Success? <==> |s| >= 8
  {
    if |s| < 8 then Failure(InsufficientBuffer) else Success(U64At(s, 0))
  }

  /** Reading back a written signed 32-bit integer gives the integer,
      wherever it sits. */
  lemma Int32RoundTrip(pre: Bytes, n: int, post: Bytes)
    requires -0x8000_0000 <= n < 0x8000_0000
    ensures Int32At(pre + Int32Bytes(n) + post, |pre|) == n
  {
    var s := pre + Int32Bytes(n) + post;
    var b := Int32Bytes(n);
    var i := |pre|;
    assert s[i] == b[0] && s[i + 1] == b[1] && s[i + 2] == b[2] && s[i + 3] == b[3];
    Digits(if n < 0 then n + 0x1_0000_0000 else n);
  }

  /** The base-256 digits of a 32-bit value recombine to the value. */
  lemma Digits(u: int)
    requires 0 <= u < 0x1_0000_0000
    ensures var q0 := u / 0x100; var q1 := q0 / 0x100;
      q1 / 0x100 < 0x100 &&
      u % 0x100 + 0x100 * (q0 % 0x100 + 0x100 * (q1 % 0x100 + 0x100 * (q1 / 0x100))) == u
  {
    var q0 := u / 0x100;
    var q1 := q0 / 0x100;
    assert u == u % 0x100 + 0x100 * q0;
    assert q0 == q0 % 0x100 + 0x100 * q1;
    assert q1 == q1 % 0x100 + 0x100 * (q1 / 0x100);
  }

  /** `ReadU32` takes back what `U32Bytes` wrote. */
  lemma ReadU32RoundTrip(x: bv32, rest: Bytes)
    ensures ReadU32(U32Bytes(x) + rest) == Success(Read(x, rest))
  {
    U32RoundTrip([], x, rest);
    assert [] + U32Bytes(x) + rest == U32Bytes(x) + rest;
    assert (U32Bytes(x) + rest)[4..] == rest;
  }

  /** `ReadArray` takes back what `WriteArray` wrote, null or not, and leaves
      what followed it. */
  lemma ReadArrayRoundTrip(a: Option<ByteArray>, rest: Bytes)
    ensures ReadArray(WriteArray(a) + rest) == Success(Read(a, rest))
  {
    match a
    case None => ReadNullArray(rest);
    case Some(b) => ReadSomeArray(b, rest);
  }

  /** A null array reads back as null. */
  lemma ReadNullArray(rest: Bytes)
    ensures ReadArray(Int32Bytes(NullCollection) + rest) == Success(Read(None, rest))
  {
    var s := Int32Bytes(NullCollection) + rest;
    Int32RoundTrip([], NullCollection, rest);
    assert [] + Int32Bytes(NullCollection) + rest == s;
    assert Int32At(s, 0) == NullCollection;
    assert s[4..] == rest;
  }

  /** A present array reads back with its contents. */
  lemma ReadSomeArray(b: ByteArray, rest: Bytes)
    ensures ReadArray(Int32Bytes(|b|) + b + rest) == Success(Read(Some(b), rest))
  {
    var s := Int32Bytes(|b|) + b + rest;
    Int32RoundTrip([], |b|, b + rest);
    assert [] + Int32Bytes(|b|) + (b + rest) == s;
    assert Int32At(s, 0) == |b|;
    assert s[4..4 + |b|] == b;
    assert s[4 + |b|..] == rest;
  }

  /** A written array cut short anywhere fails to read. */
  lemma ReadArrayTruncated(a: Option<ByteArray>, k: nat)
    requires k < |WriteArray(a)|
    ensures ReadArray(WriteArray(a)[..k]).Failure?
  {
    if k >= 4 {
      var b := a.value;
      var s := WriteArray(a)[..k];
      Int32RoundTrip([], |b|, b[..k - 4]);
      assert [] + Int32Bytes(|b|) + b[..k - 4] == s;
    }
  }

  /** What follows a one-byte header and a first field. */
  lemma AfterHeader(h: bv8, a: Bytes, b: Bytes)
    ensures ([h] + a + b)[1..] == a + b
  {
  }

  /** What follows a one-byte header, for three parts after it. */
  lemma AfterHeader3(h: bv8, a: Bytes, b: Bytes, c: Bytes)
    ensures ([h] + a + b + c)[1..] == a + (b + c)
  {
  }

  /** A prefix of two fields is a prefix of the first, or the whole first
      and a prefix of the second. */
  lemma PrefixOfPair(a: Bytes, b: Bytes, k: nat)
    requires k <= |a| + |b|
    ensures k <= |a| ==> (a + b)[..k] == a[..k]
    ensures k > |a| ==> (a + b)[..k] == a + b[..k - |a|]
  {
  }

  /** Cutting `[h] + a` after `k > 0` bytes cuts `a` after `k - 1`. */
  lemma PrefixAfterHeader(h: bv8, a: Bytes, k: nat)
    requires 0 < k <= 1 + |a|
    ensures ([h] + a)[..k][1..] == a[..k - 1]
  {
  }

  /** Reading two arrays in a row from `s` fails at the first or the second. */
  predicate PairFails(s: Bytes) {
    var c := ReadArray(s);
    c.Failure? || ReadArray(c.value.rest).Failure?
  }

  /** Two written arrays cut short anywhere: the first fails to read, or the
      second does. */
  lemma PairTruncated(a: Option<ByteArray>, b: Option<ByteArray>, j: nat)
    requires j < |WriteArray(a)| + |WriteArray(b)|
    ensures PairFails((WriteArray(a) + WriteArray(b))[..j])
  {
    if j < |WriteArray(a)| {
      FirstTruncated(a, b, j);
    } else {
      SecondTruncated(a, b, j);
    }
  }

  /** Cut inside the first array: the first read fails. */
  lemma FirstTruncated(a: Option<ByteArray>, b: Option<ByteArray>, j: nat)
    requires j < |WriteArray(a)|
    ensures PairFails((WriteArray(a) + WriteArray(b))[..j])
  {
    PrefixOfPair(WriteArray(a), WriteArray(b), j);
    ReadArrayTruncated(a, j);
  }

  /** Cut inside the second array: the first read succeeds and the second
      fails. */
  lemma SecondTruncated(a: Option<ByteArray>, b: Option<ByteArray>, j: nat)
    requires |WriteArray(a)| <= j < |WriteArray(a)| + |WriteArray(b)|
    ensures PairFails((WriteArray(a) + WriteArray(b))[..j])
  {
    var t := j - |WriteArray(a)|;
    ReadArrayRoundTrip(a, WriteArray(b)[..t]);
    ReadArrayTruncated(b, t);
    CutInSecond(WriteArray(a), WriteArray(b), a, j);
  }

  /** The sequence facts behind `SecondTruncated`, over any two fields. */
  lemma CutInSecond(w1: Bytes, w2: Bytes, a: Option<ByteArray>, j: nat)
    requires |w1| <= j <= |w1| + |w2|
    requires ReadArray(w1 + w2[..j - |w1|]) == Success(Read(a, w2[..j - |w1|]))
    requires ReadArray(w2[..j - |w1|]).Failure?
    ensures PairFails((w1 + w2)[..j])
  {
    PrefixOfPair(w1, w2, j);
  }
}
