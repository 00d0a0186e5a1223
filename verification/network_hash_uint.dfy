/** The 32-bit type-name hash: XXH32 as laid out in the "XXH32 Algorithm
    Description" of the xxHash specification, over a byte sequence and a
    32-bit seed. All arithmetic is on `bv32`, so every addition and
    multiplication wraps modulo 2^32 exactly as the unchecked `uint` code does.

    As for the 64-bit hash, the walk over the input (stripes, then words,
    then single bytes) is stated and proved once for any mixing steps,
    gathered in a `Mixer`; `Xxh32` supplies the steps of the algorithm.
    `Hash32` is the reference definition and `ComputeHash32` follows the
    pointer-walking loops of the source, proved to compute the same value
    while reading every byte once. */
module NetworkHashUint {
  import opened LittleEndian

  // The five primes of the algorithm are written out as literals where they
  // are used:
  //   prime1 = 2654435761
  //   prime2 = 2246822519
  //   prime3 = 3266489917
  //   prime4 = 668265263
  //   prime5 = 374761393

  function Rotl(x: bv32, r: bv32): bv32
    requires 0 < r < 32
  {
    (x << r) | (x >> (32 - r))
  }

  datatype Accumulators = Accumulators(v0: bv32, v1: bv32, v2: bv32, v3: bv32)

  function InitAccumulators(seed: bv32): Accumulators {
    Accumulators(seed + 2654435761 + 2246822519, seed + 2246822519, seed, seed - 2654435761)
  }

  /** One lane update of the stripe phase. */
  function Round(acc: bv32, lane: bv32): bv32 {
    Rotl(acc + lane * 2246822519, 13) * 2654435761
  }

  function Converge(acc: Accumulators): bv32 {
    Rotl(acc.v0, 1) + Rotl(acc.v1, 7) + Rotl(acc.v2, 12) + Rotl(acc.v3, 18)
  }

  /** The starting state of an input shorter than one stripe. */
  function ShortSeed(seed: bv32): bv32 {
    seed + 374761393
  }

  /** `hash += (uint)length`, where `length` is the `int` length of a byte
      array: the length modulo 2^32. */
  function AddLength(h: bv32, length: nat): bv32 {
    h + Low32(length)
  }

  function WordStep(h: bv32, w: bv32): bv32 {
    Rotl(h + w * 3266489917, 17) * 668265263
  }

  function ByteStep(h: bv32, b: bv8): bv32 {
    Rotl(h + (b as bv32) * 374761393, 11) * 2654435761
  }

  function Avalanche(h: bv32): bv32 {
    var h1 := h ^ (h >> 15);
    var h2 := h1 * 2246822519;
    var h3 := h2 ^ (h2 >> 13);
    var h4 := h3 * 3266489917;
    h4 ^ (h4 >> 16)
  }

  /** The mixing steps of a stripe-and-remainder hash over 32-bit state. */
  datatype Mixer = Mixer(
    init: bv32 -> Accumulators,
    round: (bv32, bv32) -> bv32,
    converge: Accumulators -> bv32,
    short: bv32 -> bv32,
    length: (bv32, nat) -> bv32,
    word: (bv32, bv32) -> bv32,
    byte: (bv32, bv8) -> bv32,
    avalanche: bv32 -> bv32)

  /** The steps of XXH32. */
  const Xxh32: Mixer := Mixer(InitAccumulators, Round, Converge, ShortSeed, AddLength, WordStep, ByteStep, Avalanche)

  /** Consumes the 16-byte stripe (four 32-bit lanes) starting at `s[i]`. */
  function Stripe(m: Mixer, acc: Accumulators, s: Bytes, i: nat): Accumulators
    requires i + 16 <= |s|
  {
    Accumulators(
      m.round(acc.v0, U32At(s, i)),
      m.round(acc.v1, U32At(s, i + 4)),
      m.round(acc.v2, U32At(s, i + 8)),
      m.round(acc.v3, U32At(s, i + 12)))
  }

  /** The accumulators once stripes `i` to `n - 1` of `s` have been consumed,
      in order, starting from `acc`. */
  function Stripes(m: Mixer, acc: Accumulators, s: Bytes, i: nat, n: nat): Accumulators
    requires i <= n && 16 * n <= |s|
    decreases n - i
  {
    if i == n then acc else Stripes(m, Stripe(m, acc, s, 16 * i), s, i + 1, n)
  }

  /** The single bytes `s[i..]`. */
  function Singles(m: Mixer, h: bv32, s: Bytes, i: nat): bv32
    decreases |s| - i
  {
    if i < |s| then Singles(m, m.byte(h, s[i]), s, i + 1) else h
  }

  /** Folds in `s[i..]`: 4-byte words while at least four bytes remain, then
      the single bytes. */
  function Tail(m: Mixer, h: bv32, s: Bytes, i: nat): bv32
    decreases |s| - i
  {
    if i + 4 <= |s| then Tail(m, m.word(h, U32At(s, i)), s, i + 4)
    else Singles(m, h, s, i)
  }

  /** Where the remainder starts: just past the last whole stripe. */
  function RemainderStart(n: nat): nat {
    16 * (n / 16)
  }

  /** The state after the stripes, or the short-input state when the input
      is shorter than one stripe. */
  function Converged(m: Mixer, input: Bytes, seed: bv32): bv32 {
    if |input| >= 16 then m.converge(Stripes(m, m.init(seed), input, 0, |input| / 16))
    else m.short(seed)
  }

  /** The state once the input length has been added. */
  function Folded(m: Mixer, input: Bytes, seed: bv32): bv32 {
    m.length(Converged(m, input, seed), |input|)
  }

  /** The hash of `input` under `seed` with the steps of `m`. */
  function HashWith(m: Mixer, input: Bytes, seed: bv32): bv32 {
    m.avalanche(Tail(m, Folded(m, input, seed), input, RemainderStart(|input|)))
  }

  /** XXH32 of `input` under `seed`. */
  function Hash32(input: Bytes, seed: bv32): bv32 {
    HashWith(Xxh32, input, seed)
  }

  /** The public byte-array entry point: the seed is always 0. */
  function HashBytes(buffer: Bytes): bv32 {
    Hash32(buffer, 0)
  }

  /** The hash as the source computes it: `length >> 4` stripes, then
      `length &= 15`, a 4-byte loop and a 1-byte loop. Besides the hash it
      reports how many iterations each of the three loops ran; between them
      they read every byte of the input exactly once. */
  method ComputeHash32(input: Bytes, seed: bv32) returns (hash: bv32, stripes: nat, words: nat, singles: nat)
    ensures hash == Hash32(input, seed)
    ensures stripes == |input| / 16 && words == (|input| % 16) / 4 && singles == |input| % 4
    ensures 16 * stripes + 4 * words + singles == |input|
  {
    hash, stripes, words, singles := Compute(Xxh32, input, seed);
  }

  /** The loops of the source with the steps of `m`. */
  method Compute(m: Mixer, input: Bytes, seed: bv32) returns (hash: bv32, stripes: nat, words: nat, singles: nat)
    ensures hash == HashWith(m, input, seed)
    ensures stripes == |input| / 16 && words == (|input| % 16) / 4 && singles == |input| % 4
    ensures 16 * stripes + 4 * words + singles == |input|
  {
    hash, stripes, words, singles := Phases(m, input, seed);
    hash := m.avalanche(hash);
  }

  /** Everything before the avalanche: the stripes, `hash += length`,
      `length &= 15`, then the remainder, which starts where the stripes
      stopped reading. */
  method Phases(m: Mixer, input: Bytes, seed: bv32) returns (hash: bv32, stripes: nat, words: nat, singles: nat)
    ensures hash == Tail(m, Folded(m, input, seed), input, RemainderStart(|input|))
    ensures stripes == |input| / 16 && words == (|input| % 16) / 4 && singles == |input| % 4
    ensures 16 * stripes + 4 * words + singles == |input|
  {
    var pos;
    hash, pos, stripes := StripePhase(m, input, seed);
    hash := m.length(hash, |input|);
    var length := |input| % 16;
    RemainderSplit(|input|);
    hash, words, singles := TailPhase(m, hash, input, pos, length);
  }

  /** The stripe loop of the source and the convergence, or the short-input
      state for inputs under 16 bytes. Returns the state, the read position
      and the number of stripes read. */
  method StripePhase(m: Mixer, input: Bytes, seed: bv32) returns (hash: bv32, pos: nat, stripes: nat)
    ensures pos == 16 * stripes && pos == RemainderStart(|input|)
    ensures hash == Converged(m, input, seed)
  {
    pos, stripes := 0, 0;
    hash := m.short(seed);
    if |input| >= 16 {
      var acc;
      acc, pos, stripes := StripeLoop(m, input, seed);
      hash := m.converge(acc);
    }
  }

  /** The `length >> 4` iterations of the stripe loop, each reading four
      lanes at the current position and advancing it by 16. Returns the
      accumulators, the read position and the iterations run. */
  method StripeLoop(m: Mixer, input: Bytes, seed: bv32) returns (acc: Accumulators, pos: nat, stripes: nat)
    ensures stripes == |input| / 16 && pos == 16 * stripes
    ensures acc == Stripes(m, m.init(seed), input, 0, stripes)
  {
    pos := 0;
    acc := m.init(seed);
    var count := |input| / 16;
    stripes := 0;
    while stripes < count
      invariant 0 <= stripes <= count
      invariant pos == 16 * stripes
      invariant Stripes(m, acc, input, stripes, count) == Stripes(m, m.init(seed), input, 0, count)
    {
      StripeFits(stripes, |input|);
      acc := Stripe(m, acc, input, pos);
      pos := pos + 16;
      stripes := stripes + 1;
    }
  }

  /** The remainder of the source over the last `length0` bytes: 4-byte
      words while at least four remain, then single bytes. */
  method TailPhase(m: Mixer, h0: bv32, input: Bytes, start: nat, length0: nat)
    returns (hash: bv32, words: nat, singles: nat)
    requires start + length0 == |input|
    ensures hash == Tail(m, h0, input, start)
    ensures words == length0 / 4 && singles == length0 % 4
    ensures start + 4 * words + singles == |input|
  {
    var pos, length;
    hash, pos, length, words := WordLoop(m, h0, input, start, length0);
    hash, singles := SingleLoop(m, hash, input, pos, length);
  }

  /** The 4-byte loop: consumes words while at least four bytes remain. */
  method WordLoop(m: Mixer, h0: bv32, input: Bytes, start: nat, length0: nat)
    returns (hash: bv32, pos: nat, length: nat, words: nat)
    requires start + length0 == |input|
    ensures pos + length == |input| && length < 4
    ensures words == length0 / 4 && length == length0 % 4
    ensures Singles(m, hash, input, pos) == Tail(m, h0, input, start)
  {
    hash := h0;
    pos := start;
    length := length0;
    words := 0;
    while length >= 4
      invariant pos + length == |input|
      invariant pos == start + 4 * words
      invariant length0 == 4 * words + length
      invariant Tail(m, hash, input, pos) == Tail(m, h0, input, start)
    {
      hash := m.word(hash, U32At(input, pos));
      pos := pos + 4;
      length := length - 4;
      words := words + 1;
    }
  }

  /** The 1-byte loop over the last `length0` bytes. */
  method SingleLoop(m: Mixer, h0: bv32, input: Bytes, start: nat, length0: nat)
    returns (hash: bv32, singles: nat)
    requires start + length0 == |input|
    ensures hash == Singles(m, h0, input, start) && singles == length0
  {
    hash := h0;
    var pos := start;
    var length := length0;
    singles := 0;
    while length > 0
      invariant pos + length == |input|
      invariant length0 == singles + length
      invariant Singles(m, hash, input, pos) == Singles(m, h0, input, start)
    {
      hash := m.byte(hash, input[pos]);
      pos := pos + 1;
      length := length - 1;
      singles := singles + 1;
    }
  }

  /** The stripe loop never reads past the end of the input. */
  lemma StripeFits(i: nat, n: nat)
    requires i < n / 16
    ensures 16 * (i + 1) <= n
  {
  }

  /** The byte accounting behind `length &= 15` and the two remainder loops. */
  lemma RemainderSplit(n: nat)
    ensures n == 16 * (n / 16) + n % 16
    ensures (n % 16) % 4 == n % 4
    ensures n % 16 == 4 * ((n % 16) / 4) + n % 4
  {
  }

  /** Reference value of XXH32 for the empty input under seed 0, as published
      with the algorithm. */
  lemma EmptyInputVector()
    ensures HashBytes([]) == 0x02CC5D05
  {
    var s: Bytes := [];
    assert Low32(0) == 0;
    assert Folded(Xxh32, s, 0) == 0x165667B1;
    assert Tail(Xxh32, 0x165667B1, s, 0) == 0x165667B1;
    assert Avalanche(0x165667B1) == 0x02CC5D05;
  }

  /** Reference value of XXH32 for the three bytes of "abc" under seed 0. The
      input is shorter than a stripe and a word, so only the single-byte
      steps run. */
  lemma AbcVector()
    ensures HashBytes([0x61, 0x62, 0x63]) == 0x32D153FF
  {
    AbcFolded();
    AbcTail();
    assert Avalanche(0x760A1E67) == 0x32D153FF;
  }

  /** The state of "abc" before its remainder: `seed + prime5 + 3`. */
  lemma AbcFolded()
    ensures Folded(Xxh32, [0x61, 0x62, 0x63], 0) == 0x165667B4
  {
    var s: Bytes := [0x61, 0x62, 0x63];
    assert Converged(Xxh32, s, 0) == 0x165667B1;
    assert Low32(3) == 3;
  }

  /** The three single-byte steps over "abc". */
  lemma AbcTail()
    ensures Tail(Xxh32, 0x165667B4, [0x61, 0x62, 0x63], 0) == 0x760A1E67
  {
    var s: Bytes := [0x61, 0x62, 0x63];
    assert ByteStep(0x165667B4, 0x61) == 0xDCA1DBE8;
    assert ByteStep(0xDCA1DBE8, 0x62) == 0x4F80FD3D;
    assert ByteStep(0x4F80FD3D, 0x63) == 0x760A1E67;
    assert Singles(Xxh32, 0x4F80FD3D, s, 2) == 0x760A1E67;
    assert Singles(Xxh32, 0xDCA1DBE8, s, 1) == 0x760A1E67;
  }

  /** "Nobody inspects the spammish repetition", the 39-byte input of a
      published test vector: long enough for the stripe loop, with a word
      and three single bytes left over. */
  const Spammish: Bytes :=
    [78, 111, 98, 111, 100, 121, 32, 105, 110, 115, 112, 101, 99, 116, 115, 32, 116, 104, 101, 32,
     115, 112, 97, 109, 109, 105, 115, 104, 32, 114, 101, 112, 101, 116, 105, 116, 105, 111, 110]

  /** Reference value of XXH32 for `Spammish` under seed 0: two stripes,
      one word and three single bytes. */
  lemma SpammishVector()
    ensures HashBytes(Spammish) == 0xE2293B2F
  {
    SpammishFolded();
    SpammishTail();
    assert Avalanche(0xB3A7011B) == 0xE2293B2F;
  }

  /** The first stripe of `Spammish`, from the seed-0 accumulators. */
  lemma SpammishStripe0()
    ensures Stripe(Xxh32, InitAccumulators(0), Spammish, 0)
            == Accumulators(0x046A700A, 0xBFADF8E3, 0x5B32B4AA, 0x137E5555)
  {
    assert InitAccumulators(0) == Accumulators(0x24234428, 0x85EBCA77, 0, 0x61C8864F);
    SpammishWords0();
    SpammishWords1();
    assert Round(0x24234428, 0x6F626F4E) == 0x046A700A;
    assert Round(0x85EBCA77, 0x69207964) == 0xBFADF8E3;
    assert Round(0, 0x6570736E) == 0x5B32B4AA;
    assert Round(0x61C8864F, 0x20737463) == 0x137E5555;
  }

  /** The second stripe of `Spammish`. */
  lemma SpammishStripe1()
    ensures Stripe(Xxh32, Accumulators(0x046A700A, 0xBFADF8E3, 0x5B32B4AA, 0x137E5555), Spammish, 16)
            == Accumulators(0x719A836E, 0x514C1DE8, 0x97FA4BA2, 0x242A97A2)
  {
    SpammishWords2();
    SpammishWords3();
    assert Round(0x046A700A, 0x20656874) == 0x719A836E;
    assert Round(0xBFADF8E3, 0x6D617073) == 0x514C1DE8;
    assert Round(0x5B32B4AA, 0x6873696D) == 0x97FA4BA2;
    assert Round(0x137E5555, 0x70657220) == 0x242A97A2;
  }

  /** The two little-endian words of `Spammish` at bytes 0 and 4, read
      from their eight bytes. */
  lemma SpammishWords0()
    ensures U32At(Spammish, 0) == 0x6F626F4E && U32At(Spammish, 4) == 0x69207964
  {
    var s := Spammish;
    assert s[0] == 78 && s[1] == 111 && s[2] == 98 && s[3] == 111;
    assert s[4] == 100 && s[5] == 121 && s[6] == 32 && s[7] == 105;
  }

  /** The words of `Spammish` at bytes 8 and 12. */
  lemma SpammishWords1()
    ensures U32At(Spammish, 8) == 0x6570736E && U32At(Spammish, 12) == 0x20737463
  {
    var s := Spammish;
    assert s[8] == 110 && s[9] == 115 && s[10] == 112 && s[11] == 101;
    assert s[12] == 99 && s[13] == 116 && s[14] == 115 && s[15] == 32;
  }

  /** The words of `Spammish` at bytes 16 and 20. */
  lemma SpammishWords2()
    ensures U32At(Spammish, 16) == 0x20656874 && U32At(Spammish, 20) == 0x6D617073
  {
    var s := Spammish;
    assert s[16] == 116 && s[17] == 104 && s[18] == 101 && s[19] == 32;
    assert s[20] == 115 && s[21] == 112 && s[22] == 97 && s[23] == 109;
  }

  /** The words of `Spammish` at bytes 24 and 28. */
  lemma SpammishWords3()
    ensures U32At(Spammish, 24) == 0x6873696D && U32At(Spammish, 28) == 0x70657220
  {
    var s := Spammish;
    assert s[24] == 109 && s[25] == 105 && s[26] == 115 && s[27] == 104;
    assert s[28] == 32 && s[29] == 114 && s[30] == 101 && s[31] == 112;
  }

  /** The state of `Spammish` before its remainder: the converged stripes
      plus the length 39. */
  lemma SpammishFolded()
    ensures Folded(Xxh32, Spammish, 0) == 0x8C86B554
  {
    var s := Spammish;
    var a1 := Accumulators(0x046A700A, 0xBFADF8E3, 0x5B32B4AA, 0x137E5555);
    var a2 := Accumulators(0x719A836E, 0x514C1DE8, 0x97FA4BA2, 0x242A97A2);
    SpammishStripe0();
    SpammishStripe1();
    assert Stripes(Xxh32, a1, s, 1, 2) == a2;
    assert Stripes(Xxh32, InitAccumulators(0), s, 0, 2) == a2;
    assert Converge(a2) == 0x8C86B52D;
    assert Low32(39) == 39;
  }

  /** The remainder of `Spammish`: the word at 32, then the bytes at 36 to
      38. */
  lemma SpammishTail()
    ensures Tail(Xxh32, 0x8C86B554, Spammish, RemainderStart(|Spammish|)) == 0xB3A7011B
  {
    var s := Spammish;
    assert RemainderStart(|s|) == 32;
    assert U32At(s, 32) == 0x74697465;
    assert WordStep(0x8C86B554, 0x74697465) == 0x09B51544;
    assert ByteStep(0x09B51544, s[36]) == 0xCDEFD3C9;
    assert ByteStep(0xCDEFD3C9, s[37]) == 0x3852087B;
    assert ByteStep(0x3852087B, s[38]) == 0xB3A7011B;
    assert Singles(Xxh32, 0x3852087B, s, 38) == 0xB3A7011B;
    assert Singles(Xxh32, 0xCDEFD3C9, s, 37) == 0xB3A7011B;
    assert Singles(Xxh32, 0x09B51544, s, 36) == 0xB3A7011B;
  }
}
