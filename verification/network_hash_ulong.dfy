/** The 64-bit type-name hash: XXH64 as laid out in the "XXH64 Algorithm
    Description" of the xxHash specification, over a byte sequence and a
    32-bit seed that is widened to 64 bits. All arithmetic is on `bv64`, so
    every addition and multiplication wraps modulo 2^64 exactly as the
    unchecked `ulong` code does.

    The walk over the input (stripes, then lanes, one word and single bytes)
    is stated and proved once for any mixing steps, gathered in a `Mixer`;
    `Xxh64` supplies the steps of the algorithm. `Hash64` is the reference
    definition and `ComputeHash64` follows the pointer-walking loops of the
    source, proved to compute the same value while reading every byte once. */
module NetworkHashUlong {
  import opened LittleEndian

  // The five primes of the algorithm are written out as literals where they
  // are used:
  //   prime1 = 11400714785074694791
  //   prime2 = 14029467366897019727
  //   prime3 = 1609587929392839161
  //   prime4 = 9650029242287828579
  //   prime5 = 2870177450012600261

  function Rotl(x: bv64, r: bv64): bv64
    requires 0 < r < 64
  {
    (x << r) | (x >> (64 - r))
  }

  datatype Accumulators = Accumulators(v0: bv64, v1: bv64, v2: bv64, v3: bv64)

  /** The accumulators start from the seed widened from 32 to 64 bits. */
  function InitAccumulators(seed: bv32): Accumulators {
    var s := seed as bv64;
    Accumulators(s + 11400714785074694791 + 14029467366897019727, s + 14029467366897019727, s, s - 11400714785074694791)
  }

  /** One lane update of the stripe phase; with `acc == 0` it is also the
      lane scramble of the merge and remainder steps. */
  function Round(acc: bv64, lane: bv64): bv64 {
    Rotl(acc + lane * 14029467366897019727, 31) * 11400714785074694791
  }

  function MergeRound(h: bv64, v: bv64): bv64 {
    (h ^ Round(0, v)) * 11400714785074694791 + 9650029242287828579
  }

  /** Convergence of the accumulators followed by the four merge rounds. */
  function Converge(acc: Accumulators): bv64 {
    var h := Rotl(acc.v0, 1) + Rotl(acc.v1, 7) + Rotl(acc.v2, 12) + Rotl(acc.v3, 18);
    MergeRound(MergeRound(MergeRound(MergeRound(h, acc.v0), acc.v1), acc.v2), acc.v3)
  }

  /** The starting state of an input shorter than one stripe. */
  function ShortSeed(seed: bv32): bv64 {
    (seed as bv64) + 2870177450012600261
  }

  /** `hash += (ulong)length`, where `length` is the 32-bit `int` length of
      a byte array (never above 2^31 - 1) widened to 64 bits. The model keeps
      the length modulo 2^32 and widens it. */
  function AddLength(h: bv64, length: nat): bv64 {
    h + Low32(length) as bv64
  }

  function LaneStep(h: bv64, lane: bv64): bv64 {
    Rotl(h ^ Round(0, lane), 27) * 11400714785074694791 + 9650029242287828579
  }

  function WordStep(h: bv64, w: bv32): bv64 {
    Rotl(h ^ ((w as bv64) * 11400714785074694791), 23) * 14029467366897019727 + 1609587929392839161
  }

  function ByteStep(h: bv64, b: bv8): bv64 {
    Rotl(h ^ ((b as bv64) * 2870177450012600261), 11) * 11400714785074694791
  }

  function Avalanche(h: bv64): bv64 {
    var h1 := h ^ (h >> 33);
    var h2 := h1 * 14029467366897019727;
    var h3 := h2 ^ (h2 >> 29);
    var h4 := h3 * 1609587929392839161;
    h4 ^ (h4 >> 32)
  }

  /** The mixing steps of a stripe-and-remainder hash over 64-bit state. */
  datatype Mixer = Mixer(
    init: bv32 -> Accumulators,
    round: (bv64, bv64) -> bv64,
    converge: Accumulators -> bv64,
    short: bv32 -> bv64,
    length: (bv64, nat) -> bv64,
    lane: (bv64, bv64) -> bv64,
    word: (bv64, bv32) -> bv64,
    byte: (bv64, bv8) -> bv64,
    avalanche: bv64 -> bv64)

  /** The steps of XXH64. */
  const Xxh64: Mixer := Mixer(InitAccumulators, Round, Converge, ShortSeed, AddLength, LaneStep, WordStep, ByteStep, Avalanche)

  /** Consumes the 32-byte stripe (four 64-bit lanes) starting at `s[i]`. */
  function Stripe(m: Mixer, acc: Accumulators, s: Bytes, i: nat): Accumulators
    requires i + 32 <= |s|
  {
    Accumulators(
      m.round(acc.v0, U64At(s, i)),
      m.round(acc.v1, U64At(s, i + 8)),
      m.round(acc.v2, U64At(s, i + 16)),
      m.round(acc.v3, U64At(s, i + 24)))
  }

  /** The accumulators once stripes `i` to `n - 1` of `s` have been consumed,
      in order, starting from `acc`. */
  function Stripes(m: Mixer, acc: Accumulators, s: Bytes, i: nat, n: nat): Accumulators
    requires i <= n && 32 * n <= |s|
    decreases n - i
  {
    if i == n then acc else Stripes(m, Stripe(m, acc, s, 32 * i), s, i + 1, n)
  }

  /** The single bytes `s[i..]`. */
  function Singles(m: Mixer, h: bv64, s: Bytes, i: nat): bv64
    decreases |s| - i
  {
    if i < |s| then Singles(m, m.byte(h, s[i]), s, i + 1) else h
  }

  /** What follows the lanes: one 4-byte word if at least four bytes remain,
      then the single bytes. */
  function ShortRest(m: Mixer, h: bv64, s: Bytes, i: nat): bv64 {
    if i + 4 <= |s| then Singles(m, m.word(h, U32At(s, i)), s, i + 4)
    else Singles(m, h, s, i)
  }

  /** Folds in `s[i..]`: 8-byte lanes while at least eight bytes remain, then
      one 4-byte word if at least four remain, then the single bytes. */
  function Tail(m: Mixer, h: bv64, s: Bytes, i: nat): bv64
    decreases |s| - i
  {
    if i + 8 <= |s| then Tail(m, m.lane(h, U64At(s, i)), s, i + 8)
    else ShortRest(m, h, s, i)
  }


  /** Where the remainder starts: just past the last whole stripe. */
  function RemainderStart(n: nat): nat {
    32 * (n / 32)
  }

  /** The state after the stripes and the merge, or the short-input state
      when the input is shorter than one stripe. */
  function Converged(m: Mixer, input: Bytes, seed: bv32): bv64 {
    if |input| >= 32 then m.converge(Stripes(m, m.init(seed), input, 0, |input| / 32))
    else m.short(seed)
  }

  /** The state once the input length has been added. */
  function Folded(m: Mixer, input: Bytes, seed: bv32): bv64 {
    m.length(Converged(m, input, seed), |input|)
  }

  /** The hash of `input` under `seed` with the steps of `m`. */
  function HashWith(m: Mixer, input: Bytes, seed: bv32): bv64 {
    m.avalanche(Tail(m, Folded(m, input, seed), input, RemainderStart(|input|)))
  }

  /** XXH64 of `input` under `seed`. */
  function Hash64(input: Bytes, seed: bv32): bv64 {
    HashWith(Xxh64, input, seed)
  }

  /** The public byte-array entry point: the seed is always 0. */
  function HashBytes(buffer: Bytes): bv64 {
    Hash64(buffer, 0)
  }

  /** The hash as the source computes it: `length >> 5` stripes, the merge,
      then `length &= 31`, an 8-byte loop, one optional 4-byte step and a
      1-byte loop. Besides the hash it reports how many stripes, lanes,
      words and single bytes those steps read; between them they read every
      byte of the input exactly once. */
  method ComputeHash64(input: Bytes, seed: bv32)
    returns (hash: bv64, stripes: nat, lanes: nat, words: nat, singles: nat)
    ensures hash == Hash64(input, seed)
    ensures stripes == |input| / 32 && lanes == (|input| % 32) / 8
    ensures words == (|input| % 8) / 4 && singles == |input| % 4
    ensures 32 * stripes + 8 * lanes + 4 * words + singles == |input|
  {
    hash, stripes, lanes, words, singles := Compute(Xxh64, input, seed);
  }

  /** The loops of the source with the steps of `m`. */
  method Compute(m: Mixer, input: Bytes, seed: bv32)
    returns (hash: bv64, stripes: nat, lanes: nat, words: nat, singles: nat)
    ensures hash == HashWith(m, input, seed)
    ensures stripes == |input| / 32 && lanes == (|input| % 32) / 8
    ensures words == (|input| % 8) / 4 && singles == |input| % 4
    ensures 32 * stripes + 8 * lanes + 4 * words + singles == |input|
  {
    hash, stripes, lanes, words, singles := Phases(m, input, seed);
    hash := m.avalanche(hash);
  }

  /** Everything before the avalanche: the stripes and the merge,
      `hash += length`, `length &= 31`, then the remainder, which starts
      where the stripes stopped reading. */
  method Phases(m: Mixer, input: Bytes, seed: bv32)
    returns (hash: bv64, stripes: nat, lanes: nat, words: nat, singles: nat)
    ensures hash == Tail(m, Folded(m, input, seed), input, RemainderStart(|input|))
    ensures stripes == |input| / 32 && lanes == (|input| % 32) / 8
    ensures words == (|input| % 8) / 4 && singles == |input| % 4
    ensures 32 * stripes + 8 * lanes + 4 * words + singles == |input|
  {
    var pos;
    hash, pos, stripes := StripePhase(m, input, seed);
    hash := m.length(hash, |input|);
    var length := |input| % 32;
    RemainderSplit(|input|);
    hash, lanes, words, singles := TailPhase(m, hash, input, pos, length);
  }

  /** The stripe loop and the merge of the source, or the short-input state
      for inputs under 32 bytes. Returns the state, the read position and
      the number of stripes read. */
  method StripePhase(m: Mixer, input: Bytes, seed: bv32) returns (hash: bv64, pos: nat, stripes: nat)
    ensures pos == 32 * stripes && pos == RemainderStart(|input|)
    ensures hash == Converged(m, input, seed)
  {
    pos, stripes := 0, 0;
    hash := m.short(seed);
    if |input| >= 32 {
      var acc;
      acc, pos, stripes := StripeLoop(m, input, seed);
      hash := m.converge(acc);
    }
  }

  /** The `length >> 5` iterations of the stripe loop, each reading four
      lanes at the current position and advancing it by 32. Returns the
      accumulators, the read position and the iterations run. */
  method StripeLoop(m: Mixer, input: Bytes, seed: bv32) returns (acc: Accumulators, pos: nat, stripes: nat)
    ensures stripes == |input| / 32 && pos == 32 * stripes
    ensures acc == Stripes(m, m.init(seed), input, 0, stripes)
  {
    pos := 0;
    acc := m.init(seed);
    var count := |input| / 32;
    stripes := 0;
    while stripes < count
      invariant 0 <= stripes <= count
      invariant pos == 32 * stripes
      invariant Stripes(m, acc, input, stripes, count) == Stripes(m, m.init(seed), input, 0, count)
    {
      StripeFits(stripes, |input|);
      acc := Stripe(m, acc, input, pos);
      pos := pos + 32;
      stripes := stripes + 1;
    }
  }

  /** The remainder of the source over the last `length0` bytes: 8-byte
      lanes, at most one 4-byte word, then single bytes. */
  method TailPhase(m: Mixer, h0: bv64, input: Bytes, start: nat, length0: nat)
    returns (hash: bv64, lanes: nat, words: nat, singles: nat)
    requires start + length0 == |input|
    ensures hash == Tail(m, h0, input, start)
    ensures lanes == length0 / 8 && words == (length0 % 8) / 4 && singles == length0 % 4
    ensures start + 8 * lanes + 4 * words + singles == |input|
  {
    var pos, length;
    hash, pos, length, lanes := LaneLoop(m, h0, input, start, length0);
    hash, words, singles := WordAndSingles(m, hash, input, pos, length);
    WordSplit(length0);
  }

  /** The 8-byte loop: consumes lanes while at least eight bytes remain. */
  method LaneLoop(m: Mixer, h0: bv64, input: Bytes, start: nat, length0: nat)
    returns (hash: bv64, pos: nat, length: nat, lanes: nat)
    requires start + length0 == |input|
    ensures pos + length == |input| && length < 8
    ensures lanes == length0 / 8 && length == length0 % 8
    ensures ShortRest(m, hash, input, pos) == Tail(m, h0, input, start)
  {
    hash := h0;
    pos := start;
    length := length0;
    lanes := 0;
    while length >= 8
      invariant pos + length == |input|
      invariant pos == start + 8 * lanes
      invariant length0 == 8 * lanes + length
      invariant Tail(m, hash, input, pos) == Tail(m, h0, input, start)
    {
      hash := m.lane(hash, U64At(input, pos));
      pos := pos + 8;
      length := length - 8;
      lanes := lanes + 1;
    }
  }

  /** What follows the 8-byte loop: one 4-byte step if at least four bytes
      remain, then the 1-byte loop. */
  method WordAndSingles(m: Mixer, h0: bv64, input: Bytes, start: nat, length0: nat)
    returns (hash: bv64, words: nat, singles: nat)
    requires start + length0 == |input| && length0 < 8
    ensures hash == ShortRest(m, h0, input, start)
    ensures words == length0 / 4 && singles == length0 % 4
    ensures start + 4 * words + singles == |input|
  {
    hash := h0;
    var pos := start;
    var length := length0;
    words := 0;
    if length >= 4 {
      hash := m.word(hash, U32At(input, pos));
      pos := pos + 4;
      length := length - 4;
      words := 1;
    }
    hash, singles := SingleLoop(m, hash, input, pos, length);
  }

  /** The 1-byte loop over the last `length0` bytes. */
  method SingleLoop(m: Mixer, h0: bv64, input: Bytes, start: nat, length0: nat)
    returns (hash: bv64, singles: nat)
    requires start + length0 == |input|
    ensures hash == Singles(m, h0, input, start) && singles == length0
  {
    hash := h0;
    var pos := start;
    var length := length0;
    singles := 0;
    while length > 0
      invariant pos + length == |input|
      invariant length0 == singles + length
      invariant Singles(m, hash, input, pos) == Singles(m, h0, input, start)
    {
      hash := m.byte(hash, input[pos]);
      pos := pos + 1;
      length := length - 1;
      singles := singles + 1;
    }
  }

  /** After the 8-byte loop fewer than eight bytes remain: the single bytes
      are what a word leaves over. */
  lemma WordSplit(n: nat)
    ensures (n % 8) % 4 == n % 4
  {
  }

  /** The stripe loop never reads past the end of the input. */
  lemma StripeFits(i: nat, n: nat)
    requires i < n / 32
    ensures 32 * (i + 1) <= n
  {
  }

  /** The byte accounting behind `length &= 31` and the remainder steps. */
  lemma RemainderSplit(n: nat)
    ensures n == 32 * (n / 32) + n % 32
    ensures (n % 32) % 8 == n % 8 && (n % 8) % 4 == n % 4
    ensures n % 32 == 8 * ((n % 32) / 8) + n % 8
    ensures n % 8 == 4 * ((n % 8) / 4) + n % 4
  {
  }

  /** Reference value of XXH64 for the empty input under seed 0, as published
      with the algorithm. */
  lemma EmptyInputVector()
    ensures HashBytes([]) == 0xEF46DB3751D8E999
  {
    var s: Bytes := [];
    assert Folded(Xxh64, s, 0) == 0x27D4EB2F165667C5;
    assert Tail(Xxh64, 0x27D4EB2F165667C5, s, 0) == 0x27D4EB2F165667C5;
    assert Avalanche(0x27D4EB2F165667C5) == 0xEF46DB3751D8E999;
  }

  /** Reference value of XXH64 for the three bytes of "abc" under seed 0. The
      input is shorter than a stripe and a word, so only the single-byte
      steps run. */
  lemma AbcVector()
    ensures HashBytes([0x61, 0x62, 0x63]) == 0x44BC2CF5AD770999
  {
    AbcFolded();
    AbcTail();
    assert Avalanche(0xE87A46F8B9A4C39E) == 0x44BC2CF5AD770999;
  }

  /** The state of "abc" before its remainder: `seed + prime5 + 3`. */
  lemma AbcFolded()
    ensures Folded(Xxh64, [0x61, 0x62, 0x63], 0) == 0x27D4EB2F165667C8
  {
    var s: Bytes := [0x61, 0x62, 0x63];
    assert Converged(Xxh64, s, 0) == 0x27D4EB2F165667C5;
    assert Low32(3) == 3;
  }

  /** The three single-byte steps over "abc". */
  lemma AbcTail()
    ensures Tail(Xxh64, 0x27D4EB2F165667C8, [0x61, 0x62, 0x63], 0) == 0xE87A46F8B9A4C39E
  {
    var s: Bytes := [0x61, 0x62, 0x63];
    assert ByteStep(0x27D4EB2F165667C8, 0x61) == 0x0E6D11BDC91F0215;
    assert ByteStep(0x0E6D11BDC91F0215, 0x62) == 0x791983E9AB307069;
    assert ByteStep(0x791983E9AB307069, 0x63) == 0xE87A46F8B9A4C39E;
    assert Singles(Xxh64, 0x791983E9AB307069, s, 2) == 0xE87A46F8B9A4C39E;
    assert Singles(Xxh64, 0x0E6D11BDC91F0215, s, 1) == 0xE87A46F8B9A4C39E;
  }

  /** "Nobody inspects the spammish repetition", the 39-byte input of a
      published test vector: one stripe, then a word and three single bytes
      (the seven bytes left are too few for a lane). */
  const Spammish: Bytes :=
    [78, 111, 98, 111, 100, 121, 32, 105, 110, 115, 112, 101, 99, 116, 115, 32, 116, 104, 101, 32,
     115, 112, 97, 109, 109, 105, 115, 104, 32, 114, 101, 112, 101, 116, 105, 116, 105, 111, 110]

  /** Reference value of XXH64 for `Spammish` under seed 0. */
  lemma SpammishVector()
    ensures HashBytes(Spammish) == 0xFBCEA83C8A378BF1
  {
    SpammishFolded();
    SpammishTail();
    assert Avalanche(0x1D0A47483B37CC24) == 0xFBCEA83C8A378BF1;
  }

  /** The one stripe of `Spammish`, from the seed-0 accumulators. */
  lemma SpammishStripe()
    ensures Stripe(Xxh64, InitAccumulators(0), Spammish, 0)
            == Accumulators(0x37245127A4067E4B, 0x1B302B0A818F92CF, 0xCD62D843D0580FCA, 0x1C16E43EF2142A4A)
  {
    assert InitAccumulators(0) == Accumulators(0x60EA27EEADC0B5D6, 0xC2B2AE3D27D4EB4F, 0, 0x61C8864E7A143579);
    SpammishLane0();
    SpammishLane1();
    SpammishLane2();
    SpammishLane3();
    assert Round(0x60EA27EEADC0B5D6, 0x692079646F626F4E) == 0x37245127A4067E4B;
    assert Round(0xC2B2AE3D27D4EB4F, 0x207374636570736E) == 0x1B302B0A818F92CF;
    assert Round(0, 0x6D61707320656874) == 0xCD62D843D0580FCA;
    assert Round(0x61C8864E7A143579, 0x706572206873696D) == 0x1C16E43EF2142A4A;
  }

  /** The lane of `Spammish` at byte 0: its eight bytes read least
      significant first. */
  lemma SpammishLane0()
    ensures U64At(Spammish, 0) == 0x692079646F626F4E
  {
    var s := Spammish;
    assert s[0] == 78 && s[1] == 111 && s[2] == 98 && s[3] == 111;
    assert s[4] == 100 && s[5] == 121 && s[6] == 32 && s[7] == 105;
    assert U32At(s, 0) == 0x6F626F4E && U32At(s, 4) == 0x69207964;
  }

  /** The lane of `Spammish` at byte 8. */
  lemma SpammishLane1()
    ensures U64At(Spammish, 8) == 0x207374636570736E
  {
    var s := Spammish;
    assert s[8] == 110 && s[9] == 115 && s[10] == 112 && s[11] == 101;
    assert s[12] == 99 && s[13] == 116 && s[14] == 115 && s[15] == 32;
    assert U32At(s, 8) == 0x6570736E && U32At(s, 12) == 0x20737463;
  }

  /** The lane of `Spammish` at byte 16. */
  lemma SpammishLane2()
    ensures U64At(Spammish, 16) == 0x6D61707320656874
  {
    var s := Spammish;
    assert s[16] == 116 && s[17] == 104 && s[18] == 101 && s[19] == 32;
    assert s[20] == 115 && s[21] == 112 && s[22] == 97 && s[23] == 109;
    assert U32At(s, 16) == 0x20656874 && U32At(s, 20) == 0x6D617073;
  }

  /** The lane of `Spammish` at byte 24. */
  lemma SpammishLane3()
    ensures U64At(Spammish, 24) == 0x706572206873696D
  {
    var s := Spammish;
    assert s[24] == 109 && s[25] == 105 && s[26] == 115 && s[27] == 104;
    assert s[28] == 32 && s[29] == 114 && s[30] == 101 && s[31] == 112;
    assert U32At(s, 24) == 0x6873696D && U32At(s, 28) == 0x70657220;
  }

  /** The converged and merged stripe, plus the length 39. */
  lemma SpammishFolded()
    ensures Folded(Xxh64, Spammish, 0) == 0x84F22C421A11A8DC
  {
    var s := Spammish;
    var a := Accumulators(0x37245127A4067E4B, 0x1B302B0A818F92CF, 0xCD62D843D0580FCA, 0x1C16E43EF2142A4A);
    SpammishStripe();
    assert Stripes(Xxh64, InitAccumulators(0), s, 0, 1) == a;
    SpammishMerge();
    assert Low32(39) == 39;
  }

  /** Convergence and the four merge rounds of the `Spammish` stripe. */
  lemma SpammishMerge()
    ensures Converge(Accumulators(0x37245127A4067E4B, 0x1B302B0A818F92CF, 0xCD62D843D0580FCA, 0x1C16E43EF2142A4A))
            == 0x84F22C421A11A8B5
  {
    var a := Accumulators(0x37245127A4067E4B, 0x1B302B0A818F92CF, 0xCD62D843D0580FCA, 0x1C16E43EF2142A4A);
    assert Rotl(a.v0, 1) + Rotl(a.v1, 7) + Rotl(a.v2, 12) + Rotl(a.v3, 18) == 0xC4DE2CE639FB8154;
    assert MergeRound(0xC4DE2CE639FB8154, a.v0) == 0x30D40DDD00AEA144;
    assert MergeRound(0x30D40DDD00AEA144, a.v1) == 0xE5A1F095BF498698;
    assert MergeRound(0xE5A1F095BF498698, a.v2) == 0xF9CEE721E748096D;
    assert MergeRound(0xF9CEE721E748096D, a.v3) == 0x84F22C421A11A8B5;
  }

  /** The remainder of `Spammish`: no lane, the word at 32, then the bytes
      at 36 to 38. */
  lemma SpammishTail()
    ensures Tail(Xxh64, 0x84F22C421A11A8DC, Spammish, RemainderStart(|Spammish|)) == 0x1D0A47483B37CC24
  {
    var s := Spammish;
    assert RemainderStart(|s|) == 32;
    assert s[32] == 101 && s[33] == 116 && s[34] == 105 && s[35] == 116;
    assert s[36] == 105 && s[37] == 111 && s[38] == 110;
    assert U32At(s, 32) == 0x74697465;
    assert WordStep(0x84F22C421A11A8DC, 0x74697465) == 0x9FCA0F5D0AAA110F;
    assert ByteStep(0x9FCA0F5D0AAA110F, s[36]) == 0x769671546F21BA14;
    assert ByteStep(0x769671546F21BA14, s[37]) == 0xEAE9B643C5F94E52;
    assert ByteStep(0xEAE9B643C5F94E52, s[38]) == 0x1D0A47483B37CC24;
    assert Singles(Xxh64, 0xEAE9B643C5F94E52, s, 38) == 0x1D0A47483B37CC24;
    assert Singles(Xxh64, 0x769671546F21BA14, s, 37) == 0x1D0A47483B37CC24;
    assert Singles(Xxh64, 0x9FCA0F5D0AAA110F, s, 36) == 0x1D0A47483B37CC24;
  }
}
