/**
 * The seeded MurmurHash3 (x86, 32-bit) bucket function of the KDC replay
 * lookaside cache (src/kdc/replay.c, rotl32 and murmurhash3).
 *
 * All arithmetic is on bv32, so multiplication and addition wrap modulo 2^32
 * exactly as on the source's 32-bit unsigned krb5_ui_4.
 */
module Murmur {

  /** Number of hash buckets (LOOKASIDE_HASH_SIZE). */
  const HashSize: nat := 16384

  const C1: bv32 := 0xcc9e2d51
  const C2: bv32 := 0x1b873593

  /** rotl32: x rotated left by r bits, written with two shifts as in C. */
  function Rotl32(x: bv32, r: nat): bv32
    requires 0 < r < 32
  {
    (x << r) | (x >> (32 - r))
  }

  /** The two rotations the hash performs are true 32-bit rotations. */
  lemma Rotl32Rotates(x: bv32)
    ensures Rotl32(x, 13) == x.RotateLeft(13)
    ensures Rotl32(x, 15) == x.RotateLeft(15)
  {
  }

  /** load_32_le: four bytes, least significant first. */
  function LoadLE32(b0: bv8, b1: bv8, b2: bv8, b3: bv8): bv32 {
    (b0 as bv32) | ((b1 as bv32) << 8) | ((b2 as bv32) << 16) | ((b3 as bv32) << 24)
  }

  /** The scrambling applied to every 32-bit block and to the tail word. */
  function ScrambleK(k: bv32): bv32 {
    Rotl32(k * C1, 15) * C2
  }

  /** One round of the block loop. */
  function MixBlock(h: bv32, k: bv32): bv32 {
    Rotl32(h ^ ScrambleK(k), 13) * 5 + 0xe6546b64
  }

  /** The block loop over every complete 4-byte block of data, starting from h. */
  function HashBlocks(h: bv32, data: seq<bv8>): bv32
    decreases |data|
  {
    if |data| < 4 then h
    else HashBlocks(MixBlock(h, LoadLE32(data[0], data[1], data[2], data[3])), data[4..])
  }

  /** The 0 to 3 bytes that follow the last complete block. */
  function Tail(data: seq<bv8>): (t: seq<bv8>)
    ensures |t| == |data| % 4
  {
    data[|data| - |data| % 4..]
  }

  /**
   * The tail bytes packed little-endian into one word, one conditional OR per
   * byte present (0 when there is no tail).
   */
  function TailWord(t: seq<bv8>): bv32
    requires |t| < 4
  {
    (if |t| >= 3 then (t[2] as bv32) << 16 else 0)
    | (if |t| >= 2 then (t[1] as bv32) << 8 else 0)
    | (if |t| >= 1 then t[0] as bv32 else 0)
  }

  /** The final avalanche. */
  function Avalanche(h0: bv32): bv32 {
    var h1 := (h0 ^ (h0 >> 16)) * 0x85ebca6b;
    var h2 := (h1 ^ (h1 >> 13)) * 0xc2b2ae35;
    h2 ^ (h2 >> 16)
  }

  /** The krb5_data length field is a 32-bit unsigned int. */
  function LengthWord(n: nat): bv32 {
    (n % 0x1_0000_0000) as bv32
  }

  /** The state after the block loop and the tail word. */
  function Absorbed(seed: bv32, data: seq<bv8>): bv32 {
    HashBlocks(seed, data) ^ ScrambleK(TailWord(Tail(data)))
  }

  /** The state just before the avalanche: the length folded in. */
  function Mixed(seed: bv32, data: seq<bv8>): bv32 {
    Absorbed(seed, data) ^ LengthWord(|data|)
  }

  /** The full 32-bit MurmurHash3 value of data under seed, before the modulus. */
  function Murmur3(seed: bv32, data: seq<bv8>): bv32 {
    Avalanche(Mixed(seed, data))
  }

  /** The bucket a request lands in: Murmur3 reduced modulo LOOKASIDE_HASH_SIZE. */
  function BucketIndex(seed: bv32, data: seq<bv8>): (b: nat)
    ensures b < HashSize
  {
    (Murmur3(seed, data) as int) % HashSize
  }

  /** The complete blocks end where the 0 to 3 tail bytes begin. */
  lemma BlockSplit(n: nat)
    ensures n - n % 4 == 4 * (n / 4) && 0 <= n % 4 < 4
  {
  }

  /**
   * The block loop of murmurhash3: h starts at the seed and absorbs every
   * complete 4-byte block; p stops where the 0 to 3 tail bytes begin.
   */
  method HashBlockLoop(seed: bv32, data: seq<bv8>) returns (h: bv32, p: nat)
    ensures p <= |data| && data[p..] == Tail(data)
    ensures h == HashBlocks(seed, data)
  {
    var tailLen := |data| % 4;
    var endBlocks := |data| - tailLen;
    BlockSplit(|data|);
    ghost var blocks := |data| / 4;
    ghost var k := 0;
    h := seed;
    p := 0;
    while p < endBlocks
      invariant p == 4 * k && k <= blocks
      invariant HashBlocks(h, data[p..]) == HashBlocks(seed, data)
    {
      assert data[p..][4..] == data[p + 4..];
      h := MixBlock(h, LoadLE32(data[p], data[p + 1], data[p + 2], data[p + 3]));
      p := p + 4;
      k := k + 1;
    }
  }

  /**
   * murmurhash3: the block loop, the tail word, the length and the
   * avalanche, reduced modulo the table size.  The result depends only on
   * (seed, data), so equal requests always land in the same bucket.
   */
  method MurmurHash3(seed: bv32, data: seq<bv8>) returns (b: nat)
    ensures b == BucketIndex(seed, data)
  {
    var h, p := HashBlockLoop(seed, data);
    var final := TailWord(data[p..]);
    TailStep(seed, data, h, final);
    h := h ^ ScrambleK(final);
    LengthStep(seed, data, h);
    h := h ^ LengthWord(|data|);
    AvalancheStep(seed, data, h);
    h := Avalanche(h);
    ReduceStep(seed, data, h);
    b := (h as int) % HashSize;
  }

  // The four step lemmas below each take one assignment of MurmurHash3 to
  // the next stage of the definition.  Proving the method's postcondition in
  // one piece unfolds the whole chain of bit-vector definitions at once,
  // which costs the solver far more than these four small steps.

  /** Folding in the scrambled tail word after the block loop gives Absorbed. */
  lemma TailStep(seed: bv32, data: seq<bv8>, h: bv32, final: bv32)
    requires h == HashBlocks(seed, data) && final == TailWord(Tail(data))
    ensures h ^ ScrambleK(final) == Absorbed(seed, data)
  {
  }

  /** Folding in the length gives Mixed. */
  lemma LengthStep(seed: bv32, data: seq<bv8>, a: bv32)
    requires a == Absorbed(seed, data)
    ensures a ^ LengthWord(|data|) == Mixed(seed, data)
  {
  }

  /** The avalanche of Mixed is the hash value. */
  lemma AvalancheStep(seed: bv32, data: seq<bv8>, m: bv32)
    requires m == Mixed(seed, data)
    ensures Avalanche(m) == Murmur3(seed, data)
  {
  }

  /** Reducing the hash value modulo the table size gives the bucket. */
  lemma ReduceStep(seed: bv32, data: seq<bv8>, m: bv32)
    requires m == Murmur3(seed, data)
    ensures (m as int) % HashSize == BucketIndex(seed, data)
  {
  }

  // Known answers of MurmurHash3_x86_32, checked stage by stage: each
  // rotation goes through Rotl32Rotates and each length through its
  // remainder, which the solver does not evaluate on its own.

  /** The empty input under seed 1. */
  lemma KnownAnswerEmpty()
    ensures Murmur3(1, []) == 0x514e28b7
  {
    assert HashBlocks(1, []) == 1;
    assert TailWord(Tail([])) == 0;
    Rotl32Rotates(0);
    assert ScrambleK(0) == 0;
    assert 0 % 0x1_0000_0000 == 0;
    assert Mixed(1, []) == 1;
    assert Avalanche(1) == 0x514e28b7;
  }

  /** The block loop over the single block 21 43 65 87 from seed 0. */
  lemma KnownBlock()
    ensures HashBlocks(0, [0x21, 0x43, 0x65, 0x87]) == 0xbb095db4
  {
    var data: seq<bv8> := [0x21, 0x43, 0x65, 0x87];
    assert LoadLE32(0x21, 0x43, 0x65, 0x87) == 0x87654321;
    Rotl32Rotates(0x5e350a71);
    assert 0x87654321 * C1 == 0x5e350a71 && Rotl32(0x5e350a71, 15) == 0x8538af1a;
    assert ScrambleK(0x87654321) == 0x5082edee;
    Rotl32Rotates(0x5082edee);
    assert Rotl32(0x5082edee, 13) == 0x5dbdca10;
    assert MixBlock(0, 0x87654321) == 0xbb095db4;
    assert data[4..] == [];
  }

  /** One complete block, the bytes 21 43 65 87, under seed 0. */
  lemma KnownAnswerOneBlock()
    ensures Murmur3(0, [0x21, 0x43, 0x65, 0x87]) == 0xf55b516b
  {
    var data: seq<bv8> := [0x21, 0x43, 0x65, 0x87];
    KnownBlock();
    assert |data| == 4 && 4 % 4 == 0 && data[4..] == [];
    assert Tail(data) == [];
    assert TailWord([]) == 0;
    Rotl32Rotates(0);
    assert ScrambleK(0) == 0;
    assert Absorbed(0, data) == 0xbb095db4;
    assert 4 % 0x1_0000_0000 == 4;
    assert LengthWord(4) == 4;
    assert Mixed(0, data) == 0xbb095db0;
    assert Avalanche(0xbb095db0) == 0xf55b516b;
  }
}
