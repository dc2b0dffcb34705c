/**
 * The arithmetic of XXH32 and XXH64 (benchmark/xxhash.c): unsigned words of 32
 * and 64 bits, read from little-endian bytes; and what can be said of the two
 * hashes themselves.
 */
module XxHashWords {
  import opened Options
  import opened Sequences
  import opened XxHash

  const PRIME32_1: bv32 := 2654435761
  const PRIME32_2: bv32 := 2246822519
  const PRIME32_3: bv32 := 3266489917
  const PRIME32_4: bv32 := 668265263
  const PRIME32_5: bv32 := 374761393

  const PRIME64_1: bv64 := 11400714785074694791
  const PRIME64_2: bv64 := 14029467366897019727
  const PRIME64_3: bv64 := 1609587929392839161
  const PRIME64_4: bv64 := 9650029242287828579
  const PRIME64_5: bv64 := 2870177450012600261

  function At(bytes: seq<Byte>, i: nat): bv8 { if i < |bytes| then bytes[i] else 0 }

  function Read32(bytes: seq<Byte>, i: nat): bv32 {
    (At(bytes, i) as bv32) | (At(bytes, i + 1) as bv32 << 8)
    | (At(bytes, i + 2) as bv32 << 16) | (At(bytes, i + 3) as bv32 << 24)
  }

  function Read64(bytes: seq<Byte>, i: nat): bv64 { Read32(bytes, i) as bv64 | (Read32(bytes, i + 4) as bv64 << 32) }

  // ----- XXH32 -----------------------------------------------------------

  function Rotl32(x: bv32, r: bv32): bv32
    requires r < 32
  {
    (x << r) | (x >> (32 - r))
  }

  function Lane32(v: bv32, input: bv32): bv32 { Rotl32(v + input * PRIME32_2, 13) * PRIME32_1 }

  function Init32(seed: bv32): V4<bv32> { V4(seed + PRIME32_1 + PRIME32_2, seed + PRIME32_2, seed, seed - PRIME32_1) }

  function Round32(v: V4<bv32>, stripe: seq<Byte>): V4<bv32> {
    V4(Lane32(v.v1, Read32(stripe, 0)), Lane32(v.v2, Read32(stripe, 4)),
       Lane32(v.v3, Read32(stripe, 8)), Lane32(v.v4, Read32(stripe, 12)))
  }

  function Converge32(v: V4<bv32>): bv32 { Rotl32(v.v1, 1) + Rotl32(v.v2, 7) + Rotl32(v.v3, 12) + Rotl32(v.v4, 18) }

  /** The low bits of the length. */
  function Low32(n: nat): bv32 { (n % 0x1_0000_0000) as bv32 }

  function AddLength32(h: bv32, length: nat): bv32 { h + Low32(length) }

  function Word32(h: bv32, word: bv32): bv32 { Rotl32(h + word * PRIME32_3, 17) * PRIME32_4 }

  function Byte32(h: bv32, b: bv8): bv32 { Rotl32(h + b as bv32 * PRIME32_5, 11) * PRIME32_1 }

  function Avalanche32(h: bv32): bv32 {
    var a := (h ^ (h >> 15)) * PRIME32_2;
    var b := (a ^ (a >> 13)) * PRIME32_3;
    b ^ (b >> 16)
  }

  function Xxh32(): (alg: Algorithm<bv32>)
    ensures ValidAlgorithm(alg) && alg.stripe == 16 && alg.wordSize == 4
  {
    Algorithm(
      16, 4, Init32, Round32, Converge32,
      seed => seed + PRIME32_5,
      AddLength32,
      (h, word) => Word32(h, Read32(word, 0)),
      None,
      Byte32,
      Avalanche32)
  }

  // ----- XXH64 -----------------------------------------------------------

  function Rotl64(x: bv64, r: bv64): bv64
    requires r < 64
  {
    (x << r) | (x >> (64 - r))
  }

  /** One lane from zero: what is mixed into the hash by word and by lane. */
  function Mix64(input: bv64): bv64 { Lane64(0, input) }

  function Lane64(v: bv64, input: bv64): bv64 { Rotl64(v + input * PRIME64_2, 31) * PRIME64_1 }

  function Init64(seed: bv64): V4<bv64> { V4(seed + PRIME64_1 + PRIME64_2, seed + PRIME64_2, seed, seed - PRIME64_1) }

  function Round64(v: V4<bv64>, stripe: seq<Byte>): V4<bv64> {
    V4(Lane64(v.v1, Read64(stripe, 0)), Lane64(v.v2, Read64(stripe, 8)),
       Lane64(v.v3, Read64(stripe, 16)), Lane64(v.v4, Read64(stripe, 24)))
  }

  function MergeLane64(h: bv64, v: bv64): bv64 { (h ^ Mix64(v)) * PRIME64_1 + PRIME64_4 }

  function Converge64(v: V4<bv64>): bv64 {
    var h := Rotl64(v.v1, 1) + Rotl64(v.v2, 7) + Rotl64(v.v3, 12) + Rotl64(v.v4, 18);
    MergeLane64(MergeLane64(MergeLane64(MergeLane64(h, v.v1), v.v2), v.v3), v.v4)
  }

  function Low64(n: nat): bv64 { (n % 0x1_0000_0000_0000_0000) as bv64 }

  function AddLength64(h: bv64, length: nat): bv64 { h + Low64(length) }

  function Word64(h: bv64, word: bv64): bv64 { Rotl64(h ^ Mix64(word), 27) * PRIME64_1 + PRIME64_4 }

  function Half64(h: bv64, half: bv32): bv64 { Rotl64(h ^ (half as bv64 * PRIME64_1), 23) * PRIME64_2 + PRIME64_3 }

  function Byte64(h: bv64, b: bv8): bv64 { Rotl64(h ^ (b as bv64 * PRIME64_5), 11) * PRIME64_1 }

  function Avalanche64(h: bv64): bv64 {
    var a := (h ^ (h >> 33)) * PRIME64_2;
    var b := (a ^ (a >> 29)) * PRIME64_3;
    b ^ (b >> 32)
  }

  function Xxh64(): (alg: Algorithm<bv64>)
    ensures ValidAlgorithm(alg) && alg.stripe == 32 && alg.wordSize == 8
  {
    Algorithm(
      32, 8, Init64, Round64, Converge64,
      seed => seed + PRIME64_5,
      AddLength64,
      (h, word) => Word64(h, Read64(word, 0)),
      Some((h, half) => Half64(h, Read32(half, 0))),
      Byte64,
      Avalanche64)
  }

  // ----- both versions ---------------------------------------------------

  /** For every seed, byte string and way of cutting it, streaming XXH32 is the
      one-shot XXH32. */
  method Xxh32ByChunks(seed: bv32, chunks: seq<seq<Byte>>) returns (streamed: bv32, oneShot: bv32)
    requires |Flatten(chunks)| < TWO_64
    ensures streamed == oneShot == Hash(Xxh32(), seed, Flatten(chunks))
  {
    streamed := StreamedHash(Xxh32(), seed, chunks);
    oneShot := OneShot(Xxh32(), seed, Flatten(chunks));
  }

  /** The same for XXH64. */
  method Xxh64ByChunks(seed: bv64, chunks: seq<seq<Byte>>) returns (streamed: bv64, oneShot: bv64)
    requires |Flatten(chunks)| < TWO_64
    ensures streamed == oneShot == Hash(Xxh64(), seed, Flatten(chunks))
  {
    streamed := StreamedHash(Xxh64(), seed, chunks);
    oneShot := OneShot(Xxh64(), seed, Flatten(chunks));
  }
}
