/**
 * Streaming xxHash (benchmark/xxhash.c) against the one-shot hash.  The 32 and
 * the 64 bit version buffer their input in the same way, so the buffering is
 * written once, over a record of the arithmetic; module XxHashWords holds the
 * two records.
 */
module XxHash {
  import opened Options
  import opened Sequences

  type Byte = bv8

  /** Four lanes of words W: bit vectors, of 32 or 64 bits. */
  datatype V4<W> = V4(v1: W, v2: W, v3: W, v4: W)

  const TWO_64: nat := 0x1_0000_0000_0000_0000

  /** The arithmetic of one version, on words and on four lanes of them.  A
      stripe is what one round of the main loop eats; word and half are the steps of
      the tail. */
  datatype Algorithm<!W> = Algorithm(
    stripe: nat, wordSize: nat,
    init: W -> V4<W>, round: (V4<W>, seq<Byte>) -> V4<W>, converge: V4<W> -> W, short: W -> W, addLength: (W, nat) -> W,
    word: (W, seq<Byte>) -> W, half: Option<(W, seq<Byte>) -> W>, byte: (W, Byte) -> W, avalanche: W -> W)

  predicate ValidAlgorithm<W>(alg: Algorithm<W>) { alg.stripe > 0 && alg.wordSize > 0 }

  // ----- the hash --------------------------------------------------------

  /** The bytes of n that fill whole stripes of k. */
  function Whole(n: nat, k: nat): (w: nat)
    requires k > 0
    ensures w <= n < w + k
  {
    if n < k then 0 else k + Whole(n - k, k)
  }

  /** c bytes are whole stripes of k. */
  predicate Aligned(c: nat, k: nat)
    requires k > 0
  {
    c == 0 || (c >= k && Aligned(c - k, k))
  }

  lemma {:induction false} NextAligned(c: nat, k: nat)
    requires k > 0 && Aligned(c, k)
    ensures Aligned(c + k, k)
  {
  }

  lemma {:induction false} AlignedIsWhole(c: nat, r: nat, k: nat)
    requires k > 0 && Aligned(c, k) && r < k
    ensures Whole(c + r, k) == c
  {
    if c > 0 { AlignedIsWhole(c - k, r, k); }
  }

  /** The lanes after the first c bytes, eaten stripe by stripe. */
  function Lanes<W>(alg: Algorithm<W>, seed: W, bytes: seq<Byte>, c: nat): V4<W>
    requires ValidAlgorithm(alg) && c <= |bytes|
  {
    if c < alg.stripe then alg.init(seed)
    else alg.round(Lanes(alg, seed, bytes, c - alg.stripe), bytes[c - alg.stripe..c])
  }

  lemma NextLanes<W>(alg: Algorithm<W>, seed: W, bytes: seq<Byte>, c: nat)
    requires ValidAlgorithm(alg) && c + alg.stripe <= |bytes|
    ensures Lanes(alg, seed, bytes, c + alg.stripe) == alg.round(Lanes(alg, seed, bytes, c), bytes[c..c + alg.stripe])
  {
  }

  /** Later bytes do not matter. */
  lemma {:induction false} LanesOfPrefix<W>(alg: Algorithm<W>, seed: W, a: seq<Byte>, b: seq<Byte>, c: nat)
    requires ValidAlgorithm(alg) && c <= |a|
    ensures Lanes(alg, seed, a + b, c) == Lanes(alg, seed, a, c)
  {
    if c >= alg.stripe {
      LanesOfPrefix(alg, seed, a, b, c - alg.stripe);
      assert (a + b)[c - alg.stripe..c] == a[c - alg.stripe..c];
    }
  }

  function Words<W>(alg: Algorithm<W>, h: W, bytes: seq<Byte>): W
    requires ValidAlgorithm(alg)
    decreases |bytes|
  {
    if |bytes| < alg.wordSize then h
    else Words(alg, alg.word(h, bytes[..alg.wordSize]), bytes[alg.wordSize..])
  }

  function Bytes<W>(alg: Algorithm<W>, h: W, bytes: seq<Byte>): W
    decreases |bytes|
  {
    if bytes == [] then h else Bytes(alg, alg.byte(h, bytes[0]), bytes[1..])
  }

  /** What is left after the words: at most one half word, then single bytes. */
  function Rest<W>(alg: Algorithm<W>, h: W, bytes: seq<Byte>): W {
    if alg.half.Some? && |bytes| >= 4 then Bytes(alg, alg.half.value(h, bytes[..4]), bytes[4..])
    else Bytes(alg, h, bytes)
  }

  function Tail<W>(alg: Algorithm<W>, h: W, bytes: seq<Byte>): W
    requires ValidAlgorithm(alg)
  {
    alg.avalanche(Rest(alg, Words(alg, h, bytes), bytes[Whole(|bytes|, alg.wordSize)..]))
  }

  /** The hash of a byte string. */
  function Hash<W>(alg: Algorithm<W>, seed: W, bytes: seq<Byte>): W
    requires ValidAlgorithm(alg)
  {
    var full := Whole(|bytes|, alg.stripe);
    var h := if |bytes| >= alg.stripe then alg.converge(Lanes(alg, seed, bytes, full)) else alg.short(seed);
    Tail(alg, alg.addLength(h, |bytes|), bytes[full..])
  }

  // ----- the loops that one-shot and streaming share ---------------------

  lemma SliceOfEnd(all: seq<Byte>, at: nat, i: nat, j: nat)
    requires i <= j && at + j <= |all|
    ensures all[at + i..at + j] == all[at..][i..j]
  {
  }

  lemma SliceAcross(a: seq<Byte>, b: seq<Byte>, c: nat, p: nat)
    requires c <= |a| && p <= |b|
    ensures (a + b)[c..|a| + p] == a[c..] + b[..p]
  {
  }

  /** One more stripe: at position at + p of all, which is p of the input. */
  lemma OneStripe<W>(alg: Algorithm<W>, seed: W, all: seq<Byte>, at: nat, input: seq<Byte>, p: nat)
    requires ValidAlgorithm(alg) && |all| == at + |input| && all[at..] == input && p + alg.stripe <= |input|
    requires Aligned(at + p, alg.stripe)
    ensures Aligned(at + p + alg.stripe, alg.stripe)
    ensures Lanes(alg, seed, all, at + p + alg.stripe)
            == alg.round(Lanes(alg, seed, all, at + p), input[p..p + alg.stripe])
  {
    NextAligned(at + p, alg.stripe);
    SliceOfEnd(all, at, p, p + alg.stripe);
    NextLanes(alg, seed, all, at + p);
  }

  /** do { ... } while (p <= limit), from position start of the input on; the
      input is what follows the first at bytes of all that is hashed. */
  method Stripes<W>(alg: Algorithm<W>, ghost seed: W, ghost all: seq<Byte>, ghost at: nat,
                    input: seq<Byte>, start: nat, v0: V4<W>)
    returns (v: V4<W>, p: nat)
    requires ValidAlgorithm(alg) && start <= |input| && |all| == at + |input| && all[at..] == input
    requires Aligned(at + start, alg.stripe) && v0 == Lanes(alg, seed, all, at + start)
    ensures start <= p <= |input| < p + alg.stripe && Aligned(at + p, alg.stripe) && v == Lanes(alg, seed, all, at + p)
  {
    hide Lanes, Aligned;
    v, p := v0, start;
    while p + alg.stripe <= |input|
      invariant start <= p <= |input| && Aligned(at + p, alg.stripe)
      invariant v == Lanes(alg, seed, all, at + p)
    {
      OneStripe(alg, seed, all, at, input, p);
      v := alg.round(v, input[p..p + alg.stripe]);
      p := p + alg.stripe;
    }
  }

  lemma NextWord<W>(alg: Algorithm<W>, h: W, bytes: seq<Byte>, p: nat)
    requires ValidAlgorithm(alg) && p + alg.wordSize <= |bytes|
    ensures Words(alg, h, bytes[p..])
            == Words(alg, alg.word(h, bytes[p..p + alg.wordSize]), bytes[p + alg.wordSize..])
  {
    SliceOfEnd(bytes, p, 0, alg.wordSize);
    assert bytes[p..][alg.wordSize..] == bytes[p + alg.wordSize..];
  }

  lemma HalfWord<W>(alg: Algorithm<W>, h: W, bytes: seq<Byte>, p: nat)
    requires p <= |bytes|
    ensures Rest(alg, h, bytes[p..])
            == if alg.half.Some? && p + 4 <= |bytes| then Bytes(alg, alg.half.value(h, bytes[p..p + 4]), bytes[p + 4..])
               else Bytes(alg, h, bytes[p..])
  {
    if p + 4 <= |bytes| {
      SliceOfEnd(bytes, p, 0, 4);
      assert bytes[p..][4..] == bytes[p + 4..];
    }
  }

  lemma NextByte<W>(alg: Algorithm<W>, h: W, bytes: seq<Byte>, p: nat)
    requires p < |bytes|
    ensures Bytes(alg, h, bytes[p..]) == Bytes(alg, alg.byte(h, bytes[p]), bytes[p + 1..])
  {
    assert bytes[p..][1..] == bytes[p + 1..];
  }

  /** The loop over the words; p is where it stops. */
  method EatWords<W>(alg: Algorithm<W>, h0: W, bytes: seq<Byte>) returns (h: W, p: nat)
    requires ValidAlgorithm(alg)
    ensures p == Whole(|bytes|, alg.wordSize) && h == Words(alg, h0, bytes)
  {
    h, p := h0, 0;
    assert bytes[0..] == bytes;
    while p + alg.wordSize <= |bytes|
      invariant p <= |bytes| && Aligned(p, alg.wordSize)
      invariant Words(alg, h, bytes[p..]) == Words(alg, h0, bytes)
    {
      NextAligned(p, alg.wordSize);
      NextWord(alg, h, bytes, p);
      h := alg.word(h, bytes[p..p + alg.wordSize]);
      p := p + alg.wordSize;
    }
    AlignedIsWhole(p, |bytes| - p, alg.wordSize);
  }

  /** The loop over the last bytes. */
  method EatBytes<W>(alg: Algorithm<W>, h0: W, bytes: seq<Byte>, start: nat) returns (h: W)
    requires start <= |bytes|
    ensures h == Bytes(alg, h0, bytes[start..])
  {
    h := h0;
    var p := start;
    while p < |bytes|
      invariant start <= p <= |bytes|
      invariant Bytes(alg, h, bytes[p..]) == Bytes(alg, h0, bytes[start..])
    {
      NextByte(alg, h, bytes, p);
      h := alg.byte(h, bytes[p]);
      p := p + 1;
    }
  }

  /** The words, the half word, the bytes and the final mix. */
  method Finish<W>(alg: Algorithm<W>, h0: W, bytes: seq<Byte>) returns (h: W)
    requires ValidAlgorithm(alg)
    ensures h == Tail(alg, h0, bytes)
  {
    var p;
    h, p := EatWords(alg, h0, bytes);
    HalfWord(alg, h, bytes, p);
    if alg.half.Some? && p + 4 <= |bytes| {
      h := alg.half.value(h, bytes[p..p + 4]);
      p := p + 4;
    }
    h := EatBytes(alg, h, bytes, p);
    h := alg.avalanche(h);
  }

  // ----- one shot --------------------------------------------------------

  method OneShot<W>(alg: Algorithm<W>, seed: W, input: seq<Byte>) returns (h: W)
    requires ValidAlgorithm(alg)
    ensures h == Hash(alg, seed, input)
  {
    var p := 0;
    if |input| >= alg.stripe {
      var v;
      v, p := Stripes(alg, seed, input, 0, input, 0, alg.init(seed));
      h := alg.converge(v);
    } else {
      h := alg.short(seed);
    }
    AlignedIsWhole(p, |input| - p, alg.stripe);
    h := alg.addLength(h, |input|);
    h := Finish(alg, h, input[p..]);
  }

  // ----- streaming -------------------------------------------------------

  /** After fed was hashed: rest is what does not fill a stripe yet, always less
      than one, and v holds the stripes before it. */
  ghost predicate Holds<W>(alg: Algorithm<W>, seed: W, fed: seq<Byte>, v: V4<W>, rest: seq<Byte>)
    requires ValidAlgorithm(alg)
  {
    && |rest| < alg.stripe && |rest| <= |fed| && Aligned(|fed| - |rest|, alg.stripe)
    && rest == fed[|fed| - |rest|..] && v == Lanes(alg, seed, fed, |fed| - |rest|)
  }

  /** An input that does not fill the stripe joins the rest. */
  lemma Joins<W>(alg: Algorithm<W>, seed: W, fed: seq<Byte>, v: V4<W>, rest: seq<Byte>, input: seq<Byte>)
    requires ValidAlgorithm(alg) && Holds(alg, seed, fed, v, rest) && |rest| + |input| < alg.stripe
    ensures Holds(alg, seed, fed + input, v, rest + input)
  {
    var c := |fed| - |rest|;
    LanesOfPrefix(alg, seed, fed, input, c);
    assert (fed + input)[c..] == fed[c..] + input;
  }

  /** The rest, filled up to a stripe with the first p bytes of the input. */
  lemma Fills<W>(alg: Algorithm<W>, seed: W, fed: seq<Byte>, v: V4<W>, rest: seq<Byte>, input: seq<Byte>, p: nat)
    requires ValidAlgorithm(alg) && Holds(alg, seed, fed, v, rest) && p <= |input| && |rest| + p == alg.stripe
    ensures Aligned(|fed| + p, alg.stripe)
    ensures Lanes(alg, seed, fed + input, |fed| + p) == alg.round(v, rest + input[..p])
  {
    hide Lanes, Aligned;
    var c := |fed| - |rest|;
    LanesOfPrefix(alg, seed, fed, input, c);
    NextAligned(c, alg.stripe);
    SliceAcross(fed, input, c, p);
    NextLanes(alg, seed, fed + input, c);
  }

  /** Nothing is buffered: the input starts a stripe. */
  lemma StartsStripe<W>(alg: Algorithm<W>, seed: W, fed: seq<Byte>, v: V4<W>, input: seq<Byte>)
    requires ValidAlgorithm(alg) && Holds(alg, seed, fed, v, [])
    ensures Aligned(|fed|, alg.stripe) && v == Lanes(alg, seed, fed + input, |fed|)
  {
    LanesOfPrefix(alg, seed, fed, input, |fed|);
  }

  /** All whole stripes are eaten: the end of the input is the new rest. */
  lemma Leaves<W>(alg: Algorithm<W>, seed: W, fed: seq<Byte>, v: V4<W>, input: seq<Byte>, p: nat)
    requires ValidAlgorithm(alg) && p <= |input| < p + alg.stripe && Aligned(|fed| + p, alg.stripe)
    requires v == Lanes(alg, seed, fed + input, |fed| + p)
    ensures Holds(alg, seed, fed + input, v, input[p..])
  {
    hide Lanes, Aligned;
    var rest := input[p..];
    assert |fed + input| - |rest| == |fed| + p;
    assert (fed + input)[|fed| + p..] == rest;
  }

  lemma JoinedEnds(a: seq<Byte>, b: seq<Byte>)
    ensures |a + b| == |a| + |b| && (a + b)[|a|..] == b
  {
  }

  /** The hash, from what is held. */
  lemma HashOfHeld<W>(alg: Algorithm<W>, seed: W, fed: seq<Byte>, v: V4<W>, rest: seq<Byte>)
    requires ValidAlgorithm(alg) && Holds(alg, seed, fed, v, rest)
    ensures var h := if |fed| >= alg.stripe then alg.converge(v) else alg.short(seed);
      Hash(alg, seed, fed) == Tail(alg, alg.addLength(h, |fed|), rest)
  {
    AlignedIsWhole(|fed| - |rest|, |rest|, alg.stripe);
  }

  /** The state between reset, update and digest.  fed is all that was fed
      since the reset. */
  class State<W> {
    const alg: Algorithm<W>
    const mem: array<Byte>
    var totalLen: nat
    var seed: W
    var v: V4<W>
    var memsize: nat
    ghost var fed: seq<Byte>

    ghost predicate Valid()
      reads this, mem
    {
      Buffered() && totalLen == Mod64(|fed|)
    }

    ghost predicate Buffered()
      reads this, mem
    {
      && ValidAlgorithm(alg) && mem.Length == alg.stripe && memsize < alg.stripe
      && Holds(alg, seed, fed, v, mem[..memsize])
    }

    constructor (alg: Algorithm<W>, seed: W)
      requires ValidAlgorithm(alg)
      ensures Valid() && fresh(mem) && this.alg == alg && this.seed == seed && fed == []
    {
      this.alg := alg;
      this.mem := new Byte[alg.stripe];
      this.totalLen, this.seed, this.v, this.memsize := 0, seed, alg.init(seed), 0;
      this.fed := [];
    }

    method Reset(seed: W)
      requires Valid()
      modifies this
      ensures Valid() && this.seed == seed && fed == []
    {
      this.seed := seed;
      v := alg.init(seed);
      totalLen := 0;
      memsize := 0;
      fed := [];
    }

    /** memcpy into the buffer. */
    method Store(at: nat, source: seq<Byte>)
      requires at + |source| <= mem.Length
      modifies mem
      ensures mem[..at + |source|] == old(mem[..at]) + source
    {
      for i := 0 to |source|
        invariant mem[..at + i] == old(mem[..at]) + source[..i]
      {
        mem[at + i] := source[i];
      }
    }

    /** Fills the buffer up with input and eats it; returns the bytes used. */
    method EatBuffer(input: seq<Byte>) returns (p: nat)
      requires Buffered() && 0 < memsize && memsize + |input| >= alg.stripe
      modifies this`v, this`memsize, mem
      ensures p <= |input| && memsize == 0 && Aligned(|fed| + p, alg.stripe)
      ensures v == Lanes(alg, seed, fed + input, |fed| + p)
    {
      hide Lanes, Aligned;
      p := alg.stripe - memsize;
      ghost var rest := mem[..memsize];
      Fills(alg, seed, fed, v, rest, input, p);
      Store(memsize, input[..p]);
      assert mem[..] == mem[..alg.stripe] == rest + input[..p];
      v := alg.round(v, mem[..]);
      memsize := 0;
    }

    /** Keeps the bytes behind the last whole stripe. */
    method Keep(input: seq<Byte>, p: nat)
      requires p <= |input| < p + mem.Length && memsize == 0
      modifies this`memsize, mem
      ensures memsize == |input| - p && mem[..memsize] == input[p..]
    {
      if p < |input| {
        Store(0, input[p..]);
        memsize := |input| - p;
      }
    }

    /** Eats the stripes from p on and keeps what is left. */
    method EatStripes(input: seq<Byte>, start: nat)
      requires ValidAlgorithm(alg) && mem.Length == alg.stripe && memsize == 0 && start <= |input|
      requires Aligned(|fed| + start, alg.stripe) && v == Lanes(alg, seed, fed + input, |fed| + start)
      modifies this`v, this`memsize, this`fed, mem
      ensures Buffered() && fed == old(fed) + input
    {
      JoinedEnds(fed, input);
      var p;
      v, p := Stripes(alg, seed, fed + input, |fed|, input, start, v);
      Leaves(alg, seed, fed, v, input, p);
      Keep(input, p);
      fed := fed + input;
    }

    /** At least one stripe in all. */
    method EatInput(input: seq<Byte>)
      requires Buffered() && memsize + |input| >= alg.stripe
      modifies this`v, this`memsize, this`fed, mem
      ensures Buffered() && fed == old(fed) + input
    {
      var p := 0;
      if memsize > 0 {
        p := EatBuffer(input);
      } else {
        assert mem[..memsize] == [];
        StartsStripe(alg, seed, fed, v, input);
      }
      EatStripes(input, p);
    }

    /** Less than a stripe in all. */
    method JoinInput(input: seq<Byte>)
      requires Buffered() && memsize + |input| < alg.stripe
      modifies this`memsize, this`fed, mem
      ensures Buffered() && fed == old(fed) + input
    {
      Joins(alg, seed, fed, v, mem[..memsize], input);
      Store(memsize, input);
      memsize := memsize + |input|;
      fed := fed + input;
    }

    method Update(input: seq<Byte>)
      requires Valid()
      modifies this`totalLen, this`v, this`memsize, this`fed, mem
      ensures Valid() && fed == old(fed) + input
    {
      AddModulo(|fed|, |input|);
      totalLen := Mod64(totalLen + |input|);
      if memsize + |input| < alg.stripe { JoinInput(input); } else { EatInput(input); }
    }

    /** Below 2^64 bytes in all, digest is the hash of what was fed.  It only
        reads, so the state stays usable. */
    method Digest() returns (h: W)
      requires Valid()
      ensures |fed| < TWO_64 ==> h == Hash(alg, seed, fed)
    {
      HashOfHeld(alg, seed, fed, v, mem[..memsize]);
      if totalLen >= alg.stripe { h := alg.converge(v); } else { h := alg.short(seed); }
      h := alg.addLength(h, totalLen);
      h := Finish(alg, h, mem[..memsize]);
    }
  }

  /** What an unsigned 64 bit counter holds: n modulo 2^64. */
  function Mod64(n: nat): nat {
    if n < TWO_64 then n else Mod64(n - TWO_64)
  }

  /** Counting on from the wrapped value. */
  lemma {:induction false} AddModulo(a: nat, b: nat)
    ensures Mod64(Mod64(a) + b) == Mod64(a + b)
  {
    if a >= TWO_64 { AddModulo(a - TWO_64, b); }
  }

  /** Reset, updates and digest give the one-shot hash, however the input is
      cut into chunks. */
  method StreamedHash<W>(alg: Algorithm<W>, seed: W, chunks: seq<seq<Byte>>) returns (h: W)
    requires ValidAlgorithm(alg) && |Flatten(chunks)| < TWO_64
    ensures h == Hash(alg, seed, Flatten(chunks))
  {
    var state := new State(alg, seed);
    for i := 0 to |chunks|
      invariant state.Valid() && fresh(state) && fresh(state.mem) && state.alg == alg && state.seed == seed
      invariant state.fed == Flatten(chunks[..i])
    {
      assert chunks[..i + 1][..i] == chunks[..i];
      state.Update(chunks[i]);
    }
    assert chunks[..|chunks|] == chunks;
    h := state.Digest();
  }
}
