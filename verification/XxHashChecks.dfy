/**
 * Check values of XXH32 and XXH64: hashes of concrete strings, which together
 * take every kind of step.
 */
module XxHashChecks {
  import opened Options
  import opened XxHash
  import opened XxHashWords

  // ----- check values ----------------------------------------------------

  /** The hashes of the empty string. */
  lemma EmptyString32()
    ensures Hash(Xxh32(), 0, []) == 0x02CC5D05
  {
  }

  lemma EmptyString64()
    ensures Hash(Xxh64(), 0, []) == 0xEF46DB3751D8E999
  {
  }

  /** The sentence "Nobody inspects the spammish repetition", whose hashes take
      stripes, a word or half a word, and single bytes. */
  const STRIPE1: seq<Byte> := [78, 111, 98, 111, 100, 121, 32, 105, 110, 115, 112, 101, 99, 116, 115, 32]
  const STRIPE2: seq<Byte> := [116, 104, 101, 32, 115, 112, 97, 109, 109, 105, 115, 104, 32, 114, 101, 112]
  const WORD: seq<Byte> := [101, 116, 105, 116]
  const LETTERS: seq<Byte> := [105, 111, 110]

  /** The lanes of XXH32 before, between and after the two stripes, and those of
      XXH64 before and after its one. */
  const START32: V4<bv32> := V4(0x24234428, 0x85EBCA77, 0x00000000, 0x61C8864F)
  const MIDDLE32: V4<bv32> := V4(0x046A700A, 0xBFADF8E3, 0x5B32B4AA, 0x137E5555)
  const END32: V4<bv32> := V4(0x719A836E, 0x514C1DE8, 0x97FA4BA2, 0x242A97A2)
  const START64: V4<bv64> := V4(0x60EA27EEADC0B5D6, 0xC2B2AE3D27D4EB4F, 0x0000000000000000, 0x61C8864E7A143579)
  const END64: V4<bv64> := V4(0x37245127A4067E4B, 0x1B302B0A818F92CF, 0xCD62D843D0580FCA, 0x1C16E43EF2142A4A)

  function Sentence(): seq<Byte> { STRIPE1 + STRIPE2 + WORD + LETTERS }

  lemma Parts(s: seq<Byte>)
    requires s == Sentence()
    ensures |s| == 39 && s[0..16] == STRIPE1 && s[16..32] == STRIPE2 && s[0..32] == STRIPE1 + STRIPE2
    ensures s[32..] == WORD + LETTERS && (WORD + LETTERS)[..4] == WORD && (WORD + LETTERS)[4..] == LETTERS
  {
  }

  lemma LengthOfSentence()
    ensures Low32(39) == 39 && Low64(39) == 39
  {
    assert 39 % 0x1_0000_0000 == 39 && 39 % 0x1_0000_0000_0000_0000 == 39;
  }

  lemma Rounds32()
    ensures Init32(0) == START32
    ensures Round32(START32, STRIPE1) == MIDDLE32
    ensures Round32(MIDDLE32, STRIPE2) == END32
  {
  }

  lemma Mixed32()
    ensures Converge32(END32) == 0x8C86B52D
    ensures AddLength32(0x8C86B52D, 39) == 0x8C86B554 && Word32(0x8C86B554, Read32(WORD, 0)) == 0x09B51544
    ensures Byte32(0x09B51544, LETTERS[0]) == 0xCDEFD3C9
    ensures Byte32(0xCDEFD3C9, LETTERS[1]) == 0x3852087B && Byte32(0x3852087B, LETTERS[2]) == 0xB3A7011B
    ensures Avalanche32(0xB3A7011B) == 0xE2293B2F
  {
    hide Low32, Low64;
    LengthOfSentence();
  }

  lemma ThreeBytes<W>(alg: Algorithm<W>, h: W)
    ensures Bytes(alg, h, LETTERS) == alg.byte(alg.byte(alg.byte(h, LETTERS[0]), LETTERS[1]), LETTERS[2])
  {
    assert LETTERS[1..] == [LETTERS[1], LETTERS[2]] && LETTERS[1..][1..] == [LETTERS[2]] && [LETTERS[2]][1..] == [];
  }

  lemma FirstLanes<W>(alg: Algorithm<W>, seed: W, s: seq<Byte>)
    requires ValidAlgorithm(alg)
    ensures Lanes(alg, seed, s, 0) == alg.init(seed)
  {
  }

  /** The hash, from the lanes after 32 bytes. */
  lemma HashOfLanes<W>(alg: Algorithm<W>, s: seq<Byte>, seed: W, v: V4<W>, h: W)
    requires ValidAlgorithm(alg) && s == Sentence() && |s| == 39 && Whole(39, alg.stripe) == 32 && alg.stripe <= 39
    requires Lanes(alg, seed, s, 32) == v && alg.addLength(alg.converge(v), 39) == h
    ensures Hash(alg, seed, s) == Tail(alg, h, WORD + LETTERS)
  {
    assert s[32..] == WORD + LETTERS;
  }

  lemma WordThenBytes(alg: Algorithm<bv32>, h: bv32, s: seq<Byte>)
    requires ValidAlgorithm(alg) && alg.wordSize == 4 && alg.half.None? && s == WORD + LETTERS
    ensures Tail(alg, h, s) == alg.avalanche(Bytes(alg, alg.word(h, WORD), LETTERS))
  {
    assert s[..4] == WORD && s[4..] == LETTERS && |LETTERS| == 3;
    assert Words(alg, h, s) == Words(alg, alg.word(h, WORD), LETTERS) == alg.word(h, WORD);
    assert Whole(7, 4) == 4;
  }

  lemma HalfThenBytes(alg: Algorithm<bv64>, h: bv64, s: seq<Byte>)
    requires ValidAlgorithm(alg) && alg.wordSize == 8 && alg.half.Some? && s == WORD + LETTERS
    ensures Tail(alg, h, s) == alg.avalanche(Bytes(alg, alg.half.value(h, WORD), LETTERS))
  {
    assert s[..4] == WORD && s[4..] == LETTERS && s[0..] == s;
  }

  lemma SentenceLanes32(s: seq<Byte>)
    requires s == Sentence()
    ensures |s| == 39 && Lanes(Xxh32(), 0, s, 32) == END32
  {
    hide Init32, Round32, Converge32, Word32, Byte32, Avalanche32, Read32, Lane32;
    Parts(s);
    Rounds32();
    FirstLanes(Xxh32(), 0, s);
    NextLanes(Xxh32(), 0, s, 0);
    NextLanes(Xxh32(), 0, s, 16);
  }

  lemma SentenceTail32()
    ensures Tail(Xxh32(), 0x8C86B554, WORD + LETTERS) == 0xE2293B2F
  {
    hide Init32, Round32, Converge32, Word32, Byte32, Avalanche32, Read32, Lane32;
    Mixed32();
    WordThenBytes(Xxh32(), 0x8C86B554, WORD + LETTERS);
    ThreeBytes(Xxh32(), 0x09B51544);
  }

  lemma Length32()
    ensures Xxh32().addLength(Xxh32().converge(END32), 39) == 0x8C86B554
  {
    hide Converge32, AddLength32;
    Mixed32();
  }

  lemma SentenceHash32(s: seq<Byte>)
    requires s == Sentence()
    ensures Hash(Xxh32(), 0, s) == 0xE2293B2F
  {
    SentenceLanes32(s);
    SentenceTail32();
    Length32();
    AlignedIsWhole(32, 7, 16);
    hide *;
    HashOfLanes(Xxh32(), s, 0, END32, 0x8C86B554);
  }

  lemma Start64()
    ensures Init64(0) == START64
  {
  }

  lemma Words64(s: seq<Byte>)
    requires s == STRIPE1 + STRIPE2
    ensures Read64(s, 0) == 0x692079646F626F4E && Read64(s, 8) == 0x207374636570736E
    ensures Read64(s, 16) == 0x6D61707320656874 && Read64(s, 24) == 0x706572206873696D
  {
  }

  lemma Lanes64()
    ensures Lane64(0x60EA27EEADC0B5D6, 0x692079646F626F4E) == 0x37245127A4067E4B
    ensures Lane64(0xC2B2AE3D27D4EB4F, 0x207374636570736E) == 0x1B302B0A818F92CF
    ensures Lane64(0x0000000000000000, 0x6D61707320656874) == 0xCD62D843D0580FCA
    ensures Lane64(0x61C8864E7A143579, 0x706572206873696D) == 0x1C16E43EF2142A4A
  {
  }

  lemma Rounds64()
    ensures Init64(0) == START64
    ensures Round64(START64, STRIPE1 + STRIPE2) == END64
  {
    hide Lane64, Read64;
    Start64();
    Words64(STRIPE1 + STRIPE2);
    Lanes64();
  }

  lemma Merged64()
    ensures Converge64(END64) == 0x84F22C421A11A8B5
  {
  }

  lemma Mixed64()
    ensures AddLength64(0x84F22C421A11A8B5, 39) == 0x84F22C421A11A8DC
    ensures Half64(0x84F22C421A11A8DC, Read32(WORD, 0)) == 0x9FCA0F5D0AAA110F
    ensures Byte64(0x9FCA0F5D0AAA110F, LETTERS[0]) == 0x769671546F21BA14
    ensures Byte64(0x769671546F21BA14, LETTERS[1]) == 0xEAE9B643C5F94E52
    ensures Byte64(0xEAE9B643C5F94E52, LETTERS[2]) == 0x1D0A47483B37CC24
    ensures Avalanche64(0x1D0A47483B37CC24) == 0xFBCEA83C8A378BF1
  {
    hide Low32, Low64;
    LengthOfSentence();
  }

  lemma SentenceLanes64(s: seq<Byte>)
    requires s == Sentence()
    ensures |s| == 39 && Lanes(Xxh64(), 0, s, 32) == END64
  {
    hide Init64, Round64, Converge64, Word64, Half64, Byte64, Avalanche64, Read32, Read64, Lane64;
    Parts(s);
    Rounds64();
    FirstLanes(Xxh64(), 0, s);
    NextLanes(Xxh64(), 0, s, 0);
  }

  lemma SentenceTail64()
    ensures Tail(Xxh64(), 0x84F22C421A11A8DC, WORD + LETTERS) == 0xFBCEA83C8A378BF1
  {
    hide Init64, Round64, Converge64, Word64, Half64, Byte64, Avalanche64, Read32, Read64, Lane64;
    Mixed64();
    HalfThenBytes(Xxh64(), 0x84F22C421A11A8DC, WORD + LETTERS);
    ThreeBytes(Xxh64(), 0x9FCA0F5D0AAA110F);
  }

  lemma Length64()
    ensures Xxh64().addLength(Xxh64().converge(END64), 39) == 0x84F22C421A11A8DC
  {
    hide Converge64, AddLength64;
    Merged64();
    Mixed64();
  }

  lemma SentenceHash64(s: seq<Byte>)
    requires s == Sentence()
    ensures Hash(Xxh64(), 0, s) == 0xFBCEA83C8A378BF1
  {
    SentenceLanes64(s);
    SentenceTail64();
    Length64();
    AlignedIsWhole(32, 7, 32);
    hide *;
    HashOfLanes(Xxh64(), s, 0, END64, 0x84F22C421A11A8DC);
  }

  // ----- a whole word of XXH64 -------------------------------------------

  const EIGHT: seq<Byte> := [97, 98, 99, 100, 101, 102, 103, 104]

  lemma MixedEight()
    ensures PRIME64_5 + 8 == 0x27D4EB2F165667CD && Word64(0x27D4EB2F165667CD, Read64(EIGHT, 0)) == 0xA119981D165AD1DF
    ensures Avalanche64(0xA119981D165AD1DF) == 0x3AD351775B4634B7 && Low64(8) == 8
  {
    assert 8 % 0x1_0000_0000_0000_0000 == 8;
  }

  lemma WordAlone<W>(alg: Algorithm<W>, h: W)
    requires ValidAlgorithm(alg) && alg.wordSize == 8
    ensures Tail(alg, h, EIGHT) == alg.avalanche(alg.word(h, EIGHT))
  {
    assert EIGHT[..8] == EIGHT && EIGHT[8..] == [] && Whole(8, 8) == 8;
    assert Words(alg, h, EIGHT) == Words(alg, alg.word(h, EIGHT), []) == alg.word(h, EIGHT);
  }

  /** "abcdefgh". */
  lemma EightLetters64()
    ensures Hash(Xxh64(), 0, EIGHT) == 0x3AD351775B4634B7
  {
    hide Word64, Avalanche64, Read64, Low64;
    MixedEight();
    WordAlone(Xxh64(), 0x27D4EB2F165667CD);
    assert EIGHT[0..] == EIGHT && Whole(8, 32) == 0;
  }
}
