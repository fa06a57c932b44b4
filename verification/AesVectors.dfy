/** The example vectors of FIPS 197: the key expansion of appendix A.1 and the cipher of appendix B. */
module AesVectors {
  import opened AesTables
  import opened Fips197
  import opened CipherInverse

  /** Four bytes, the first one in the highest places. */
  function Word(w: bv32): Column {
    Column(Byte((w >> 24) as bv8), Byte(((w >> 16) & 0xff) as bv8), Byte(((w >> 8) & 0xff) as bv8),
           Byte((w & 0xff) as bv8))
  }

  function Of(a: bv32, b: bv32, c: bv32, d: bv32): State {
    State(Word(a), Word(b), Word(c), Word(d))
  }

  // ----- Appendix A.1: the round keys -----

  const K0: State := Of(0x2b7e1516, 0x28aed2a6, 0xabf71588, 0x09cf4f3c)
  const K1: State := Of(0xa0fafe17, 0x88542cb1, 0x23a33939, 0x2a6c7605)
  const K2: State := Of(0xf2c295f2, 0x7a96b943, 0x5935807a, 0x7359f67f)
  const K3: State := Of(0x3d80477d, 0x4716fe3e, 0x1e237e44, 0x6d7a883b)
  const K4: State := Of(0xef44a541, 0xa8525b7f, 0xb671253b, 0xdb0bad00)
  const K5: State := Of(0xd4d1c6f8, 0x7c839d87, 0xcaf2b8bc, 0x11f915bc)
  const K6: State := Of(0x6d88a37a, 0x110b3efd, 0xdbf98641, 0xca0093fd)
  const K7: State := Of(0x4e54f70e, 0x5f5fc9f3, 0x84a64fb2, 0x4ea6dc4f)
  const K8: State := Of(0xead27321, 0xb58dbad2, 0x312bf560, 0x7f8d292f)
  const K9: State := Of(0xac7766f3, 0x19fadc21, 0x28d12941, 0x575c006e)
  const K10: State := Of(0xd014f9a8, 0xc9ee2589, 0xe13f0cc8, 0xb6630ca6)

  /** The words of a round key from those of the one before, with the first increment worked out. */
  lemma FirstWord(key: State, r: nat, k: State, word: Column)
    requires 1 <= r <= 10 && RoundKey(key, r - 1) == k && AddWord(k.c0, Increment(4 * r, k.c3)) == word
    ensures ExpandedWord(key, 4 * r) == word
  {
    hide Increment, AddWord;
  }

  lemma OtherWord(key: State, i: nat, before: Column, previous: Column, word: Column)
    requires 4 <= i && i % 4 != 0 && ExpandedWord(key, i - 4) == before && ExpandedWord(key, i - 1) == previous
    requires AddWord(before, previous) == word
    ensures ExpandedWord(key, i) == word
  {
    hide AddWord;
  }

  lemma NextKey(key: State, r: nat, k: State, k': State)
    requires 1 <= r <= 10 && RoundKey(key, r - 1) == k && AddWord(k.c0, Increment(4 * r, k.c3)) == k'.c0
    requires AddWord(k.c1, k'.c0) == k'.c1 && AddWord(k.c2, k'.c1) == k'.c2 && AddWord(k.c3, k'.c2) == k'.c3
    ensures RoundKey(key, r) == k'
  {
    hide Increment, AddWord, ExpandedWord;
    FirstWord(key, r, k, k'.c0);
    OtherWord(key, 4 * r + 1, k.c1, k'.c0, k'.c1);
    OtherWord(key, 4 * r + 2, k.c2, k'.c1, k'.c2);
    OtherWord(key, 4 * r + 3, k.c3, k'.c2, k'.c3);
  }

  lemma Rcons()
    ensures RoundConstant(1) == Byte(0x01) && RoundConstant(2) == Byte(0x02) && RoundConstant(3) == Byte(0x04)
    ensures RoundConstant(4) == Byte(0x08) && RoundConstant(5) == Byte(0x10) && RoundConstant(6) == Byte(0x20)
    ensures RoundConstant(7) == Byte(0x40) && RoundConstant(8) == Byte(0x80) && RoundConstant(9) == Byte(0x1b)
    ensures RoundConstant(10) == Byte(0x36)
  {
  }

  lemma Key1()
    ensures AddWord(K0.c0, Increment(4, K0.c3)) == K1.c0
    ensures AddWord(K0.c1, K1.c0) == K1.c1 && AddWord(K0.c2, K1.c1) == K1.c2 && AddWord(K0.c3, K1.c2) == K1.c3
  {
    hide RoundConstant;
    Rcons();
  }

  lemma Key2()
    ensures AddWord(K1.c0, Increment(8, K1.c3)) == K2.c0
    ensures AddWord(K1.c1, K2.c0) == K2.c1 && AddWord(K1.c2, K2.c1) == K2.c2 && AddWord(K1.c3, K2.c2) == K2.c3
  {
    hide RoundConstant;
    Rcons();
  }

  lemma Key3()
    ensures AddWord(K2.c0, Increment(12, K2.c3)) == K3.c0
    ensures AddWord(K2.c1, K3.c0) == K3.c1 && AddWord(K2.c2, K3.c1) == K3.c2 && AddWord(K2.c3, K3.c2) == K3.c3
  {
    hide RoundConstant;
    Rcons();
  }

  lemma Key4()
    ensures AddWord(K3.c0, Increment(16, K3.c3)) == K4.c0
    ensures AddWord(K3.c1, K4.c0) == K4.c1 && AddWord(K3.c2, K4.c1) == K4.c2 && AddWord(K3.c3, K4.c2) == K4.c3
  {
    hide RoundConstant;
    Rcons();
  }

  lemma Key5()
    ensures AddWord(K4.c0, Increment(20, K4.c3)) == K5.c0
    ensures AddWord(K4.c1, K5.c0) == K5.c1 && AddWord(K4.c2, K5.c1) == K5.c2 && AddWord(K4.c3, K5.c2) == K5.c3
  {
    hide RoundConstant;
    Rcons();
  }

  lemma Key6()
    ensures AddWord(K5.c0, Increment(24, K5.c3)) == K6.c0
    ensures AddWord(K5.c1, K6.c0) == K6.c1 && AddWord(K5.c2, K6.c1) == K6.c2 && AddWord(K5.c3, K6.c2) == K6.c3
  {
    hide RoundConstant;
    Rcons();
  }

  lemma Key7()
    ensures AddWord(K6.c0, Increment(28, K6.c3)) == K7.c0
    ensures AddWord(K6.c1, K7.c0) == K7.c1 && AddWord(K6.c2, K7.c1) == K7.c2 && AddWord(K6.c3, K7.c2) == K7.c3
  {
    hide RoundConstant;
    Rcons();
  }

  lemma Key8()
    ensures AddWord(K7.c0, Increment(32, K7.c3)) == K8.c0
    ensures AddWord(K7.c1, K8.c0) == K8.c1 && AddWord(K7.c2, K8.c1) == K8.c2 && AddWord(K7.c3, K8.c2) == K8.c3
  {
    hide RoundConstant;
    Rcons();
  }

  lemma Key9()
    ensures AddWord(K8.c0, Increment(36, K8.c3)) == K9.c0
    ensures AddWord(K8.c1, K9.c0) == K9.c1 && AddWord(K8.c2, K9.c1) == K9.c2 && AddWord(K8.c3, K9.c2) == K9.c3
  {
    hide RoundConstant;
    Rcons();
  }

  lemma Key10()
    ensures AddWord(K9.c0, Increment(40, K9.c3)) == K10.c0
    ensures AddWord(K9.c1, K10.c0) == K10.c1 && AddWord(K9.c2, K10.c1) == K10.c2 && AddWord(K9.c3, K10.c2) == K10.c3
  {
    hide RoundConstant;
    Rcons();
  }

  /** The key expansion of appendix A.1, all forty-four words. */
  lemma ExpansionVector()
    ensures KeyExpansion(K0) == [K0, K1, K2, K3, K4, K5, K6, K7, K8, K9, K10]
  {
    hide Increment, AddWord, RoundKey, Word;
    FirstKey();
    Key1();
    NextKey(K0, 1, K0, K1);
    Key2();
    NextKey(K0, 2, K1, K2);
    Key3();
    NextKey(K0, 3, K2, K3);
    Key4();
    NextKey(K0, 4, K3, K4);
    Key5();
    NextKey(K0, 5, K4, K5);
    Key6();
    NextKey(K0, 6, K5, K6);
    Key7();
    NextKey(K0, 7, K6, K7);
    Key8();
    NextKey(K0, 8, K7, K8);
    Key9();
    NextKey(K0, 9, K8, K9);
    Key10();
    NextKey(K0, 10, K9, K10);
  }

  lemma FirstKey()
    ensures RoundKey(K0, 0) == K0
  {
    hide Word;
  }

  // ----- Appendix B: the cipher -----

  const INPUT: State := Of(0x3243f6a8, 0x885a308d, 0x313198a2, 0xe0370734)
  const OUTPUT: State := Of(0x3925841d, 0x02dc09fb, 0xdc118597, 0x196a0b32)

  // The states at the start of each round.
  const S1: State := Of(0x193de3be, 0xa0f4e22b, 0x9ac68d2a, 0xe9f84808)
  const S2: State := Of(0xa49c7ff2, 0x689f352b, 0x6b5bea43, 0x026a5049)
  const S3: State := Of(0xaa8f5f03, 0x61dde3ef, 0x82d24ad2, 0x6832469a)
  const S4: State := Of(0x486c4eee, 0x671d9d0d, 0x4de3b138, 0xd65f58e7)
  const S5: State := Of(0xe0927fe8, 0xc86363c0, 0xd9b13550, 0x85b8be01)
  const S6: State := Of(0xf1006f55, 0xc1924cef, 0x7cc88b32, 0x5db5d50c)
  const S7: State := Of(0x260e2e17, 0x3d41b77d, 0xe86472a9, 0xfdd28b25)
  const S8: State := Of(0x5a4142b1, 0x1949dc1f, 0xa3e01965, 0x7a8c040c)
  const S9: State := Of(0xea835cf0, 0x0445332d, 0x655d98ad, 0x8596b0c5)
  const S10: State := Of(0xeb40f21e, 0x592e3884, 0x8ba113e7, 0x1bc342d2)

  lemma Round0()
    ensures AddRoundKey(INPUT, K0) == S1
  {
  }

  // The states before the columns are mixed.
  const T1: State := Of(0xd4bf5d30, 0xe0b452ae, 0xb84111f1, 0x1e2798e5)
  const T2: State := Of(0x49db873b, 0x45395389, 0x7f02d2f1, 0x77de961a)
  const T3: State := Of(0xacc1d6b8, 0xefb55a7b, 0x1323cfdf, 0x457311b5)
  const T4: State := Of(0x52a4c894, 0x85116a28, 0xe3cf2fd7, 0xf6505e07)
  const T5: State := Of(0xe1fb967c, 0xe8c8ae9b, 0x356cd2ba, 0x974ffb53)
  const T6: State := Of(0xa14f3dfe, 0x78e803fc, 0x10d5a8df, 0x4c632923)
  const T7: State := Of(0xf783403f, 0x27433df0, 0x9bb531ff, 0x54aba9d3)
  const T8: State := Of(0xbe3bd4fe, 0xd4e1f2c8, 0x0a642cc0, 0xda83864d)
  const T9: State := Of(0x876e46a6, 0xf24ce78c, 0x4d904ad8, 0x97ecc395)

  /** The mixed column in terms of doubling alone. */
  lemma MixColumnDoubles(c: Column)
    ensures MixColumn(c) == Column(Sum4(XTime(c.b0), Plus(XTime(c.b1), c.b1), c.b2, c.b3),
                                   Sum4(XTime(c.b1), Plus(XTime(c.b2), c.b2), c.b3, c.b0),
                                   Sum4(XTime(c.b2), Plus(XTime(c.b3), c.b3), c.b0, c.b1),
                                   Sum4(XTime(c.b3), Plus(XTime(c.b0), c.b0), c.b1, c.b2))
  {
    hide Times, XTime, Plus, Sum4;
    Times2And3(c.b0);
    Times2And3(c.b1);
    Times2And3(c.b2);
    Times2And3(c.b3);
  }

  lemma Round1()
    ensures ShiftRows(SubBytes(S1)) == T1 && AddRoundKey(MixColumns(T1), K1) == S2
  {
    hide Times, MixColumn;
    MixColumnDoubles(T1.c0);
    MixColumnDoubles(T1.c1);
    MixColumnDoubles(T1.c2);
    MixColumnDoubles(T1.c3);
  }

  lemma Round2()
    ensures ShiftRows(SubBytes(S2)) == T2 && AddRoundKey(MixColumns(T2), K2) == S3
  {
    hide Times, MixColumn;
    MixColumnDoubles(T2.c0);
    MixColumnDoubles(T2.c1);
    MixColumnDoubles(T2.c2);
    MixColumnDoubles(T2.c3);
  }

  lemma Round3()
    ensures ShiftRows(SubBytes(S3)) == T3 && AddRoundKey(MixColumns(T3), K3) == S4
  {
    hide Times, MixColumn;
    MixColumnDoubles(T3.c0);
    MixColumnDoubles(T3.c1);
    MixColumnDoubles(T3.c2);
    MixColumnDoubles(T3.c3);
  }

  lemma Round4()
    ensures ShiftRows(SubBytes(S4)) == T4 && AddRoundKey(MixColumns(T4), K4) == S5
  {
    hide Times, MixColumn;
    MixColumnDoubles(T4.c0);
    MixColumnDoubles(T4.c1);
    MixColumnDoubles(T4.c2);
    MixColumnDoubles(T4.c3);
  }

  lemma Round5()
    ensures ShiftRows(SubBytes(S5)) == T5 && AddRoundKey(MixColumns(T5), K5) == S6
  {
    hide Times, MixColumn;
    MixColumnDoubles(T5.c0);
    MixColumnDoubles(T5.c1);
    MixColumnDoubles(T5.c2);
    MixColumnDoubles(T5.c3);
  }

  lemma Round6()
    ensures ShiftRows(SubBytes(S6)) == T6 && AddRoundKey(MixColumns(T6), K6) == S7
  {
    hide Times, MixColumn;
    MixColumnDoubles(T6.c0);
    MixColumnDoubles(T6.c1);
    MixColumnDoubles(T6.c2);
    MixColumnDoubles(T6.c3);
  }

  lemma Round7()
    ensures ShiftRows(SubBytes(S7)) == T7 && AddRoundKey(MixColumns(T7), K7) == S8
  {
    hide Times, MixColumn;
    MixColumnDoubles(T7.c0);
    MixColumnDoubles(T7.c1);
    MixColumnDoubles(T7.c2);
    MixColumnDoubles(T7.c3);
  }

  lemma Round8()
    ensures ShiftRows(SubBytes(S8)) == T8 && AddRoundKey(MixColumns(T8), K8) == S9
  {
    hide Times, MixColumn;
    MixColumnDoubles(T8.c0);
    MixColumnDoubles(T8.c1);
    MixColumnDoubles(T8.c2);
    MixColumnDoubles(T8.c3);
  }

  lemma Round9()
    ensures ShiftRows(SubBytes(S9)) == T9 && AddRoundKey(MixColumns(T9), K9) == S10
  {
    hide Times, MixColumn;
    MixColumnDoubles(T9.c0);
    MixColumnDoubles(T9.c1);
    MixColumnDoubles(T9.c2);
    MixColumnDoubles(T9.c3);
  }

  lemma Round10()
    ensures AddRoundKey(ShiftRows(SubBytes(S10)), K10) == OUTPUT
  {
  }

  /** The cipher of appendix B; and, as its rounds retrace, the inverse cipher. */
  lemma CipherVector()
    ensures Cipher(INPUT, KeyExpansion(K0)) == OUTPUT && InvCipher(OUTPUT, KeyExpansion(K0)) == INPUT
  {
    hide AddRoundKey, MixColumns, ShiftRows, SubBytes, KeyExpansion, InvCipher, Of;
    ExpansionVector();
    var w := KeyExpansion(K0);
    Round0();
    Round1();
    Round2();
    Round3();
    Round4();
    Round5();
    Round6();
    Round7();
    Round8();
    Round9();
    Round10();
    assert CipherRounds(S1, w, 0) == S1;
    assert CipherRounds(S1, w, 1) == S2;
    assert CipherRounds(S1, w, 2) == S3;
    assert CipherRounds(S1, w, 3) == S4;
    assert CipherRounds(S1, w, 4) == S5;
    assert CipherRounds(S1, w, 5) == S6;
    assert CipherRounds(S1, w, 6) == S7;
    assert CipherRounds(S1, w, 7) == S8;
    assert CipherRounds(S1, w, 8) == S9;
    assert CipherRounds(S1, w, 9) == S10;
    DecipherUndoesCipher(INPUT, w);
  }
}
