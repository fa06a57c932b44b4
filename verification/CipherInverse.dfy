/** The cipher and the inverse cipher of FIPS 197 undo each other, under every schedule. */
module CipherInverse {
  import opened Fips197
  import opened FastMix

  lemma AddRoundKeyTwice(s: State, k: State)
    ensures AddRoundKey(AddRoundKey(s, k), k) == s
  {
    AddWordTwice(s.c0, k.c0);
    AddWordTwice(s.c1, k.c1);
    AddWordTwice(s.c2, k.c2);
    AddWordTwice(s.c3, k.c3);
  }

  lemma AddWordTwice(a: Column, b: Column)
    ensures AddWord(AddWord(a, b), b) == a
  {
    PlusUndoesItself(a.b0, b.b0);
    PlusUndoesItself(a.b1, b.b1);
    PlusUndoesItself(a.b2, b.b2);
    PlusUndoesItself(a.b3, b.b3);
  }

  lemma SubWordInverse(a: Column)
    ensures InvSubWord(SubWord(a)) == a && SubWord(InvSubWord(a)) == a
  {
    SubByteInverse(a.b0);
    SubByteInverse(a.b1);
    SubByteInverse(a.b2);
    SubByteInverse(a.b3);
  }

  lemma SubBytesInverse(s: State)
    ensures InvSubBytes(SubBytes(s)) == s && SubBytes(InvSubBytes(s)) == s
  {
    SubWordInverse(s.c0);
    SubWordInverse(s.c1);
    SubWordInverse(s.c2);
    SubWordInverse(s.c3);
  }

  lemma ShiftRowsInverse(s: State)
    ensures InvShiftRows(ShiftRows(s)) == s && ShiftRows(InvShiftRows(s)) == s
  {
  }

  lemma MixColumnsInverse(s: State)
    ensures InvMixColumns(MixColumns(s)) == s && MixColumns(InvMixColumns(s)) == s
  {
    MixColumnInverse(s.c0);
    MixColumnInverse(s.c1);
    MixColumnInverse(s.c2);
    MixColumnInverse(s.c3);
  }

  /** The keyless half of a round and its inverse. */
  lemma SubShiftInverse(s: State)
    ensures InvSubBytes(InvShiftRows(ShiftRows(SubBytes(s)))) == s
    ensures ShiftRows(SubBytes(InvSubBytes(InvShiftRows(s)))) == s
  {
    ShiftRowsInverse(SubBytes(s));
    SubBytesInverse(s);
    SubBytesInverse(InvShiftRows(s));
    ShiftRowsInverse(s);
  }

  /** The keyed half of a round and its inverse. */
  lemma MixKeyInverse(s: State, k: State)
    ensures InvMixColumns(AddRoundKey(AddRoundKey(MixColumns(s), k), k)) == s
    ensures AddRoundKey(MixColumns(InvMixColumns(AddRoundKey(s, k))), k) == s
  {
    AddRoundKeyTwice(MixColumns(s), k);
    MixColumnsInverse(s);
    MixColumnsInverse(AddRoundKey(s, k));
    AddRoundKeyTwice(s, k);
  }

  /** The inverse rounds meet the forward rounds at every round number. */
  lemma {:induction false} InverseRoundsRetrace(s: State, w: Schedule, n: nat)
    requires n <= 9
    ensures InvCipherRounds(ShiftRows(SubBytes(CipherRounds(s, w, 9))), w, n)
            == ShiftRows(SubBytes(CipherRounds(s, w, n)))
    decreases 9 - n
  {
    if n < 9 {
      InverseRoundsRetrace(s, w, n + 1);
      SubShiftInverse(CipherRounds(s, w, n + 1));
      MixKeyInverse(ShiftRows(SubBytes(CipherRounds(s, w, n))), w[n + 1]);
    }
  }

  lemma RoundRetracesInverseRound(u: State, v: State, k: State)
    requires u == InvMixColumns(AddRoundKey(InvSubBytes(InvShiftRows(v)), k))
    ensures AddRoundKey(MixColumns(ShiftRows(SubBytes(InvSubBytes(InvShiftRows(u))))), k)
            == InvSubBytes(InvShiftRows(v))
  {
    SubShiftInverse(u);
    MixKeyInverse(InvSubBytes(InvShiftRows(v)), k);
  }

  /** The forward rounds meet the inverse rounds at every round number. */
  lemma {:induction false} RoundsRetraceInverse(p: State, s: State, w: Schedule, n: nat)
    requires n <= 9
    requires p == InvSubBytes(InvShiftRows(InvCipherRounds(s, w, 0)))
    ensures CipherRounds(p, w, n) == InvSubBytes(InvShiftRows(InvCipherRounds(s, w, n)))
  {
    hide MixColumns, InvMixColumns, AddRoundKey, SubBytes, ShiftRows, InvSubBytes, InvShiftRows;
    if 0 < n {
      RoundsRetraceInverse(p, s, w, n - 1);
      RoundRetracesInverseRound(InvCipherRounds(s, w, n - 1), InvCipherRounds(s, w, n), w[n]);
    }
  }

  lemma DecipherUndoesCipher(s: State, w: Schedule)
    ensures InvCipher(Cipher(s, w), w) == s
  {
    var s0 := AddRoundKey(s, w[0]);
    AddRoundKeyTwice(ShiftRows(SubBytes(CipherRounds(s0, w, 9))), w[10]);
    InverseRoundsRetrace(s0, w, 0);
    SubShiftInverse(s0);
    AddRoundKeyTwice(s, w[0]);
  }

  lemma CipherUndoesDecipher(s: State, w: Schedule)
    ensures Cipher(InvCipher(s, w), w) == s
  {
    var s10 := AddRoundKey(s, w[10]);
    AddRoundKeyTwice(InvSubBytes(InvShiftRows(InvCipherRounds(s10, w, 0))), w[0]);
    RoundsRetraceInverse(InvSubBytes(InvShiftRows(InvCipherRounds(s10, w, 0))), s10, w, 9);
    SubShiftInverse(s10);
    AddRoundKeyTwice(s, w[10]);
  }

  // ----- The key schedule is reversible -----

  /** A word of the expanded key is given by the four words after it. */
  lemma PreviousWordDetermined(k1: State, k2: State, n: nat)
    requires ExpandedWord(k1, n + 3) == ExpandedWord(k2, n + 3)
    requires ExpandedWord(k1, n + 4) == ExpandedWord(k2, n + 4)
    ensures ExpandedWord(k1, n) == ExpandedWord(k2, n)
  {
    hide AddWord, Increment;
    var increment := Increment(n + 4, ExpandedWord(k1, n + 3));
    AddWordTwice(ExpandedWord(k1, n), increment);
    AddWordTwice(ExpandedWord(k2, n), increment);
  }

  /** Any one round key determines the key, the last one included. */
  lemma {:induction false} RoundKeyDeterminesKey(k1: State, k2: State, r: nat)
    requires RoundKey(k1, r) == RoundKey(k2, r)
    ensures k1 == k2
  {
    hide AddWord, Increment;
    if r == 0 {
      assert RoundKey(k1, 0) == k1 && RoundKey(k2, 0) == k2;
    } else {
      PreviousWordDetermined(k1, k2, 4 * r - 1);
      PreviousWordDetermined(k1, k2, 4 * r - 2);
      PreviousWordDetermined(k1, k2, 4 * r - 3);
      PreviousWordDetermined(k1, k2, 4 * r - 4);
      RoundKeyDeterminesKey(k1, k2, r - 1);
    }
  }
}
