/** The AES-128 implementation: in place, with AddRoundKey, SubBytes and ShiftRows fused into one pass.

    The statements that the implementation writes out once per column or once per call site are methods here.
 */
module TiAes {
  import opened AesTables
  import opened Fips197
  import opened FastMix
  import opened CipherInverse

  /** Multiplication by 2 in the field. */
  function GaloisMul2(value: Byte): (r: Byte)
    ensures r == XTime(value)
  {
    if value.bits >> 7 != 0 then Byte((value.bits << 1) ^ 0x1b) else Byte(value.bits << 1)
  }

  /** The four bytes of `a` from index `at` on. */
  function ColumnAt(a: array<Byte>, at: nat): Column
    requires at + 4 <= a.Length
    reads a
  {
    Column(a[at], a[at + 1], a[at + 2], a[at + 3])
  }

  /** The sixteen bytes of `a` from index `at` on. */
  function StateAt(a: array<Byte>, at: nat): State
    requires at + 16 <= a.Length
    reads a
  {
    State(ColumnAt(a, at), ColumnAt(a, at + 4), ColumnAt(a, at + 8), ColumnAt(a, at + 12))
  }

  // ----- AddRoundKey, SubBytes and ShiftRows in one pass -----

  /** AddRoundKey and SubBytes on one byte. */
  function KeySub(b: Byte, k: Byte): Byte {
    SubByte(Plus(b, k))
  }

  method KeySubRow0(state: array<Byte>, expandedKey: array<Byte>, at: nat)
    requires state.Length == 16 && expandedKey.Length == 176 && at + 16 <= 176
    modifies state
    ensures state[0] == KeySub(old(state[0]), expandedKey[at])
    ensures state[4] == KeySub(old(state[4]), expandedKey[at + 4])
    ensures state[8] == KeySub(old(state[8]), expandedKey[at + 8])
    ensures state[12] == KeySub(old(state[12]), expandedKey[at + 12])
    ensures forall i | 0 <= i < 16 && i % 4 != 0 :: state[i] == old(state[i])
  {
    hide SubByte, Plus;
    state[0] := SubByte(Plus(state[0], expandedKey[at]));
    state[4] := SubByte(Plus(state[4], expandedKey[at + 4]));
    state[8] := SubByte(Plus(state[8], expandedKey[at + 8]));
    state[12] := SubByte(Plus(state[12], expandedKey[at + 12]));
  }

  method KeySubRow1(state: array<Byte>, expandedKey: array<Byte>, at: nat)
    requires state.Length == 16 && expandedKey.Length == 176 && at + 16 <= 176
    modifies state
    ensures state[1] == KeySub(old(state[5]), expandedKey[at + 5])
    ensures state[5] == KeySub(old(state[9]), expandedKey[at + 9])
    ensures state[9] == KeySub(old(state[13]), expandedKey[at + 13])
    ensures state[13] == KeySub(old(state[1]), expandedKey[at + 1])
    ensures forall i | 0 <= i < 16 && i % 4 != 1 :: state[i] == old(state[i])
  {
    hide SubByte, Plus;
    var buf1 := Plus(state[1], expandedKey[at + 1]);
    state[1] := SubByte(Plus(state[5], expandedKey[at + 5]));
    state[5] := SubByte(Plus(state[9], expandedKey[at + 9]));
    state[9] := SubByte(Plus(state[13], expandedKey[at + 13]));
    state[13] := SubByte(buf1);
  }

  method KeySubRow2(state: array<Byte>, expandedKey: array<Byte>, at: nat)
    requires state.Length == 16 && expandedKey.Length == 176 && at + 16 <= 176
    modifies state
    ensures state[2] == KeySub(old(state[10]), expandedKey[at + 10])
    ensures state[6] == KeySub(old(state[14]), expandedKey[at + 14])
    ensures state[10] == KeySub(old(state[2]), expandedKey[at + 2])
    ensures state[14] == KeySub(old(state[6]), expandedKey[at + 6])
    ensures forall i | 0 <= i < 16 && i % 4 != 2 :: state[i] == old(state[i])
  {
    hide SubByte, Plus;
    var buf1 := Plus(state[2], expandedKey[at + 2]);
    var buf2 := Plus(state[6], expandedKey[at + 6]);
    state[2] := SubByte(Plus(state[10], expandedKey[at + 10]));
    state[6] := SubByte(Plus(state[14], expandedKey[at + 14]));
    state[10] := SubByte(buf1);
    state[14] := SubByte(buf2);
  }

  method KeySubRow3(state: array<Byte>, expandedKey: array<Byte>, at: nat)
    requires state.Length == 16 && expandedKey.Length == 176 && at + 16 <= 176
    modifies state
    ensures state[3] == KeySub(old(state[15]), expandedKey[at + 15])
    ensures state[7] == KeySub(old(state[3]), expandedKey[at + 3])
    ensures state[11] == KeySub(old(state[7]), expandedKey[at + 7])
    ensures state[15] == KeySub(old(state[11]), expandedKey[at + 11])
    ensures forall i | 0 <= i < 16 && i % 4 != 3 :: state[i] == old(state[i])
  {
    hide SubByte, Plus;
    var buf1 := Plus(state[15], expandedKey[at + 15]);
    state[15] := SubByte(Plus(state[11], expandedKey[at + 11]));
    state[11] := SubByte(Plus(state[7], expandedKey[at + 7]));
    state[7] := SubByte(Plus(state[3], expandedKey[at + 3]));
    state[3] := SubByte(buf1);
  }

  method KeySubShift(state: array<Byte>, expandedKey: array<Byte>, round: nat)
    requires state.Length == 16 && expandedKey.Length == 176 && round <= 9
    modifies state
    ensures StateAt(state, 0)
            == ShiftRows(SubBytes(AddRoundKey(old(StateAt(state, 0)), StateAt(expandedKey, round * 16))))
  {
    hide SubByte, Plus;
    KeySubRow0(state, expandedKey, round * 16);
    KeySubRow1(state, expandedKey, round * 16);
    KeySubRow2(state, expandedKey, round * 16);
    KeySubRow3(state, expandedKey, round * 16);
  }

  // ----- Columns in place -----

  /** MixColumn on the four bytes from index `at` on. */
  method MixColumnInPlace(state: array<Byte>, at: nat)
    requires state.Length == 16 && at + 4 <= 16
    modifies state
    ensures ColumnAt(state, at) == MixColumn(old(ColumnAt(state, at)))
    ensures forall i | 0 <= i < 16 && !(at <= i < at + 4) :: state[i] == old(state[i])
  {
    hide Plus, Sum3, Sum4, XTime, MixColumn;
    FastMixIsMix(ColumnAt(state, at));
    var buf1 := Sum4(state[at], state[at + 1], state[at + 2], state[at + 3]);
    var buf2 := state[at];
    var buf3 := Plus(state[at], state[at + 1]);
    buf3 := GaloisMul2(buf3);
    state[at] := Sum3(state[at], buf3, buf1);
    buf3 := Plus(state[at + 1], state[at + 2]);
    buf3 := GaloisMul2(buf3);
    state[at + 1] := Sum3(state[at + 1], buf3, buf1);
    buf3 := Plus(state[at + 2], state[at + 3]);
    buf3 := GaloisMul2(buf3);
    state[at + 2] := Sum3(state[at + 2], buf3, buf1);
    buf3 := Plus(state[at + 3], buf2);
    buf3 := GaloisMul2(buf3);
    state[at + 3] := Sum3(state[at + 3], buf3, buf1);
  }

  /** The Barreto step on the four bytes from index `at` on. */
  method BarretoInPlace(state: array<Byte>, at: nat)
    requires state.Length == 16 && at + 4 <= 16
    modifies state
    ensures ColumnAt(state, at) == Barreto(old(ColumnAt(state, at)))
    ensures forall i | 0 <= i < 16 && !(at <= i < at + 4) :: state[i] == old(state[i])
  {
    hide Plus, XTime;
    var buf1 := GaloisMul2(GaloisMul2(Plus(state[at], state[at + 2])));
    var buf2 := GaloisMul2(GaloisMul2(Plus(state[at + 1], state[at + 3])));
    state[at] := Plus(state[at], buf1);
    state[at + 1] := Plus(state[at + 1], buf2);
    state[at + 2] := Plus(state[at + 2], buf1);
    state[at + 3] := Plus(state[at + 3], buf2);
  }

  method MixAllColumns(state: array<Byte>)
    requires state.Length == 16
    modifies state
    ensures StateAt(state, 0) == MixColumns(old(StateAt(state, 0)))
  {
    hide MixColumn;
    MixColumnInPlace(state, 0);
    MixColumnInPlace(state, 4);
    MixColumnInPlace(state, 8);
    MixColumnInPlace(state, 12);
  }

  /** The Barreto step on every column: what MixColumns needs before it to undo itself. */
  method BarretoAllColumns(state: array<Byte>)
    requires state.Length == 16
    modifies state
    ensures MixColumns(StateAt(state, 0)) == InvMixColumns(old(StateAt(state, 0)))
  {
    hide MixColumn, InvMixColumn, Barreto;
    ghost var s := StateAt(state, 0);
    InvMixIsBarretoThenMix(s.c0);
    InvMixIsBarretoThenMix(s.c1);
    InvMixIsBarretoThenMix(s.c2);
    InvMixIsBarretoThenMix(s.c3);
    BarretoInPlace(state, 0);
    BarretoInPlace(state, 4);
    BarretoInPlace(state, 8);
    BarretoInPlace(state, 12);
  }

  // ----- InvShiftRows, InvSubBytes and AddRoundKey in one pass -----

  /** InvSubBytes and AddRoundKey on one byte. */
  function UnsubKey(b: Byte, k: Byte): Byte {
    Plus(InvSubByte(b), k)
  }

  method UnsubKeyRow0(state: array<Byte>, expandedKey: array<Byte>, at: nat)
    requires state.Length == 16 && expandedKey.Length == 176 && at + 16 <= 176
    modifies state
    ensures state[0] == UnsubKey(old(state[0]), expandedKey[at])
    ensures state[4] == UnsubKey(old(state[4]), expandedKey[at + 4])
    ensures state[8] == UnsubKey(old(state[8]), expandedKey[at + 8])
    ensures state[12] == UnsubKey(old(state[12]), expandedKey[at + 12])
    ensures forall i | 0 <= i < 16 && i % 4 != 0 :: state[i] == old(state[i])
  {
    hide InvSubByte, Plus;
    state[0] := Plus(InvSubByte(state[0]), expandedKey[at]);
    state[4] := Plus(InvSubByte(state[4]), expandedKey[at + 4]);
    state[8] := Plus(InvSubByte(state[8]), expandedKey[at + 8]);
    state[12] := Plus(InvSubByte(state[12]), expandedKey[at + 12]);
  }

  method UnsubKeyRow1(state: array<Byte>, expandedKey: array<Byte>, at: nat)
    requires state.Length == 16 && expandedKey.Length == 176 && at + 16 <= 176
    modifies state
    ensures state[1] == UnsubKey(old(state[13]), expandedKey[at + 1])
    ensures state[5] == UnsubKey(old(state[1]), expandedKey[at + 5])
    ensures state[9] == UnsubKey(old(state[5]), expandedKey[at + 9])
    ensures state[13] == UnsubKey(old(state[9]), expandedKey[at + 13])
    ensures forall i | 0 <= i < 16 && i % 4 != 1 :: state[i] == old(state[i])
  {
    hide InvSubByte, Plus;
    var buf1 := Plus(InvSubByte(state[13]), expandedKey[at + 1]);
    state[13] := Plus(InvSubByte(state[9]), expandedKey[at + 13]);
    state[9] := Plus(InvSubByte(state[5]), expandedKey[at + 9]);
    state[5] := Plus(InvSubByte(state[1]), expandedKey[at + 5]);
    state[1] := buf1;
  }

  method UnsubKeyRow2(state: array<Byte>, expandedKey: array<Byte>, at: nat)
    requires state.Length == 16 && expandedKey.Length == 176 && at + 16 <= 176
    modifies state
    ensures state[2] == UnsubKey(old(state[10]), expandedKey[at + 2])
    ensures state[6] == UnsubKey(old(state[14]), expandedKey[at + 6])
    ensures state[10] == UnsubKey(old(state[2]), expandedKey[at + 10])
    ensures state[14] == UnsubKey(old(state[6]), expandedKey[at + 14])
    ensures forall i | 0 <= i < 16 && i % 4 != 2 :: state[i] == old(state[i])
  {
    hide InvSubByte, Plus;
    var buf1 := Plus(InvSubByte(state[2]), expandedKey[at + 10]);
    var buf2 := Plus(InvSubByte(state[6]), expandedKey[at + 14]);
    state[2] := Plus(InvSubByte(state[10]), expandedKey[at + 2]);
    state[6] := Plus(InvSubByte(state[14]), expandedKey[at + 6]);
    state[10] := buf1;
    state[14] := buf2;
  }

  method UnsubKeyRow3(state: array<Byte>, expandedKey: array<Byte>, at: nat)
    requires state.Length == 16 && expandedKey.Length == 176 && at + 16 <= 176
    modifies state
    ensures state[3] == UnsubKey(old(state[7]), expandedKey[at + 3])
    ensures state[7] == UnsubKey(old(state[11]), expandedKey[at + 7])
    ensures state[11] == UnsubKey(old(state[15]), expandedKey[at + 11])
    ensures state[15] == UnsubKey(old(state[3]), expandedKey[at + 15])
    ensures forall i | 0 <= i < 16 && i % 4 != 3 :: state[i] == old(state[i])
  {
    hide InvSubByte, Plus;
    var buf1 := Plus(InvSubByte(state[3]), expandedKey[at + 15]);
    state[3] := Plus(InvSubByte(state[7]), expandedKey[at + 3]);
    state[7] := Plus(InvSubByte(state[11]), expandedKey[at + 7]);
    state[11] := Plus(InvSubByte(state[15]), expandedKey[at + 11]);
    state[15] := buf1;
  }

  method UnshiftUnsubKey(state: array<Byte>, expandedKey: array<Byte>, round: nat)
    requires state.Length == 16 && expandedKey.Length == 176 && round <= 9
    modifies state
    ensures StateAt(state, 0)
            == AddRoundKey(InvSubBytes(InvShiftRows(old(StateAt(state, 0)))), StateAt(expandedKey, round * 16))
  {
    hide InvSubByte, Plus;
    UnsubKeyRow0(state, expandedKey, round * 16);
    UnsubKeyRow1(state, expandedKey, round * 16);
    UnsubKeyRow2(state, expandedKey, round * 16);
    UnsubKeyRow3(state, expandedKey, round * 16);
  }

  // ----- The last round key -----

  method AddLastKeyColumn(state: array<Byte>, expandedKey: array<Byte>, at: nat)
    requires state.Length == 16 && expandedKey.Length == 176 && at + 4 <= 16
    modifies state
    ensures ColumnAt(state, at) == AddWord(old(ColumnAt(state, at)), ColumnAt(expandedKey, 160 + at))
    ensures forall i | 0 <= i < 16 && !(at <= i < at + 4) :: state[i] == old(state[i])
  {
    hide Plus;
    state[at] := Plus(state[at], expandedKey[160 + at]);
    state[at + 1] := Plus(state[at + 1], expandedKey[161 + at]);
    state[at + 2] := Plus(state[at + 2], expandedKey[162 + at]);
    state[at + 3] := Plus(state[at + 3], expandedKey[163 + at]);
  }

  method AddLastKey(state: array<Byte>, expandedKey: array<Byte>)
    requires state.Length == 16 && expandedKey.Length == 176
    modifies state
    ensures StateAt(state, 0) == AddRoundKey(old(StateAt(state, 0)), StateAt(expandedKey, 160))
  {
    hide AddWord;
    AddLastKeyColumn(state, expandedKey, 0);
    AddLastKeyColumn(state, expandedKey, 4);
    AddLastKeyColumn(state, expandedKey, 8);
    AddLastKeyColumn(state, expandedKey, 12);
  }

  // ----- Key expansion -----

  /** The expanded key as the schedule of FIPS 197. */
  function KeysOf(expandedKey: array<Byte>): Schedule
    requires expandedKey.Length == 176
    reads expandedKey
  {
    seq(11, r requires 0 <= r < 11 reads expandedKey => StateAt(expandedKey, r * 16))
  }

  /** The table of round constants holds the successive doublings of 1. */
  lemma RconIsRoundConstant(i: nat)
    requires 1 <= i <= 10
    ensures Byte(RCON[i]) == RoundConstant(i)
  {
    assert RoundConstant(2) == Byte(2) && RoundConstant(3) == Byte(4);
    assert RoundConstant(4) == Byte(8) && RoundConstant(5) == Byte(0x10);
    assert RoundConstant(6) == Byte(0x20) && RoundConstant(7) == Byte(0x40);
    assert RoundConstant(8) == Byte(0x80) && RoundConstant(9) == Byte(0x1b);
  }

  lemma PlusZero(a: Byte)
    ensures Plus(a, Byte(0)) == a
  {
  }

  lemma PlusRegroups(a: Byte, b: Byte, c: Byte)
    ensures Plus(Plus(b, a), c) == Plus(a, Plus(b, c))
  {
  }

  /** The first word of a round key. */
  method ExpandFirstWord(expandedKey: array<Byte>, ii: nat)
    requires expandedKey.Length == 176 && 1 <= ii <= 10
    modifies expandedKey
    ensures ColumnAt(expandedKey, ii * 16) == AddWord(old(ColumnAt(expandedKey, ii * 16 - 16)),
                                                      Increment(4 * ii, old(ColumnAt(expandedKey, ii * 16 - 4))))
    ensures forall i | 0 <= i < 176 && !(ii * 16 <= i < ii * 16 + 4) :: expandedKey[i] == old(expandedKey[i])
  {
    hide SubByte, Plus, RoundConstant;
    ghost var p, q := ColumnAt(expandedKey, ii * 16 - 4), ColumnAt(expandedKey, ii * 16 - 16);
    RconIsRoundConstant(ii);
    PlusRegroups(q.b0, SubByte(p.b1), RoundConstant(ii));
    PlusCommutes(q.b1, SubByte(p.b2));
    PlusCommutes(q.b2, SubByte(p.b3));
    PlusCommutes(q.b3, SubByte(p.b0));
    PlusZero(SubByte(p.b2));
    PlusZero(SubByte(p.b3));
    PlusZero(SubByte(p.b0));
    var buf1 := expandedKey[ii * 16 - 4];
    expandedKey[ii * 16] := Plus(Plus(SubByte(expandedKey[ii * 16 - 3]), expandedKey[(ii - 1) * 16]), Byte(RCON[ii]));
    expandedKey[ii * 16 + 1] := Plus(SubByte(expandedKey[ii * 16 - 2]), expandedKey[(ii - 1) * 16 + 1]);
    expandedKey[ii * 16 + 2] := Plus(SubByte(expandedKey[ii * 16 - 1]), expandedKey[(ii - 1) * 16 + 2]);
    expandedKey[ii * 16 + 3] := Plus(SubByte(buf1), expandedKey[(ii - 1) * 16 + 3]);
  }

  /** The word at index `at`, from the word 16 bytes back and the word just before it. */
  method ExpandNextWord(expandedKey: array<Byte>, at: nat)
    requires expandedKey.Length == 176 && 16 <= at && at + 4 <= 176
    modifies expandedKey
    ensures ColumnAt(expandedKey, at)
            == AddWord(old(ColumnAt(expandedKey, at - 16)), old(ColumnAt(expandedKey, at - 4)))
    ensures forall i | 0 <= i < 176 && !(at <= i < at + 4) :: expandedKey[i] == old(expandedKey[i])
  {
    hide Plus;
    expandedKey[at] := Plus(expandedKey[at - 16], expandedKey[at - 4]);
    expandedKey[at + 1] := Plus(expandedKey[at - 15], expandedKey[at - 3]);
    expandedKey[at + 2] := Plus(expandedKey[at - 14], expandedKey[at - 2]);
    expandedKey[at + 3] := Plus(expandedKey[at - 13], expandedKey[at - 1]);
  }

  /** The first `n` words of the expanded key are in place. */
  predicate Expanded(expandedKey: array<Byte>, key: State, n: nat)
    requires expandedKey.Length == 176 && n <= 44
    reads expandedKey
  {
    forall j | 0 <= j < n :: ColumnAt(expandedKey, j * 4) == ExpandedWord(key, j)
  }

  lemma ExpandedIsKeyExpansion(expandedKey: array<Byte>, key: State)
    requires expandedKey.Length == 176 && Expanded(expandedKey, key, 44)
    ensures KeysOf(expandedKey) == KeyExpansion(key)
  {
    hide ExpandedWord;
    forall r | 0 <= r < 11
      ensures StateAt(expandedKey, r * 16) == RoundKey(key, r)
    {
      assert ColumnAt(expandedKey, 4 * r * 4) == ExpandedWord(key, 4 * r);
      assert ColumnAt(expandedKey, (4 * r + 1) * 4) == ExpandedWord(key, 4 * r + 1);
      assert ColumnAt(expandedKey, (4 * r + 2) * 4) == ExpandedWord(key, 4 * r + 2);
      assert ColumnAt(expandedKey, (4 * r + 3) * 4) == ExpandedWord(key, 4 * r + 3);
    }
  }

  /** Byte `j` of round key `r`, from the bytes before it. */
  predicate ScheduleByte(e: seq<Byte>, r: nat, j: nat)
    requires |e| == 176 && 1 <= r <= 10 && j < 16
  {
    var back := e[16 * (r - 1) + j];
    if j == 0 then e[16 * r] == Sum3(back, Byte(Sbox(e[16 * r - 3].bits)), Byte(RCON[r]))
    else if j < 4 then e[16 * r + j] == Plus(back, Byte(Sbox(e[16 * r - 4 + (j + 1) % 4].bits)))
    else e[16 * r + j] == Plus(back, e[16 * r + j - 4])
  }

  lemma FirstWordBytes(q: Column, p: Column, r: nat, word: Column)
    requires 1 <= r <= 10 && word == AddWord(q, Increment(4 * r, p))
    ensures word.b0 == Sum3(q.b0, Byte(Sbox(p.b1.bits)), Byte(RCON[r])) && word.b1 == Plus(q.b1, Byte(Sbox(p.b2.bits)))
    ensures word.b2 == Plus(q.b2, Byte(Sbox(p.b3.bits))) && word.b3 == Plus(q.b3, Byte(Sbox(p.b0.bits)))
  {
    hide Plus, Sum3, RoundConstant, Sbox;
    RconIsRoundConstant(r);
    PlusRegroups3(q.b0, SubByte(p.b1), RoundConstant(r));
    PlusZero(SubByte(p.b2));
    PlusZero(SubByte(p.b3));
    PlusZero(SubByte(p.b0));
  }

  lemma PlusRegroups3(a: Byte, b: Byte, c: Byte)
    ensures Plus(a, Plus(b, c)) == Sum3(a, b, c)
  {
  }

  function WordOf(e: seq<Byte>, at: nat): Column
    requires at + 4 <= |e|
  {
    Column(e[at], e[at + 1], e[at + 2], e[at + 3])
  }

  lemma FirstBytes(e: seq<Byte>, r: nat, j: nat)
    requires |e| == 176 && 1 <= r <= 10 && j < 4
    requires WordOf(e, 16 * r) == AddWord(WordOf(e, 16 * r - 16), Increment(4 * r, WordOf(e, 16 * r - 4)))
    ensures ScheduleByte(e, r, j)
  {
    hide Plus, Sum3, Sbox, AddWord, Increment;
    FirstWordBytes(WordOf(e, 16 * r - 16), WordOf(e, 16 * r - 4), r, WordOf(e, 16 * r));
  }

  lemma LaterBytes(e: seq<Byte>, r: nat, j: nat, at: nat)
    requires |e| == 176 && 1 <= r <= 10 && 4 <= j < 16 && at == 16 * r + j / 4 * 4
    requires WordOf(e, at) == AddWord(WordOf(e, at - 16), WordOf(e, at - 4))
    ensures ScheduleByte(e, r, j)
  {
    hide Plus, AddWord;
    AddWordBytes(WordOf(e, at - 16), WordOf(e, at - 4), j % 4);
  }

  /** The schedule byte by byte. */
  lemma ExpandedBytes(expandedKey: array<Byte>, key: State, r: nat, j: nat)
    requires expandedKey.Length == 176 && Expanded(expandedKey, key, 44) && 1 <= r <= 10 && j < 16
    ensures ScheduleByte(expandedKey[..], r, j)
  {
    hide AddWord, Increment, ExpandedWord, ScheduleByte;
    var n, e := 4 * r + j / 4, expandedKey[..];
    assert WordOf(e, n * 4) == ColumnAt(expandedKey, n * 4) == ExpandedWord(key, n);
    assert WordOf(e, (n - 4) * 4) == ColumnAt(expandedKey, (n - 4) * 4) == ExpandedWord(key, n - 4);
    assert WordOf(e, (n - 1) * 4) == ColumnAt(expandedKey, (n - 1) * 4) == ExpandedWord(key, n - 1);
    WordUnfolds(key, n);
    if j < 4 {
      FirstBytes(e, r, j);
    } else {
      LaterBytes(e, r, j, n * 4);
    }
  }

  lemma AllBytes(expandedKey: array<Byte>, key: State)
    requires expandedKey.Length == 176 && Expanded(expandedKey, key, 44)
    ensures forall r, j | 1 <= r <= 10 && 0 <= j < 16 :: ScheduleByte(expandedKey[..], r, j)
  {
    hide ExpandedWord, ScheduleByte;
    forall r, j | 1 <= r <= 10 && 0 <= j < 16
      ensures ScheduleByte(expandedKey[..], r, j)
    {
      ExpandedBytes(expandedKey, key, r, j);
    }
  }

  lemma WordUnfolds(key: State, n: nat)
    requires 4 <= n
    ensures ExpandedWord(key, n) == AddWord(ExpandedWord(key, n - 4), Increment(n, ExpandedWord(key, n - 1)))
    ensures n % 4 != 0 ==> Increment(n, ExpandedWord(key, n - 1)) == ExpandedWord(key, n - 1)
  {
    hide AddWord;
  }

  function ByteOf(c: Column, k: nat): Byte
    requires k < 4
  {
    if k == 0 then c.b0 else if k == 1 then c.b1 else if k == 2 then c.b2 else c.b3
  }

  lemma AddWordBytes(a: Column, b: Column, k: nat)
    requires k < 4
    ensures ByteOf(AddWord(a, b), k) == Plus(ByteOf(a, k), ByteOf(b, k))
  {
    hide Plus;
  }

  /** The whole expanded key from a 16-byte key. */
  method ExpandKey(expandedKey: array<Byte>, key: array<Byte>)
    requires expandedKey.Length == 176 && key.Length == 16
    modifies expandedKey
    ensures KeysOf(expandedKey) == KeyExpansion(old(StateAt(key, 0)))
    ensures expandedKey[..16] == old(key[..])
    ensures forall r, j | 1 <= r <= 10 && 0 <= j < 16 :: ScheduleByte(expandedKey[..], r, j)
  {
    hide AddWord, Increment, KeysOf, KeyExpansion, ScheduleByte;
    ghost var k, bytes := StateAt(key, 0), key[..];
    for ii := 0 to 16
      invariant forall i | 0 <= i < ii :: expandedKey[i] == key[i]
    {
      expandedKey[ii] := key[ii];
    }
    assert expandedKey[..16] == bytes;
    for ii := 1 to 11
      invariant Expanded(expandedKey, k, 4 * ii)
      invariant expandedKey[..16] == bytes
    {
      ExpandRound(expandedKey, k, ii);
    }
    ExpandedIsKeyExpansion(expandedKey, k);
    AllBytes(expandedKey, k);
  }

  method ExpandRound(expandedKey: array<Byte>, ghost key: State, ii: nat)
    requires expandedKey.Length == 176 && 1 <= ii <= 10
    requires Expanded(expandedKey, key, 4 * ii)
    modifies expandedKey
    ensures Expanded(expandedKey, key, 4 * ii + 4) && expandedKey[..16] == old(expandedKey[..16])
  {
    hide AddWord, Increment;
    assert ColumnAt(expandedKey, ii * 16 - 16) == ExpandedWord(key, 4 * ii - 4);
    assert ColumnAt(expandedKey, ii * 16 - 4) == ExpandedWord(key, 4 * ii - 1);
    ExpandFirstWord(expandedKey, ii);
    assert Expanded(expandedKey, key, 4 * ii + 1);
    ExpandWord(expandedKey, key, 4 * ii + 1);
    ExpandWord(expandedKey, key, 4 * ii + 2);
    ExpandWord(expandedKey, key, 4 * ii + 3);
  }

  method ExpandWord(expandedKey: array<Byte>, ghost key: State, n: nat)
    requires expandedKey.Length == 176 && 4 <= n < 44 && n % 4 != 0
    requires Expanded(expandedKey, key, n)
    modifies expandedKey
    ensures Expanded(expandedKey, key, n + 1) && expandedKey[..16] == old(expandedKey[..16])
  {
    hide AddWord;
    assert ColumnAt(expandedKey, n * 4 - 16) == ExpandedWord(key, n - 4);
    assert ColumnAt(expandedKey, n * 4 - 4) == ExpandedWord(key, n - 1);
    ExpandNextWord(expandedKey, n * 4);
  }

  // ----- The cipher -----

  /** Encrypts the block in place.  Each pass of the loop ends before the AddRoundKey that closes its round. */
  method AesEncr(state: array<Byte>, expandedKey: array<Byte>)
    requires state.Length == 16 && expandedKey.Length == 176
    modifies state
    ensures StateAt(state, 0) == Cipher(old(StateAt(state, 0)), KeysOf(expandedKey))
  {
    ghost var w, s0 := KeysOf(expandedKey), AddRoundKey(StateAt(state, 0), StateAt(expandedKey, 0));
    hide ShiftRows, SubBytes, MixColumns, AddRoundKey;
    for round := 0 to 9
      invariant AddRoundKey(StateAt(state, 0), w[round]) == CipherRounds(s0, w, round)
    {
      assert w[round] == StateAt(expandedKey, round * 16);
      KeySubShift(state, expandedKey, round);
      MixAllColumns(state);
    }
    assert w[9] == StateAt(expandedKey, 144) && w[10] == StateAt(expandedKey, 160);
    KeySubShift(state, expandedKey, 9);
    AddLastKey(state, expandedKey);
  }

  method DecryptRound(state: array<Byte>, expandedKey: array<Byte>, round: nat)
    requires state.Length == 16 && expandedKey.Length == 176 && round <= 8
    modifies state
    ensures StateAt(state, 0) == AddRoundKey(InvSubBytes(InvShiftRows(InvMixColumns(old(StateAt(state, 0))))),
                                             StateAt(expandedKey, round * 16))
  {
    hide InvShiftRows, InvSubBytes, InvMixColumns, MixColumns, AddRoundKey;
    BarretoAllColumns(state);
    MixAllColumns(state);
    UnshiftUnsubKey(state, expandedKey, round);
  }

  /** The state after the inverse rounds down to `n`, the last of them cut off before its InvMixColumns. */
  ghost function Unmixed(s: State, w: Schedule, n: nat): State
    requires n <= 9
  {
    AddRoundKey(InvSubBytes(InvShiftRows(InvCipherRounds(s, w, n))), w[n])
  }

  lemma UnmixedStep(s: State, w: Schedule, n: nat)
    requires n < 9
    ensures Unmixed(s, w, n) == AddRoundKey(InvSubBytes(InvShiftRows(InvMixColumns(Unmixed(s, w, n + 1)))), w[n])
  {
    hide InvMixColumns, AddRoundKey, InvSubBytes, InvShiftRows;
  }

  lemma UnmixedEnds(s: State, w: Schedule)
    ensures InvCipher(s, w) == Unmixed(AddRoundKey(s, w[10]), w, 0)
    ensures Unmixed(AddRoundKey(s, w[10]), w, 9) == AddRoundKey(InvSubBytes(InvShiftRows(AddRoundKey(s, w[10]))), w[9])
  {
    hide AddRoundKey, InvSubBytes, InvShiftRows;
  }

  /** Decrypts the block in place. */
  method AesDecr(state: array<Byte>, expandedKey: array<Byte>)
    requires state.Length == 16 && expandedKey.Length == 176
    modifies state
    ensures StateAt(state, 0) == InvCipher(old(StateAt(state, 0)), KeysOf(expandedKey))
  {
    hide InvCipher, Unmixed, AddRoundKey, InvSubBytes, InvShiftRows, InvMixColumns;
    ghost var s, w := StateAt(state, 0), KeysOf(expandedKey);
    ghost var s10 := AddRoundKey(s, w[10]);
    UnmixedEnds(s, w);
    assert w[10] == StateAt(expandedKey, 160) && w[9] == StateAt(expandedKey, 144);
    AddLastKey(state, expandedKey);
    UnshiftUnsubKey(state, expandedKey, 9);
    var round := 8;
    while 0 <= round
      invariant -1 <= round <= 8
      invariant StateAt(state, 0) == Unmixed(s10, w, round + 1)
    {
      assert w[round] == StateAt(expandedKey, round * 16);
      UnmixedStep(s10, w, round);
      DecryptRound(state, expandedKey, round);
      round := round - 1;
    }
  }

  method AesEncrypt(state: array<Byte>, key: array<Byte>)
    requires state.Length == 16 && key.Length == 16
    modifies state
    ensures StateAt(state, 0) == Cipher(old(StateAt(state, 0)), KeyExpansion(old(StateAt(key, 0))))
  {
    hide Cipher, KeyExpansion;
    var expandedKey := new Byte[176];
    ExpandKey(expandedKey, key);
    AesEncr(state, expandedKey);
  }

  method AesDecrypt(state: array<Byte>, key: array<Byte>)
    requires state.Length == 16 && key.Length == 16
    modifies state
    ensures StateAt(state, 0) == InvCipher(old(StateAt(state, 0)), KeyExpansion(old(StateAt(key, 0))))
  {
    hide InvCipher, KeyExpansion;
    var expandedKey := new Byte[176];
    ExpandKey(expandedKey, key);
    AesDecr(state, expandedKey);
  }

  // ----- Round trips -----

  /** Decryption under the same key restores every block. */
  method EncryptThenDecrypt(state: array<Byte>, key: array<Byte>)
    requires state.Length == 16 && key.Length == 16 && state != key
    modifies state
    ensures StateAt(state, 0) == old(StateAt(state, 0))
  {
    hide Cipher, InvCipher, KeyExpansion;
    ghost var s, k := StateAt(state, 0), StateAt(key, 0);
    AesEncrypt(state, key);
    AesDecrypt(state, key);
    DecipherUndoesCipher(s, KeyExpansion(k));
  }

  /** Encryption under the same key restores every block. */
  method DecryptThenEncrypt(state: array<Byte>, key: array<Byte>)
    requires state.Length == 16 && key.Length == 16 && state != key
    modifies state
    ensures StateAt(state, 0) == old(StateAt(state, 0))
  {
    hide Cipher, InvCipher, KeyExpansion;
    ghost var s, k := StateAt(state, 0), StateAt(key, 0);
    AesDecrypt(state, key);
    AesEncrypt(state, key);
    CipherUndoesDecipher(s, KeyExpansion(k));
  }
}
