/** The cipher of FIPS 197 for a 128-bit key, as a reference definition.

    A state is the array of section 3.4, column by column.  All that is shared with the implementation is the
    pair of substitution tables, and lemma `SboxIsAffineInverse` proves that they are the ones section 5.1.1
    derives.
 */
module Fips197 {
  import opened AesTables

  // ----- The field of section 4.2 -----

  /** A byte.  The arithmetic below reads it as an element of GF(2^8). */
  datatype Byte = Byte(bits: bv8)

  function Plus(a: Byte, b: Byte): Byte {
    Byte(a.bits ^ b.bits)
  }

  function Sum3(a: Byte, b: Byte, c: Byte): Byte {
    Byte(a.bits ^ b.bits ^ c.bits)
  }

  function Sum4(a: Byte, b: Byte, c: Byte, d: Byte): Byte {
    Byte(a.bits ^ b.bits ^ c.bits ^ d.bits)
  }

  /** Multiplication by x modulo x^8 + x^4 + x^3 + x + 1. */
  function XTime(b: Byte): Byte {
    Byte((b.bits << 1) ^ ((0 - (b.bits >> 7)) & 0x1b))
  }

  /** The product: the sum of `b * x^k` over the bits `k` that are set in `a`. */
  function Times(a: bv8, b: Byte): Byte {
    if a >> 4 == 0 then TimesLow(a, b)
    else Plus(TimesLow(a, b), TimesLow(a >> 4, XTime(XTime(XTime(XTime(b))))))
  }

  /** The part of the product that the low four bits of `a` contribute. */
  function TimesLow(a: bv8, b: Byte): Byte {
    var b1 := XTime(b);
    var b2 := XTime(b1);
    var b3 := XTime(b2);
    Byte(((0 - (a & 1)) & b.bits) ^ ((0 - ((a >> 1) & 1)) & b1.bits)
       ^ ((0 - ((a >> 2) & 1)) & b2.bits) ^ ((0 - ((a >> 3) & 1)) & b3.bits))
  }

  lemma XTimeLinear(a: Byte, b: Byte)
    ensures XTime(Plus(a, b)) == Plus(XTime(a), XTime(b))
  {
  }

  // The constant products of MixColumns and its inverse, in terms of doubling.

  lemma Times2And3(b: Byte)
    ensures Times(2, b) == XTime(b) && Times(3, b) == Plus(XTime(b), b)
  {
  }

  lemma Times9(b: Byte)
    ensures Times(0x9, b) == Plus(XTime(XTime(XTime(b))), b)
  {
  }

  lemma TimesB(b: Byte)
    ensures Times(0xb, b) == Sum3(XTime(XTime(XTime(b))), XTime(b), b)
  {
    assert TimesLow(0xb, b).bits ^ Sum3(XTime(XTime(XTime(b))), XTime(b), b).bits == 0;
  }

  lemma TimesD(b: Byte)
    ensures Times(0xd, b) == Sum3(XTime(XTime(XTime(b))), XTime(XTime(b)), b)
  {
  }

  lemma TimesE(b: Byte)
    ensures Times(0xe, b) == Sum3(XTime(XTime(XTime(b))), XTime(XTime(b)), XTime(b))
  {
    assert TimesLow(0xe, b).bits ^ Sum3(XTime(XTime(XTime(b))), XTime(XTime(b)), XTime(b)).bits == 0;
  }

  // ----- The substitution of section 5.1.1 -----

  /** The affine map of equation 5.2. */
  function Affine(b: bv8): bv8 {
    b ^ ((b << 4) | (b >> 4)) ^ ((b << 3) | (b >> 5)) ^ ((b << 2) | (b >> 6)) ^ ((b << 1) | (b >> 7)) ^ 0x63
  }

  function AffineInverse(s: bv8): bv8 {
    ((s << 1) | (s >> 7)) ^ ((s << 3) | (s >> 5)) ^ ((s << 6) | (s >> 2)) ^ 0x05
  }

  /** `y` is the inverse of `x` in the field, with 0 mapped to 0. */
  predicate IsInverse(y: bv8, x: bv8) {
    if x == 0 then y == 0 else Times(y, Byte(x)) == Byte(1)
  }

  /** The forward table is the affine image of the field inverse, for every byte. */
  lemma SboxIsAffineInverse(x: bv8) returns (y: bv8)
    ensures IsInverse(y, x) && Sbox(x) == Affine(y)
  {
    y := AffineInverse(Sbox(x));
    assert Affine(y) == Sbox(x);
    if x & 0xc0 == 0 {
      SboxQuarter(x, 0);
    } else if x & 0xc0 == 0x40 {
      SboxQuarter(x, 0x40);
    } else if x & 0xc0 == 0x80 {
      SboxQuarter(x, 0x80);
    } else {
      SboxQuarter(x, 0xc0);
    }
  }

  lemma SboxQuarter(x: bv8, top: bv8)
    requires x & 0xc0 == top
    ensures IsInverse(AffineInverse(Sbox(x)), x)
  {
  }

  /** The two tables are inverse permutations of the bytes. */
  lemma RsboxUndoesSbox(x: bv8)
    ensures Rsbox(Sbox(x)) == x
  {
  }

  lemma SboxUndoesRsbox(x: bv8)
    ensures Sbox(Rsbox(x)) == x
  {
  }

  function SubByte(b: Byte): Byte {
    Byte(Sbox(b.bits))
  }

  function InvSubByte(b: Byte): Byte {
    Byte(Rsbox(b.bits))
  }

  lemma SubByteInverse(b: Byte)
    ensures InvSubByte(SubByte(b)) == b && SubByte(InvSubByte(b)) == b
  {
    RsboxUndoesSbox(b.bits);
    SboxUndoesRsbox(b.bits);
  }

  // ----- The column transformations of sections 5.1.3 and 5.3.3 -----

  datatype Column = Column(b0: Byte, b1: Byte, b2: Byte, b3: Byte)

  /** Both matrices are circulant: each row is the one above it, turned by one place. */
  function MixColumn(c: Column): Column {
    Column(MixedByte(c.b0, c.b1, c.b2, c.b3), MixedByte(c.b1, c.b2, c.b3, c.b0),
           MixedByte(c.b2, c.b3, c.b0, c.b1), MixedByte(c.b3, c.b0, c.b1, c.b2))
  }

  function MixedByte(a: Byte, b: Byte, c: Byte, d: Byte): Byte {
    Sum4(Times(2, a), Times(3, b), c, d)
  }

  function InvMixColumn(c: Column): Column {
    Column(InvMixedByte(c.b0, c.b1, c.b2, c.b3), InvMixedByte(c.b1, c.b2, c.b3, c.b0),
           InvMixedByte(c.b2, c.b3, c.b0, c.b1), InvMixedByte(c.b3, c.b0, c.b1, c.b2))
  }

  function InvMixedByte(a: Byte, b: Byte, c: Byte, d: Byte): Byte {
    Sum4(Times(0xe, a), Times(0xb, b), Times(0xd, c), Times(0x9, d))
  }

  // ----- The state transformations of sections 5.1 and 5.3 -----

  datatype State = State(c0: Column, c1: Column, c2: Column, c3: Column)

  /** One round key after another. */
  type Schedule = w: seq<State> | |w| == 11 witness seq(11, _ => ZERO)

  const ZERO_COLUMN: Column := Column(Byte(0), Byte(0), Byte(0), Byte(0))
  const ZERO: State := State(ZERO_COLUMN, ZERO_COLUMN, ZERO_COLUMN, ZERO_COLUMN)

  function AddWord(a: Column, b: Column): Column {
    Column(Plus(a.b0, b.b0), Plus(a.b1, b.b1), Plus(a.b2, b.b2), Plus(a.b3, b.b3))
  }

  function SubWord(a: Column): Column {
    Column(SubByte(a.b0), SubByte(a.b1), SubByte(a.b2), SubByte(a.b3))
  }

  function InvSubWord(a: Column): Column {
    Column(InvSubByte(a.b0), InvSubByte(a.b1), InvSubByte(a.b2), InvSubByte(a.b3))
  }

  function AddRoundKey(s: State, k: State): State {
    State(AddWord(s.c0, k.c0), AddWord(s.c1, k.c1), AddWord(s.c2, k.c2), AddWord(s.c3, k.c3))
  }

  function SubBytes(s: State): State {
    State(SubWord(s.c0), SubWord(s.c1), SubWord(s.c2), SubWord(s.c3))
  }

  function InvSubBytes(s: State): State {
    State(InvSubWord(s.c0), InvSubWord(s.c1), InvSubWord(s.c2), InvSubWord(s.c3))
  }

  /** Row `r` is turned left by `r` places: the byte in column `c` comes from column `c + r` modulo 4. */
  function ShiftRows(s: State): State {
    State(Column(s.c0.b0, s.c1.b1, s.c2.b2, s.c3.b3), Column(s.c1.b0, s.c2.b1, s.c3.b2, s.c0.b3),
          Column(s.c2.b0, s.c3.b1, s.c0.b2, s.c1.b3), Column(s.c3.b0, s.c0.b1, s.c1.b2, s.c2.b3))
  }

  /** Row `r` is turned right by `r` places. */
  function InvShiftRows(s: State): State {
    State(Column(s.c0.b0, s.c3.b1, s.c2.b2, s.c1.b3), Column(s.c1.b0, s.c0.b1, s.c3.b2, s.c2.b3),
          Column(s.c2.b0, s.c1.b1, s.c0.b2, s.c3.b3), Column(s.c3.b0, s.c2.b1, s.c1.b2, s.c0.b3))
  }

  function MixColumns(s: State): State {
    State(MixColumn(s.c0), MixColumn(s.c1), MixColumn(s.c2), MixColumn(s.c3))
  }

  function InvMixColumns(s: State): State {
    State(InvMixColumn(s.c0), InvMixColumn(s.c1), InvMixColumn(s.c2), InvMixColumn(s.c3))
  }

  // ----- The cipher and its inverse -----

  /** The state after the first `n` full rounds, starting from `s`. */
  function CipherRounds(s: State, w: Schedule, n: nat): State
    requires n <= 9
  {
    if n == 0 then s
    else AddRoundKey(MixColumns(ShiftRows(SubBytes(CipherRounds(s, w, n - 1)))), w[n])
  }

  function Cipher(s: State, w: Schedule): State {
    var t := CipherRounds(AddRoundKey(s, w[0]), w, 9);
    AddRoundKey(ShiftRows(SubBytes(t)), w[10])
  }

  /** The state after the inverse rounds numbered 9 down to `n + 1`, starting from `s`. */
  function InvCipherRounds(s: State, w: Schedule, n: nat): State
    requires n <= 9
    decreases 9 - n
  {
    if n == 9 then s
    else InvMixColumns(AddRoundKey(InvSubBytes(InvShiftRows(InvCipherRounds(s, w, n + 1))), w[n + 1]))
  }

  function InvCipher(s: State, w: Schedule): State {
    var t := InvCipherRounds(AddRoundKey(s, w[10]), w, 0);
    AddRoundKey(InvSubBytes(InvShiftRows(t)), w[0])
  }

  // ----- Key expansion, section 5.2 -----

  function RotWord(a: Column): Column {
    Column(a.b1, a.b2, a.b3, a.b0)
  }

  /** x to the power `i - 1`. */
  function RoundConstant(i: nat): Byte
    requires 1 <= i
  {
    if i == 1 then Byte(1) else XTime(RoundConstant(i - 1))
  }

  /** What is added to the word four places back to get word `i`; `previous` is the word just before it. */
  function Increment(i: nat, previous: Column): Column
    requires 4 <= i
  {
    if i % 4 == 0 then AddWord(SubWord(RotWord(previous)), Column(RoundConstant(i / 4), Byte(0), Byte(0), Byte(0)))
    else previous
  }

  /** Word `i` of the expanded key. */
  function ExpandedWord(key: State, i: nat): Column {
    if i == 0 then key.c0
    else if i == 1 then key.c1
    else if i == 2 then key.c2
    else if i == 3 then key.c3
    else AddWord(ExpandedWord(key, i - 4), Increment(i, ExpandedWord(key, i - 1)))
  }

  /** Round key `r`: the words from `4 * r` to `4 * r + 3`. */
  function RoundKey(key: State, r: nat): State {
    State(ExpandedWord(key, 4 * r), ExpandedWord(key, 4 * r + 1),
          ExpandedWord(key, 4 * r + 2), ExpandedWord(key, 4 * r + 3))
  }

  function KeyExpansion(key: State): Schedule {
    seq(11, r requires 0 <= r < 11 => RoundKey(key, r))
  }
}
