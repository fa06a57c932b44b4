/** The short forms of the column transformations that the implementation uses, proved equal to the matrices
    of FIPS 197, and with their help the proof that the two matrices are inverse to each other.

    Two facts carry the proof: mixing a column twice is the "Barreto" step, and that step undoes itself.
 */
module FastMix {
  import opened Fips197

  /** A byte of a mixed column from the byte `a`, its successor `b` and the sum `s` of the column. */
  function FastMixedByte(a: Byte, b: Byte, s: Byte): Byte {
    Sum3(a, XTime(Plus(a, b)), s)
  }

  function Sum(c: Column): Byte {
    Sum4(c.b0, c.b1, c.b2, c.b3)
  }

  function FastMixColumn(c: Column): Column {
    var s := Sum(c);
    Column(FastMixedByte(c.b0, c.b1, s), FastMixedByte(c.b1, c.b2, s),
           FastMixedByte(c.b2, c.b3, s), FastMixedByte(c.b3, c.b0, s))
  }

  /** The column with `4 * (b0 + b2)` added to its even bytes and `4 * (b1 + b3)` to its odd ones. */
  function Barreto(c: Column): Column {
    var even := XTime(XTime(Plus(c.b0, c.b2)));
    var odd := XTime(XTime(Plus(c.b1, c.b3)));
    Column(Plus(c.b0, even), Plus(c.b1, odd), Plus(c.b2, even), Plus(c.b3, odd))
  }

  // ----- Sums -----

  lemma PlusCommutes(a: Byte, b: Byte)
    ensures Plus(a, b) == Plus(b, a)
  {
  }

  lemma PlusChain(a: Byte, b: Byte, c: Byte)
    ensures Plus(Plus(a, b), Plus(b, c)) == Plus(a, c)
  {
  }

  lemma SumRotates(a: Byte, b: Byte, c: Byte, d: Byte)
    ensures Sum4(b, c, d, a) == Sum4(a, b, c, d)
  {
  }

  lemma MixSum(a: Byte, b: Byte, c: Byte, d: Byte, ta: Byte, tb: Byte)
    ensures Sum4(ta, Plus(tb, b), c, d) == Sum3(a, Plus(ta, tb), Sum4(a, b, c, d))
  {
  }

  lemma PlusOfSum3(a: Byte, b: Byte, t: Byte, u: Byte, s: Byte)
    ensures Plus(Sum3(a, t, s), Sum3(b, u, s)) == Plus(Plus(a, b), Plus(t, u))
  {
  }

  lemma Sum3Cancels(a: Byte, t: Byte, u: Byte, s: Byte)
    ensures Sum3(Sum3(a, t, s), Plus(t, u), s) == Plus(a, u)
  {
  }

  lemma Sum4AsPairs(a: Byte, b: Byte, c: Byte, d: Byte)
    ensures Sum4(a, b, c, d) == Plus(Plus(a, b), Plus(c, d))
  {
  }

  lemma Sum4AsOtherPairs(a: Byte, b: Byte, c: Byte, d: Byte)
    ensures Sum4(a, b, c, d) == Plus(Plus(a, c), Plus(b, d))
  {
  }

  lemma PlusPairsCancel(a: Byte, b: Byte, u: Byte)
    ensures Plus(Plus(a, u), Plus(b, u)) == Plus(a, b)
  {
  }

  // ----- The short form of MixColumn -----

  lemma MixedByteIsFast(a: Byte, b: Byte, c: Byte, d: Byte)
    ensures MixedByte(a, b, c, d) == FastMixedByte(a, b, Sum4(a, b, c, d))
  {
    Times2And3(a);
    Times2And3(b);
    XTimeLinear(a, b);
    MixSum(a, b, c, d, XTime(a), XTime(b));
  }

  lemma FastMixIsMix(c: Column)
    ensures FastMixColumn(c) == MixColumn(c)
  {
    MixedByteIsFast(c.b0, c.b1, c.b2, c.b3);
    MixedByteIsFast(c.b1, c.b2, c.b3, c.b0);
    MixedByteIsFast(c.b2, c.b3, c.b0, c.b1);
    MixedByteIsFast(c.b3, c.b0, c.b1, c.b2);
    SumRotates(c.b0, c.b1, c.b2, c.b3);
    SumRotates(c.b1, c.b2, c.b3, c.b0);
    SumRotates(c.b2, c.b3, c.b0, c.b1);
  }

  // ----- Mixing twice -----

  /** The sum of two neighbouring bytes of a mixed column. */
  lemma MixedNeighbours(a: Byte, b: Byte, c: Byte, s: Byte)
    ensures Plus(FastMixedByte(a, b, s), FastMixedByte(b, c, s)) == Plus(Plus(a, b), XTime(Plus(a, c)))
  {
    PlusOfSum3(a, b, XTime(Plus(a, b)), XTime(Plus(b, c)), s);
    XTimeLinear(Plus(a, b), Plus(b, c));
    PlusChain(a, b, c);
  }

  lemma FastMixKeepsSum(c: Column)
    ensures Sum(FastMixColumn(c)) == Sum(c)
  {
    var s, m := Sum(c), FastMixColumn(c);
    MixedNeighbours(c.b0, c.b1, c.b2, s);
    MixedNeighbours(c.b2, c.b3, c.b0, s);
    PlusCommutes(c.b0, c.b2);
    Sum4AsPairs(m.b0, m.b1, m.b2, m.b3);
    Sum4AsPairs(c.b0, c.b1, c.b2, c.b3);
    PlusPairsCancel(Plus(c.b0, c.b1), Plus(c.b2, c.b3), XTime(Plus(c.b0, c.b2)));
  }

  lemma FastMixedByteTwice(a: Byte, b: Byte, c: Byte, s: Byte)
    ensures FastMixedByte(FastMixedByte(a, b, s), FastMixedByte(b, c, s), s) == Plus(a, XTime(XTime(Plus(a, c))))
  {
    MixedNeighbours(a, b, c, s);
    XTimeLinear(Plus(a, b), XTime(Plus(a, c)));
    Sum3Cancels(a, XTime(Plus(a, b)), XTime(XTime(Plus(a, c))), s);
  }

  /** Mixing a column twice is the Barreto step. */
  lemma MixTwiceIsBarreto(c: Column)
    ensures MixColumn(MixColumn(c)) == Barreto(c)
  {
    FastMixIsMix(c);
    FastMixIsMix(FastMixColumn(c));
    FastMixKeepsSum(c);
    FastMixedByteTwice(c.b0, c.b1, c.b2, Sum(c));
    FastMixedByteTwice(c.b1, c.b2, c.b3, Sum(c));
    FastMixedByteTwice(c.b2, c.b3, c.b0, Sum(c));
    FastMixedByteTwice(c.b3, c.b0, c.b1, Sum(c));
    PlusCommutes(c.b0, c.b2);
    PlusCommutes(c.b1, c.b3);
  }

  lemma PlusUndoesItself(a: Byte, u: Byte)
    ensures Plus(Plus(a, u), u) == a
  {
  }

  /** The Barreto step undoes itself, so mixing a column four times changes nothing. */
  lemma BarretoUndoesItself(c: Column)
    ensures Barreto(Barreto(c)) == c
  {
    var even := XTime(XTime(Plus(c.b0, c.b2)));
    var odd := XTime(XTime(Plus(c.b1, c.b3)));
    PlusPairsCancel(c.b0, c.b2, even);
    PlusPairsCancel(c.b1, c.b3, odd);
    PlusUndoesItself(c.b0, even);
    PlusUndoesItself(c.b1, odd);
    PlusUndoesItself(c.b2, even);
    PlusUndoesItself(c.b3, odd);
  }

  // ----- The inverse matrix -----

  lemma InvMixSum(a: Byte, b: Byte, c: Byte, d: Byte,
                  a1: Byte, a2: Byte, a3: Byte, b1: Byte, b3: Byte, c2: Byte, c3: Byte, d3: Byte)
    ensures Sum4(Sum3(a3, a2, a1), Sum3(b3, b1, b), Sum3(c3, c2, c), Plus(d3, d))
            == Sum3(Plus(a, Plus(a2, c2)), Plus(Plus(a1, Plus(a3, c3)), Plus(b1, Plus(b3, d3))), Sum4(a, b, c, d))
  {
    Sum4AsOtherPairs(Sum3(a3, a2, a1), Sum3(b3, b1, b), Sum3(c3, c2, c), Plus(d3, d));
    InvMixSumEven(a1, a2, a3, c, c2, c3);
    InvMixSumOdd(b, b1, b3, d, d3);
    InvMixSumAll(a, b, c, d, Plus(a2, c2), Plus(a1, Plus(a3, c3)), Plus(b1, Plus(b3, d3)));
  }

  lemma InvMixSumEven(a1: Byte, a2: Byte, a3: Byte, c: Byte, c2: Byte, c3: Byte)
    ensures Plus(Sum3(a3, a2, a1), Sum3(c3, c2, c)) == Sum3(Plus(a2, c2), Plus(a1, Plus(a3, c3)), c)
  {
  }

  lemma InvMixSumOdd(b: Byte, b1: Byte, b3: Byte, d: Byte, d3: Byte)
    ensures Plus(Sum3(b3, b1, b), Plus(d3, d)) == Sum3(Plus(b1, Plus(b3, d3)), b, d)
  {
  }

  lemma InvMixSumAll(a: Byte, b: Byte, c: Byte, d: Byte, u: Byte, v: Byte, w: Byte)
    ensures Plus(Sum3(u, v, c), Sum3(w, b, d)) == Sum3(Plus(a, u), Plus(v, w), Sum4(a, b, c, d))
  {
  }

  lemma XTimeThriceLinear(a: Byte, b: Byte)
    ensures XTime(XTime(Plus(a, b))) == Plus(XTime(XTime(a)), XTime(XTime(b)))
    ensures XTime(XTime(XTime(Plus(a, b)))) == Plus(XTime(XTime(XTime(a))), XTime(XTime(XTime(b))))
  {
    XTimeLinear(a, b);
    XTimeLinear(XTime(a), XTime(b));
    XTimeLinear(XTime(XTime(a)), XTime(XTime(b)));
  }

  lemma InvMixedByteIsFast(a: Byte, b: Byte, c: Byte, d: Byte)
    ensures InvMixedByte(a, b, c, d)
            == FastMixedByte(Plus(a, XTime(XTime(Plus(a, c)))), Plus(b, XTime(XTime(Plus(b, d)))), Sum4(a, b, c, d))
  {
    TimesE(a);
    TimesB(b);
    TimesD(c);
    Times9(d);
    XTimeThriceLinear(a, c);
    XTimeThriceLinear(b, d);
    var even, odd := XTime(XTime(Plus(a, c))), XTime(XTime(Plus(b, d)));
    XTimeLinear(a, even);
    XTimeLinear(b, odd);
    XTimeLinear(Plus(a, even), Plus(b, odd));
    InvMixSum(a, b, c, d, XTime(a), XTime(XTime(a)), XTime(XTime(XTime(a))), XTime(b), XTime(XTime(XTime(b))),
              XTime(XTime(c)), XTime(XTime(XTime(c))), XTime(XTime(XTime(d))));
  }

  lemma BarretoKeepsSum(c: Column)
    ensures Sum(Barreto(c)) == Sum(c)
  {
    var d := Barreto(c);
    Sum4AsOtherPairs(c.b0, c.b1, c.b2, c.b3);
    Sum4AsOtherPairs(d.b0, d.b1, d.b2, d.b3);
    PlusPairsCancel(c.b0, c.b2, XTime(XTime(Plus(c.b0, c.b2))));
    PlusPairsCancel(c.b1, c.b3, XTime(XTime(Plus(c.b1, c.b3))));
  }

  /** InvMixColumn of section 5.3.3 is the Barreto step followed by MixColumn. */
  lemma InvMixIsBarretoThenMix(c: Column)
    ensures InvMixColumn(c) == MixColumn(Barreto(c))
  {
    FastMixIsMix(Barreto(c));
    BarretoKeepsSum(c);
    InvMixedByteIsFast(c.b0, c.b1, c.b2, c.b3);
    InvMixedByteIsFast(c.b1, c.b2, c.b3, c.b0);
    InvMixedByteIsFast(c.b2, c.b3, c.b0, c.b1);
    InvMixedByteIsFast(c.b3, c.b0, c.b1, c.b2);
    SumRotates(c.b0, c.b1, c.b2, c.b3);
    SumRotates(c.b1, c.b2, c.b3, c.b0);
    SumRotates(c.b2, c.b3, c.b0, c.b1);
    PlusCommutes(c.b0, c.b2);
    PlusCommutes(c.b1, c.b3);
  }

  /** The two matrices are inverse to each other. */
  lemma MixColumnInverse(c: Column)
    ensures InvMixColumn(MixColumn(c)) == c && MixColumn(InvMixColumn(c)) == c
  {
    InvMixIsBarretoThenMix(MixColumn(c));
    InvMixIsBarretoThenMix(c);
    MixTwiceIsBarreto(c);
    MixTwiceIsBarreto(Barreto(c));
    MixTwiceIsBarreto(MixColumn(c));
    BarretoUndoesItself(c);
  }
}
