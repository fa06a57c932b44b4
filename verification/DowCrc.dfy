/** The checksum of the eight-byte token codes: by table, against polynomial division one bit at a time. */
module DowCrc {

  // ----- The table -----

  /** The table at index `x`, kept as sixteen rows of sixteen entries. */
  function Table(x: bv8): bv8 {
    var row: bv128 :=
      if x & 0x80 == 0 then
        if x & 0x40 == 0 then
          if x & 0x20 == 0 then
            if x & 0x10 == 0 then
              0x005ebce2613fdd83c29c7e20a3fd1f41
            else
              0x9dc3217ffca2401e5f01e3bd3e6082dc
          else
            if x & 0x10 == 0 then
              0x237d9fc1421cfea0e1bf5d0380de3c62
            else
              0xbee0025cdf81633d7c22c09e1d43a1ff
        else
          if x & 0x20 == 0 then
            if x & 0x10 == 0 then
              0x4618faa427799bc584da3866e5bb5907
            else
              0xdb856739bae406581947a5fb7826c49a
          else
            if x & 0x10 == 0 then
              0x653bd987045ab8e6a7f91b45c6987a24
            else
              0xf8a6441a99c7257b3a6486d85b05e7b9
      else
        if x & 0x40 == 0 then
          if x & 0x20 == 0 then
            if x & 0x10 == 0 then
              0x8cd2306eedb3510f4e10f2ac2f7193cd
            else
              0x114fadf3702ecc92d38d6f31b2ec0e50
          else
            if x & 0x10 == 0 then
              0xaff1134dce90722c6d33d18f0c52b0ee
            else
              0x326c8ed0530defb1f0ae4c1291cf2d73
        else
          if x & 0x20 == 0 then
            if x & 0x10 == 0 then
              0xca947628abf517490856b4ea6937d58b
            else
              0x5709ebb536688ad495cb2977f4aa4816
          else
            if x & 0x10 == 0 then
              0xe9b7550b88d6346a2b7597c94a14f6a8
            else
              0x742ac896154ba9f7b6e80a54d7896b35;
    ((row >> (120 - 8 * (x & 0xf))) & 0xff) as bv8
  }

  // ----- The checksum by table -----

  function Xor(x: bv8, y: bv8): bv8 {
    x ^ y
  }

  function Crc(s: seq<bv8>): bv8 {
    if s == [] then 0 else Table(Xor(Crc(s[..|s| - 1]), s[|s| - 1]))
  }

  method DowCRC(buffer: array<bv8>) returns (crc: bv8)
    requires 8 <= buffer.Length
    ensures crc == Crc(buffer[..8])
  {
    hide Table;
    crc := 0;
    for i := 0 to 8
      invariant crc == Crc(buffer[..i])
    {
      var temp := crc ^ buffer[i];
      crc := Table(temp);
      assert buffer[..i + 1][..i] == buffer[..i];
    }
  }

  // ----- Division by x^8 + x^5 + x^4 + 1 -----

  /** One step of long division: the remainder times x, plus the next bit times x^8, and the divisor off if x^8 is left.
      Bit `k` of the remainder is the coefficient of x^k. */
  function Divide(r: bv8, bit: bool): bv8 {
    var t := ((r as bv16) << 1) ^ (if bit then 0x100 else 0);
    (if t & 0x100 != 0 then t ^ 0x131 else t) as bv8
  }

  /** The remainder of `r` followed by a row of bits, times x^8. */
  function Remainder(r: bv8, bits: seq<bool>): bv8
    decreases |bits|
  {
    if bits == [] then r else Remainder(Divide(r, bits[0]), bits[1..])
  }

  /** The same register with its bits in the opposite order, as the token sends them. */
  function Mirror(b: bv8): bv8 {
    ((b & 0x01) << 7) | ((b & 0x02) << 5) | ((b & 0x04) << 3) | ((b & 0x08) << 1)
    | ((b & 0x10) >> 1) | ((b & 0x20) >> 3) | ((b & 0x40) >> 5) | ((b & 0x80) >> 7)
  }

  /** A move of the register to the right, with the mirrored divisor for a bit that falls out. */
  function Half(x: bv8): bv8 {
    if x & 1 != 0 then (x >> 1) ^ 0x8C else x >> 1
  }

  function Unit(bit: bool): bv8 {
    if bit then 1 else 0
  }

  /** The mirrored step of the division. */
  function Shift(c: bv8, bit: bool): bv8 {
    Half(Xor(c, Unit(bit)))
  }

  lemma ShiftMirrorsDivide(c: bv8, bit: bool)
    ensures Mirror(Shift(c, bit)) == Divide(Mirror(c), bit)
  {
  }

  function ShiftAll(c: bv8, bits: seq<bool>): bv8
    decreases |bits|
  {
    if bits == [] then c else ShiftAll(Shift(c, bits[0]), bits[1..])
  }

  lemma {:induction false} ShiftAllMirrorsRemainder(c: bv8, bits: seq<bool>)
    ensures Mirror(ShiftAll(c, bits)) == Remainder(Mirror(c), bits)
    decreases |bits|
  {
    hide Shift, Divide, Mirror;
    if bits != [] {
      ShiftMirrorsDivide(c, bits[0]);
      ShiftAllMirrorsRemainder(Shift(c, bits[0]), bits[1..]);
    }
  }

  lemma {:induction false} ShiftMore(c: bv8, bits: seq<bool>, more: seq<bool>)
    ensures ShiftAll(c, bits + more) == ShiftAll(ShiftAll(c, bits), more)
    decreases |bits|
  {
    hide Shift;
    if bits == [] {
      assert bits + more == more;
    } else {
      ShiftMore(Shift(c, bits[0]), bits[1..], more);
      assert (bits + more)[1..] == bits[1..] + more;
    }
  }

  // ----- The table is eight steps -----

  function Halves(x: bv8, n: nat): bv8
    decreases n
  {
    if n == 0 then x else Halves(Half(x), n - 1)
  }

  /** The lowest `n` bits of a byte, the lowest first, and what is left of it. */
  function LowBits(b: bv8, n: nat): (r: seq<bool>)
    ensures |r| == n
    decreases n
  {
    if n == 0 then [] else [b & 1 != 0] + LowBits(b >> 1, n - 1)
  }

  function HighBits(b: bv8, n: nat): bv8
    decreases n
  {
    if n == 0 then b else HighBits(b >> 1, n - 1)
  }

  lemma TableIsEight(x: bv8)
    ensures Table(x) == Half(Half(Half(Half(Half(Half(Half(Half(x))))))))
  {
  }

  lemma EightHalves(x: bv8)
    ensures Halves(x, 8) == Half(Half(Half(Half(Half(Half(Half(Half(x))))))))
  {
    hide Half;
  }

  lemma NothingLeft(b: bv8)
    ensures HighBits(b, 8) == 0
  {
  }

  lemma HalfStep(c: bv8, b: bv8)
    ensures Half(Xor(c, b)) == Xor(Shift(c, b & 1 != 0), b >> 1)
  {
  }

  lemma {:induction false} ShiftLowBits(c: bv8, b: bv8, n: nat)
    ensures Halves(Xor(c, b), n) == Xor(ShiftAll(c, LowBits(b, n)), HighBits(b, n))
    decreases n
  {
    hide Half, Xor, Shift;
    if n != 0 {
      var bit := b & 1 != 0;
      HalfStep(c, b);
      ShiftLowBits(Shift(c, bit), b >> 1, n - 1);
      assert ([bit] + LowBits(b >> 1, n - 1))[1..] == LowBits(b >> 1, n - 1);
    }
  }

  lemma XorFacts(x: bv8, y: bv8)
    ensures (Xor(x, y) == 0 <==> x == y) && Xor(x, 0) == x && Xor(0, x) == x
  {
  }

  lemma ShiftByte(c: bv8, b: bv8)
    ensures ShiftAll(c, LowBits(b, 8)) == Table(Xor(c, b))
  {
    hide Half, Xor, Table, ShiftAll, LowBits, HighBits, Halves;
    ShiftLowBits(c, b, 8);
    NothingLeft(b);
    XorFacts(ShiftAll(c, LowBits(b, 8)), 0);
    EightHalves(Xor(c, b));
    TableIsEight(Xor(c, b));
  }

  /** The bits of a row of bytes in the order they arrive. */
  function Bits(s: seq<bv8>): (r: seq<bool>)
    ensures |r| == 8 * |s|
  {
    if s == [] then [] else Bits(s[..|s| - 1]) + LowBits(s[|s| - 1], 8)
  }

  lemma {:induction false} CrcIsShifts(s: seq<bv8>)
    ensures Crc(s) == ShiftAll(0, Bits(s))
  {
    hide Table, Shift, LowBits, Xor;
    if s != [] {
      var k := |s| - 1;
      CrcIsShifts(s[..k]);
      ShiftMore(0, Bits(s[..k]), LowBits(s[k], 8));
      ShiftByte(Crc(s[..k]), s[k]);
    }
  }

  /** The checksum by table is the mirrored remainder of the division, for any number of bytes. */
  lemma CrcIsRemainder(s: seq<bv8>)
    ensures Mirror(Crc(s)) == Remainder(0, Bits(s))
  {
    hide Crc, ShiftAll, Remainder, Bits;
    CrcIsShifts(s);
    ShiftAllMirrorsRemainder(0, Bits(s));
  }

  lemma NextCrc(s: seq<bv8>, b: bv8, c: bv8, c': bv8)
    requires Crc(s) == c && Table(Xor(c, b)) == c'
    ensures Crc(s + [b]) == c'
  {
    hide Table, Xor;
    assert (s + [b])[..|s|] == s;
  }

  lemma ExampleEntries()
    ensures Table(0x02) == 0xBC
    ensures Table(0xA0) == 0xAF
    ensures Table(0x17) == 0x1E
    ensures Table(0x1F) == 0xDC
    ensures Table(0xDC) == 0xF4
    ensures Table(0xF4) == 0x15
    ensures Table(0x15) == 0xA2
    ensures Table(0x00) == 0x00
  {
  }

  lemma ExampleSums()
    ensures Xor(0x00, 0x02) == 0x02
    ensures Xor(0x15, 0x00) == 0x15
    ensures Xor(0x1E, 0x01) == 0x1F
    ensures Xor(0xA2, 0xA2) == 0x00
    ensures Xor(0xAF, 0xB8) == 0x17
    ensures Xor(0xBC, 0x1C) == 0xA0
    ensures Xor(0xDC, 0x00) == 0xDC
    ensures Xor(0xF4, 0x00) == 0xF4
  {
  }

  /** The example code of the manufacturer's application note 27: 02 1C B8 01 00 00 00, with checksum A2. */
  lemma ExampleCode()
    ensures Crc([0x02, 0x1C, 0xB8, 0x01, 0x00, 0x00, 0x00]) == 0xA2
    ensures Crc([0x02, 0x1C, 0xB8, 0x01, 0x00, 0x00, 0x00, 0xA2]) == 0
  {
    hide Table, Xor;
    ExampleEntries();
    ExampleSums();
    var s0: seq<bv8> := [];
    NextCrc(s0, 0x02, 0x00, 0xBC);
    var s1 := s0 + [0x02];
    NextCrc(s1, 0x1C, 0xBC, 0xAF);
    var s2 := s1 + [0x1C];
    NextCrc(s2, 0xB8, 0xAF, 0x1E);
    var s3 := s2 + [0xB8];
    NextCrc(s3, 0x01, 0x1E, 0xDC);
    var s4 := s3 + [0x01];
    NextCrc(s4, 0x00, 0xDC, 0xF4);
    var s5 := s4 + [0x00];
    NextCrc(s5, 0x00, 0xF4, 0x15);
    var s6 := s5 + [0x00];
    NextCrc(s6, 0x00, 0x15, 0xA2);
    var s7 := s6 + [0x00];
    NextCrc(s7, 0xA2, 0xA2, 0x00);
    var s8 := s7 + [0xA2];
    assert s7 == [0x02, 0x1C, 0xB8, 0x01, 0x00, 0x00, 0x00];
    assert s8 == [0x02, 0x1C, 0xB8, 0x01, 0x00, 0x00, 0x00, 0xA2];
  }

  // ----- Codes that check -----

  lemma TableZero(x: bv8)
    ensures Table(x) == 0 <==> x == 0
  {
  }

  /** The checksum of a code is zero if and only if its last byte is the checksum of the bytes before. */
  lemma ZeroIffClosed(s: seq<bv8>)
    requires s != []
    ensures Crc(s) == 0 <==> s[|s| - 1] == Crc(s[..|s| - 1])
  {
    hide Table, Xor;
    TableZero(Xor(Crc(s[..|s| - 1]), s[|s| - 1]));
    XorFacts(Crc(s[..|s| - 1]), s[|s| - 1]);
  }

  // ----- Linearity -----

  lemma HalfLinear(x: bv8, y: bv8)
    ensures Half(Xor(x, y)) == Xor(Half(x), Half(y))
  {
  }

  lemma Swap(a: bv8, b: bv8, c: bv8, d: bv8)
    ensures Xor(Xor(a, b), Xor(c, d)) == Xor(Xor(a, c), Xor(b, d))
  {
    hide Xor;
    Associate(a, b, Xor(c, d));
    Associate(b, c, d);
    Associate(c, b, d);
    Associate(a, c, Xor(b, d));
    Commute(b, c);
  }

  lemma Associate(x: bv8, y: bv8, z: bv8)
    ensures Xor(Xor(x, y), z) == Xor(x, Xor(y, z))
  {
  }

  lemma Commute(x: bv8, y: bv8)
    ensures Xor(x, y) == Xor(y, x)
  {
  }

  lemma UnitLinear(x: bool, y: bool)
    ensures Unit(x != y) == Xor(Unit(x), Unit(y))
  {
  }

  lemma ShiftLinear(c: bv8, d: bv8, x: bool, y: bool)
    ensures Shift(Xor(c, d), x != y) == Xor(Shift(c, x), Shift(d, y))
  {
    hide Half, Xor, Unit;
    UnitLinear(x, y);
    Swap(c, d, Unit(x), Unit(y));
    HalfLinear(Xor(c, Unit(x)), Xor(d, Unit(y)));
  }

  lemma {:induction false} HalvesLinear(x: bv8, y: bv8, n: nat)
    ensures Halves(Xor(x, y), n) == Xor(Halves(x, n), Halves(y, n))
    decreases n
  {
    hide Half, Xor;
    if n != 0 {
      HalfLinear(x, y);
      HalvesLinear(Half(x), Half(y), n - 1);
    }
  }

  lemma TableIsHalves(x: bv8)
    ensures Table(x) == Halves(x, 8)
  {
    hide Half, Table, Halves;
    TableIsEight(x);
    EightHalves(x);
  }

  lemma TableLinear(x: bv8, y: bv8)
    ensures Table(Xor(x, y)) == Xor(Table(x), Table(y))
  {
    hide Table, Halves, Xor;
    TableIsHalves(x);
    TableIsHalves(y);
    TableIsHalves(Xor(x, y));
    HalvesLinear(x, y, 8);
  }

  function XorBytes(s: seq<bv8>, t: seq<bv8>): (r: seq<bv8>)
    requires |s| == |t|
    ensures |r| == |s| && forall i | 0 <= i < |s| :: r[i] == Xor(s[i], t[i])
  {
    seq(|s|, i requires 0 <= i < |s| => Xor(s[i], t[i]))
  }

  /** The checksum of a combination is the combination of the checksums. */
  lemma {:induction false} CrcLinear(s: seq<bv8>, t: seq<bv8>)
    requires |s| == |t|
    ensures Crc(XorBytes(s, t)) == Xor(Crc(s), Crc(t))
  {
    hide Table, Xor;
    XorFacts(0, 0);
    if s != [] {
      var k := |s| - 1;
      CrcLinear(s[..k], t[..k]);
      assert XorBytes(s, t)[..k] == XorBytes(s[..k], t[..k]);
      TableLinear(Xor(Crc(s[..k]), s[k]), Xor(Crc(t[..k]), t[k]));
      Swap(Crc(s[..k]), Crc(t[..k]), s[k], t[k]);
    }
  }

  // ----- Errors on the line -----

  function XorBits(s: seq<bool>, t: seq<bool>): (r: seq<bool>)
    requires |s| == |t|
    ensures |r| == |s| && forall i | 0 <= i < |s| :: r[i] == (s[i] != t[i])
  {
    seq(|s|, i requires 0 <= i < |s| => s[i] != t[i])
  }

  lemma {:induction false} ShiftAllLinear(c: bv8, d: bv8, s: seq<bool>, t: seq<bool>)
    requires |s| == |t|
    ensures ShiftAll(Xor(c, d), XorBits(s, t)) == Xor(ShiftAll(c, s), ShiftAll(d, t))
    decreases |s|
  {
    hide Shift, Xor;
    if s != [] {
      ShiftLinear(c, d, s[0], t[0]);
      ShiftAllLinear(Shift(c, s[0]), Shift(d, t[0]), s[1..], t[1..]);
      assert XorBits(s, t)[1..] == XorBits(s[1..], t[1..]);
    }
  }

  function Quiet(n: nat): (r: seq<bool>)
    ensures |r| == n && forall i | 0 <= i < n :: !r[i]
  {
    seq(n, _ => false)
  }

  lemma ShiftZero(c: bv8)
    ensures Shift(c, false) == 0 <==> c == 0
  {
  }

  /** Zero bits keep a zero register zero, and any other register other than zero. */
  lemma {:induction false} QuietKeeps(c: bv8, n: nat)
    ensures ShiftAll(c, Quiet(n)) == 0 <==> c == 0
    decreases n
  {
    hide Shift;
    if n != 0 {
      ShiftZero(c);
      QuietKeeps(Shift(c, false), n - 1);
      assert Quiet(n)[1..] == Quiet(n - 1);
    }
  }

  /** The byte with the given low bits. */
  function FromBits(r: seq<bool>): bv8 {
    if r == [] then 0 else (FromBits(r[1..]) << 1) | Unit(r[0])
  }

  lemma {:induction false} FromBitsBack(r: seq<bool>, n: nat)
    requires |r| == n <= 8
    ensures LowBits(FromBits(r), n) == r && FromBits(r) & HighMask(n) == 0
    decreases n
  {
    hide Unit;
    if n != 0 {
      FromBitsBack(r[1..], n - 1);
      Push(FromBits(r[1..]), r[0], n - 1);
      assert r == [r[0]] + r[1..];
    }
  }

  /** The bits from `n` on. */
  function HighMask(n: nat): bv8
    requires n <= 8
  {
    match n
    case 0 => 0xFF
    case 1 => 0xFE
    case 2 => 0xFC
    case 3 => 0xF8
    case 4 => 0xF0
    case 5 => 0xE0
    case 6 => 0xC0
    case 7 => 0x80
    case 8 => 0x00
  }

  lemma Push(b: bv8, bit: bool, n: nat)
    requires n < 8 && b & HighMask(n) == 0
    ensures var r := (b << 1) | Unit(bit); (r & 1 != 0) == bit && r >> 1 == b && r & HighMask(n + 1) == 0
  {
  }

  /** A burst of at most eight bits, not all zero, leaves the register other than zero. */
  lemma BurstShows(burst: seq<bool>)
    requires |burst| <= 8 && true in burst
    ensures ShiftAll(0, burst) != 0
  {
    hide Table, LowBits, Shift, FromBits, ShiftAll, Xor;
    var n := 8 - |burst|;
    var r := burst + Quiet(n);
    var b := FromBits(r);
    FromBitsBack(r, 8);
    ShiftMore(0, burst, Quiet(n));
    QuietKeeps(ShiftAll(0, burst), n);
    ShiftByte(0, b);
    XorFacts(b, b);
    TableZero(b);
    ZeroBits(8);
    var i :| 0 <= i < |burst| && burst[i];
    assert r[i];
  }

  lemma {:induction false} ZeroBits(n: nat)
    ensures forall i | 0 <= i < n :: !LowBits(0, n)[i]
  {
    if n != 0 {
      ZeroBits(n - 1);
    }
  }

  /** Two rows of bits that differ, and only within eight consecutive places, have different checksums. */
  lemma BurstDetected(s: seq<bool>, t: seq<bool>, from: nat)
    requires |s| == |t| && s != t && from <= |s|
    requires forall i | 0 <= i < |s| && !(from <= i < from + 8) :: s[i] == t[i]
    ensures ShiftAll(0, s) != ShiftAll(0, t)
  {
    hide Shift, ShiftAll, Xor;
    var e := XorBits(s, t);
    var end := if from + 8 <= |s| then from + 8 else |s|;
    var burst := e[from..end];
    assert e == Quiet(from) + burst + Quiet(|s| - end);
    assert true in burst by {
      var i :| 0 <= i < |s| && s[i] != t[i];
      assert burst[i - from];
    }
    ShiftMore(0, Quiet(from) + burst, Quiet(|s| - end));
    ShiftMore(0, Quiet(from), burst);
    QuietKeeps(0, from);
    BurstShows(burst);
    QuietKeeps(ShiftAll(0, burst), |s| - end);
    ShiftAllLinear(0, 0, s, t);
    XorFacts(0, 0);
    XorFacts(ShiftAll(0, s), ShiftAll(0, t));
  }

  lemma ByteBits(x: bv8, y: bv8)
    requires LowBits(x, 8) == LowBits(y, 8)
    ensures x == y
  {
    hide Table, LowBits, ShiftAll, Xor;
    ShiftByte(0, x);
    ShiftByte(0, y);
    XorFacts(x, y);
    XorFacts(y, x);
    TableLinear(x, y);
    XorFacts(Table(x), Table(y));
    TableZero(Xor(x, y));
  }

  lemma BitsSplit(s: seq<bv8>)
    requires s != []
    ensures var k := |s| - 1; Bits(s)[..8 * k] == Bits(s[..k]) && Bits(s)[8 * k..] == LowBits(s[k], 8)
  {
    hide LowBits;
  }

  lemma {:induction false} BitsDetermine(s: seq<bv8>, t: seq<bv8>)
    requires |s| == |t| && Bits(s) == Bits(t)
    ensures s == t
  {
    hide LowBits, Bits;
    if s != [] {
      var k := |s| - 1;
      BitsSplit(s);
      BitsSplit(t);
      BitsDetermine(s[..k], t[..k]);
      ByteBits(s[k], t[k]);
      assert s == s[..k] + [s[k]] && t == t[..k] + [t[k]];
    }
  }

  /** So two codes that differ, and only within a burst of at most eight bits, wherever it falls, never both check. */
  lemma BurstChangesCrc(s: seq<bv8>, t: seq<bv8>, from: nat)
    requires |s| == |t| && s != t && from <= 8 * |s|
    requires forall i | 0 <= i < 8 * |s| && !(from <= i < from + 8) :: Bits(s)[i] == Bits(t)[i]
    ensures Crc(s) != Crc(t)
  {
    hide Bits, Crc, ShiftAll;
    CrcIsShifts(s);
    CrcIsShifts(t);
    if Bits(s) == Bits(t) {
      BitsDetermine(s, t);
    } else {
      BurstDetected(Bits(s), Bits(t), from);
    }
  }

  // ----- Odd numbers of errors -----

  /** Whether an odd number of the bits are set. */
  function Odd(bits: seq<bool>): bool {
    if bits == [] then false else bits[0] != Odd(bits[1..])
  }

  function OddByte(b: bv8): bool {
    var x := b ^ (b >> 4);
    var y := x ^ (x >> 2);
    (y ^ (y >> 1)) & 1 != 0
  }

  lemma ShiftOdd(c: bv8, bit: bool)
    ensures OddByte(Shift(c, bit)) == (OddByte(c) != bit)
  {
  }

  lemma NoneOdd()
    ensures !OddByte(0)
  {
  }

  /** The divisor has an even number of terms, so the register always has the parity of the bits so far. */
  lemma {:induction false} RegisterParity(c: bv8, bits: seq<bool>)
    ensures OddByte(ShiftAll(c, bits)) == (OddByte(c) != Odd(bits))
    decreases |bits|
  {
    hide Shift, OddByte;
    if bits != [] {
      ShiftOdd(c, bits[0]);
      RegisterParity(Shift(c, bits[0]), bits[1..]);
    }
  }

  /** Two codes that differ in an odd number of bits, wherever they are, never have the same checksum. */
  lemma OddChangesCrc(s: seq<bv8>, t: seq<bv8>)
    requires |s| == |t| && Odd(XorBits(Bits(s), Bits(t)))
    ensures Crc(s) != Crc(t)
  {
    hide Bits, Crc, ShiftAll, OddByte, Odd, Xor;
    CrcIsShifts(s);
    CrcIsShifts(t);
    RegisterParity(0, XorBits(Bits(s), Bits(t)));
    ShiftAllLinear(0, 0, Bits(s), Bits(t));
    XorFacts(0, 0);
    XorFacts(Crc(s), Crc(t));
    NoneOdd();
  }
}
