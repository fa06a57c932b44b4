/** The frames byte by byte, and the partition maps bit by bit, in plain numbers. */
module FrameLayout {
  import opened ContactId
  import opened ContactIdLaws
  import opened PartitionMaps

  // ----- The first forty-two bytes -----

  /** The header, as far as no account of more than eight digits lies over it, the type of the message, the running
      count, and the fixed bytes before the time stamp. */
  predicate FixedBytes(s: seq<Byte>, r: Report)
    requires 42 <= |s|
  {
    && (r.account == 0 || SentAccount(r) < 1000000000 ==> s[0] == 0x40)
    && (r.account == 0 || SentAccount(r) < 100000000 ==> s[1] == r.second)
    && s[10] == 1 && s[11] == 8
    && s[22] == r.count && s[23] == 0 && s[24] == 0x51 && s[25] == 0 && s[26] == 0 && s[27] == 0
  }

  lemma TenPowers()
    ensures Power(10, 8) == 100000000 && Power(10, 9) == 1000000000
  {
    assert Power(10, 4) == 10000 by {
      assert Power(10, 2) == 100;
    }
    assert Power(10, 5) == 100000 && Power(10, 6) == 1000000 && Power(10, 7) == 10000000;
  }

  lemma OpeningFixed(r: Report)
    requires Ready(r)
    ensures FixedBytes(Opening(r), r)
  {
    hide Opening, Power;
    TenPowers();
    HeadByte(r, 0);
    HeadByte(r, 1);
    FixedParts(r);
  }

  /** Both frames begin so; the long one goes on with the maps, and each ends with one closing byte. */
  lemma FrameBytes(r: Report, maps: seq<Byte>)
    requires Ready(r) && |maps| == 52
    ensures FixedBytes(Frame6(r), r) && FixedBytes(Frame7(r, maps), r)
    ensures |Frame6(r)| == 43 && |Frame7(r, maps)| == 95 && Frame7(r, maps)[42..94] == maps
  {
    hide Opening, XorAll;
    OpeningFixed(r);
    forall i | 0 <= i < 42
      ensures Frame6(r)[i] == Opening(r)[i] && Frame7(r, maps)[i] == Opening(r)[i]
    {
    }
  }

  // ----- Bits as digits of a number -----

  function Unit(x: bv8, mask: bv8): nat {
    if x & mask != 0 then 1 else 0
  }

  lemma Weights(x: bv8)
    ensures x as int == Unit(x, 0x01) + 2 * Unit(x, 0x02) + 4 * Unit(x, 0x04) + 8 * Unit(x, 0x08) + 16 * Unit(x, 0x10)
                        + 32 * Unit(x, 0x20) + 64 * Unit(x, 0x40) + 128 * Unit(x, 0x80)
  {
  }

  function Weight(k: nat): (w: nat)
    requires k < 8
    ensures 0 < w
  {
    match k
    case 0 => 1
    case 1 => 2
    case 2 => 4
    case 3 => 8
    case 4 => 16
    case 5 => 32
    case 6 => 64
    case _ => 128
  }

  /** The binary digit of weight 2^k. */
  predicate Digit(b: Byte, k: nat)
    requires k < 8
  {
    b / Weight(k) % 2 == 1
  }

  lemma Middle(b: nat, low: nat, unit: nat, high: nat, w: nat)
    requires w in {1, 2, 4, 8, 16, 32, 64, 128} && low < w && unit <= 1 && b == low + w * unit + w * (2 * high)
    ensures b / w % 2 == unit
  {
    assert b == low + w * (unit + 2 * high);
    Quotient(low, unit + 2 * high, w);
  }

  lemma Quotient(low: nat, q: nat, w: nat)
    requires w in {1, 2, 4, 8, 16, 32, 64, 128} && low < w
    ensures (low + w * q) / w == q
  {
  }

  lemma DigitOfSum(b: nat, u: seq<nat>, k: nat)
    requires |u| == 8 && k < 8 && forall i | 0 <= i < 8 :: u[i] <= 1
    requires b == u[0] + 2 * u[1] + 4 * u[2] + 8 * u[3] + 16 * u[4] + 32 * u[5] + 64 * u[6] + 128 * u[7]
    ensures b / Weight(k) % 2 == u[k]
  {
    match k
    case 0 => Middle(b, 0, u[0], u[1] + 2 * u[2] + 4 * u[3] + 8 * u[4] + 16 * u[5] + 32 * u[6] + 64 * u[7], 1);
    case 1 => Middle(b, u[0], u[1], u[2] + 2 * u[3] + 4 * u[4] + 8 * u[5] + 16 * u[6] + 32 * u[7], 2);
    case 2 => Middle(b, u[0] + 2 * u[1], u[2], u[3] + 2 * u[4] + 4 * u[5] + 8 * u[6] + 16 * u[7], 4);
    case 3 => Middle(b, u[0] + 2 * u[1] + 4 * u[2], u[3], u[4] + 2 * u[5] + 4 * u[6] + 8 * u[7], 8);
    case 4 => Middle(b, u[0] + 2 * u[1] + 4 * u[2] + 8 * u[3], u[4], u[5] + 2 * u[6] + 4 * u[7], 16);
    case 5 => Middle(b, u[0] + 2 * u[1] + 4 * u[2] + 8 * u[3] + 16 * u[4], u[5], u[6] + 2 * u[7], 32);
    case 6 => Middle(b, u[0] + 2 * u[1] + 4 * u[2] + 8 * u[3] + 16 * u[4] + 32 * u[5], u[6], u[7], 64);
    case _ => Middle(b, u[0] + 2 * u[1] + 4 * u[2] + 8 * u[3] + 16 * u[4] + 32 * u[5] + 64 * u[6], u[7], 0, 128);
  }

  function Units(x: bv8): (u: seq<nat>)
    ensures |u| == 8 && forall i | 0 <= i < 8 :: u[i] <= 1
  {
    [Unit(x, 0x01), Unit(x, 0x02), Unit(x, 0x04), Unit(x, 0x08),
     Unit(x, 0x10), Unit(x, 0x20), Unit(x, 0x40), Unit(x, 0x80)]
  }

  lemma SumOfUnits(x: bv8)
    ensures var u := Units(x);
            x as int == u[0] + 2 * u[1] + 4 * u[2] + 8 * u[3] + 16 * u[4] + 32 * u[5] + 64 * u[6] + 128 * u[7]
  {
    hide Unit;
    Weights(x);
  }

  lemma MaskUnit(x: bv8, k: nat)
    requires k < 8
    ensures x & Mask(k) != 0 <==> Units(x)[k] == 1
  {
  }

  lemma BitIsDigit(b: Byte, k: nat)
    requires k < 8
    ensures Bit(b, k) <==> Digit(b, k)
  {
    hide Mask, Weight, Units;
    ByteFromBits(b);
    MaskUnit(b as bv8, k);
    SumOfUnits(b as bv8);
    DigitOfSum(b, Units(b as bv8), k);
  }

  // ----- The maps -----

  /** Digit `j` of a status byte stands for the partition `j + 1` places after `part`, in eight bits. */
  predicate Follows(status: Byte, part: Byte, j: nat, p: nat)
    requires j < 8
  {
    Digit(status, j) && p == (part + j + 1) % 256
  }

  ghost predicate FollowsSome(status: Byte, part: Byte, p: nat) {
    exists j: nat | j < 8 :: Follows(status, part, j, p)
  }

  /** A row of the device table puts partition `p` in map `m`: alarm, tamper, immediate and timed are the status digits
      0, 1, 3 and 2; the devices 240 to 242 report eight partitions after their own. */
  ghost predicate Puts(row: Row, expanders: seq<Byte>, m: nat, p: nat)
    requires |expanders| == 3
  {
    && row.address != 0 && p <= 99
    && Digit(row.status, if m == 0 then 0 else if m == 1 then 1 else if m == 2 then 3 else 2)
    && if m == 0 && 240 <= row.address <= 242
       then FollowsSome(expanders[row.address - 240], row.part, p)
       else p == row.part && (m == 0 || row.address < 100)
  }

  lemma PutsIsAsserts(row: Row, expanders: seq<Byte>, m: nat, p: nat)
    requires |expanders| == 3 && m < 4
    ensures Puts(row, expanders, m, p) <==> Asserts(row, expanders, m, p)
  {
    hide Bit, Digit;
    BitIsDigit(row.status, 0);
    BitIsDigit(row.status, 1);
    BitIsDigit(row.status, 2);
    BitIsDigit(row.status, 3);
    if 240 <= row.address <= 242 {
      var status := expanders[row.address - 240];
      forall j: nat | j < 8
        ensures ExpandsTo(status, row.part, j, p) <==> Follows(status, row.part, j, p)
      {
        BitIsDigit(status, j);
      }
    }
  }

  ghost predicate AnyPuts(rows: seq<Row>, expanders: seq<Byte>, m: nat, p: nat)
    requires |expanders| == 3
  {
    exists i | 0 <= i < |rows| :: Puts(rows[i], expanders, m, p)
  }

  /** Digit 7 - p % 8 of byte 42 + 13 * m + p / 8 of the long frame is set if and only if some row of the device
      table puts partition `p` in map `m`. */
  lemma FrameMapsIff(r: Report, rows: seq<Row>, expanders: seq<Byte>, m: nat, p: nat)
    requires Ready(r) && |expanders| == 3 && m < 4 && p < 104
    ensures Digit(Frame7(r, Fill(Blank(), rows, expanders))[42 + 13 * m + p / 8], 7 - p % 8)
            <==> AnyPuts(rows, expanders, m, p)
  {
    hide Fill, Blank, Asserts, Puts, Bit, Digit, Frame7;
    var maps := Fill(Blank(), rows, expanders);
    FrameBytes(r, maps);
    var i := 13 * m + p / 8;
    assert Frame7(r, maps)[42 + i] == Frame7(r, maps)[42..94][i];
    BitIsDigit(maps[i], 7 - p % 8);
    MapsMarkTheTable(rows, expanders, m, p);
    forall j | 0 <= j < |rows|
      ensures Puts(rows[j], expanders, m, p) <==> Asserts(rows[j], expanders, m, p)
    {
      PutsIsAsserts(rows[j], expanders, m, p);
    }
  }
}
