/** The four partition maps of the long frame: alarm, tamper, immediate and timed, of 104 bits in 13 bytes each. */
module PartitionMaps {
  import opened ContactId

  /** A row of the device table: address, partition and status of one device. */
  datatype Row = Row(address: Byte, part: Byte, status: Byte)

  const MAP_SIZE: nat := 13
  const MAPS: nat := 52

  /** The first and last address of the devices that report eight partitions in a status byte of their own. */
  const EXPANDER: Byte := 240
  const LAST_EXPANDER: Byte := 242

  const STATUS_ALARM: nat := 0
  const STATUS_TAMPER: nat := 1
  const STATUS_TIMED: nat := 2
  const STATUS_IMMEDIATE: nat := 3

  // ----- Filling the maps -----

  /** Setting or clearing the bit of partition `p` in the map that starts at `base`; partitions above 99 are ignored. */
  function PartitionBit(maps: seq<Byte>, base: nat, p: Byte, on: bool): (r: seq<Byte>)
    requires base + MAP_SIZE <= |maps|
    ensures |r| == |maps|
  {
    if p > 99 then maps
    else
      var row, column := p / 8, 7 - p % 8;
      maps[base + row := if on then WithBit(maps[base + row], column) else WithoutBit(maps[base + row], column)]
  }

  /** The first `k` bits of an expander's status, for the partitions after `part`, counted in eight bits. */
  function Expand(maps: seq<Byte>, part: Byte, status: Byte, k: nat): (r: seq<Byte>)
    requires |maps| == MAPS && k <= 8
    ensures |r| == MAPS
  {
    if k == 0 then maps
    else
      var m := Expand(maps, part, status, k - 1);
      if Bit(status, k - 1) then PartitionBit(m, 0, (part + k) % 256, true) else m
  }

  function AlarmRow(maps: seq<Byte>, row: Row, expanders: seq<Byte>): (r: seq<Byte>)
    requires |maps| == MAPS && |expanders| == 3
    ensures |r| == MAPS
  {
    if row.address != 0 && Bit(row.status, STATUS_ALARM) then
      if EXPANDER <= row.address <= LAST_EXPANDER then Expand(maps, row.part, expanders[row.address - EXPANDER], 8)
      else PartitionBit(maps, 0, row.part, true)
    else maps
  }

  /** One of the other maps takes the rows with its status bit and an address below 100. */
  function StatusRow(maps: seq<Byte>, row: Row, base: nat, status: nat): (r: seq<Byte>)
    requires |maps| == MAPS && base + MAP_SIZE <= MAPS && status < 8
    ensures |r| == MAPS
  {
    if row.address != 0 && Bit(row.status, status) && row.address < 100
    then PartitionBit(maps, base, row.part, true) else maps
  }

  function OneRow(maps: seq<Byte>, row: Row, expanders: seq<Byte>): (r: seq<Byte>)
    requires |maps| == MAPS && |expanders| == 3
    ensures |r| == MAPS
  {
    var m1 := AlarmRow(maps, row, expanders);
    var m2 := StatusRow(m1, row, 13, STATUS_TAMPER);
    var m3 := StatusRow(m2, row, 26, STATUS_IMMEDIATE);
    StatusRow(m3, row, 39, STATUS_TIMED)
  }

  function Fill(maps: seq<Byte>, rows: seq<Row>, expanders: seq<Byte>): (r: seq<Byte>)
    requires |maps| == MAPS && |expanders| == 3
    ensures |r| == MAPS
    decreases |rows|
  {
    if rows == [] then maps else OneRow(Fill(maps, rows[..|rows| - 1], expanders), rows[|rows| - 1], expanders)
  }

  // ----- What the bits mean -----

  /** Bit `p` of map `m`. */
  predicate Marked(maps: seq<Byte>, m: nat, p: nat)
    requires |maps| == MAPS && m < 4 && p < 104
  {
    Bit(maps[13 * m + p / 8], 7 - p % 8)
  }

  /** Bit `j` of an expander's status stands for partition `p`. */
  predicate ExpandsTo(status: Byte, part: Byte, j: nat, p: nat)
    requires j < 8
  {
    Bit(status, j) && p == (part + j + 1) % 256
  }

  ghost predicate Expands(status: Byte, part: Byte, k: nat, p: nat)
    requires k <= 8
  {
    exists j: nat | j < k :: ExpandsTo(status, part, j, p)
  }

  /** A row asserts partition `p` in map `m`. */
  ghost predicate Asserts(row: Row, expanders: seq<Byte>, m: nat, p: nat)
    requires |expanders| == 3
  {
    && row.address != 0 && p <= 99
    && match m
       case 0 =>
         && Bit(row.status, STATUS_ALARM)
         && if EXPANDER <= row.address <= LAST_EXPANDER
            then Expands(expanders[row.address - EXPANDER], row.part, 8, p)
            else p == row.part
       case 1 => Bit(row.status, STATUS_TAMPER) && row.address < 100 && p == row.part
       case 2 => Bit(row.status, STATUS_IMMEDIATE) && row.address < 100 && p == row.part
       case _ => Bit(row.status, STATUS_TIMED) && row.address < 100 && p == row.part
  }

  lemma SetMask(b: bv8, c: nat, k: nat)
    requires c < 8 && k < 8
    ensures (b | Mask(c)) & Mask(k) != 0 <==> k == c || b & Mask(k) != 0
  {
  }

  lemma BackToBits(x: bv8)
    ensures (x as int) as bv8 == x
  {
  }

  lemma SetBit(b: Byte, c: nat, k: nat)
    requires c < 8 && k < 8
    ensures Bit(WithBit(b, c), k) <==> k == c || Bit(b, k)
  {
    hide Mask, Bit;
    BitIs(WithBit(b, c), (b as bv8) | Mask(c), k);
    BackToBits((b as bv8) | Mask(c));
    BitIs(b, b as bv8, k);
    SetMask(b as bv8, c, k);
  }

  lemma BitIs(b: Byte, x: bv8, k: nat)
    requires k < 8 && b as bv8 == x
    ensures Bit(b, k) <==> x & Mask(k) != 0
  {
  }

  // ----- What filling marks -----

  lemma SamePlace(m: nat, p: nat, m': nat, p': nat)
    requires m < 4 && m' < 4 && p < 104 && p' < 104
    ensures 13 * m + p / 8 == 13 * m' + p' / 8 && 7 - p % 8 == 7 - p' % 8 <==> m == m' && p == p'
  {
  }

  lemma PartitionBitMarks(maps: seq<Byte>, m: nat, q: Byte, m': nat, p: nat)
    requires |maps| == MAPS && m < 4 && m' < 4 && p < 104
    ensures Marked(PartitionBit(maps, 13 * m, q, true), m', p)
            <==> (q <= 99 && m == m' && p == q) || Marked(maps, m', p)
  {
    hide Bit, WithBit;
    if q <= 99 {
      SamePlace(m, q, m', p);
      SetBit(maps[13 * m + q / 8], 7 - q % 8, 7 - p % 8);
    }
  }

  lemma {:induction false} ExpandMarks(maps: seq<Byte>, part: Byte, status: Byte, k: nat, m: nat, p: nat)
    requires |maps| == MAPS && k <= 8 && m < 4 && p < 104
    ensures Marked(Expand(maps, part, status, k), m, p)
            <==> (m == 0 && p <= 99 && Expands(status, part, k, p)) || Marked(maps, m, p)
  {
    hide Bit, Marked, PartitionBit;
    if k != 0 {
      ExpandMarks(maps, part, status, k - 1, m, p);
      PartitionBitMarks(Expand(maps, part, status, k - 1), 0, (part + k) % 256, m, p);
      assert ExpandsTo(status, part, k - 1, p) <==> Bit(status, k - 1) && p == (part + k) % 256;
    }
  }

  lemma AlarmRowMarks(maps: seq<Byte>, row: Row, expanders: seq<Byte>, m: nat, p: nat)
    requires |maps| == MAPS && |expanders| == 3 && m < 4 && p < 104
    ensures Marked(AlarmRow(maps, row, expanders), m, p)
            <==> (m == 0 && Asserts(row, expanders, m, p)) || Marked(maps, m, p)
  {
    hide Bit, Marked, PartitionBit, Expand, Expands;
    PartitionBitMarks(maps, 0, row.part, m, p);
    if EXPANDER <= row.address <= LAST_EXPANDER {
      ExpandMarks(maps, row.part, expanders[row.address - EXPANDER], 8, m, p);
    }
  }

  lemma StatusRowMarks(maps: seq<Byte>, row: Row, m0: nat, status: nat, m: nat, p: nat)
    requires |maps| == MAPS && m0 < 4 && status < 8 && m < 4 && p < 104
    ensures Marked(StatusRow(maps, row, 13 * m0, status), m, p)
            <==> (|| (&& m == m0 && row.address != 0 && Bit(row.status, status) && row.address < 100
                      && p <= 99 && p == row.part)
                  || Marked(maps, m, p))
  {
    hide Bit, Marked, PartitionBit;
    PartitionBitMarks(maps, m0, row.part, m, p);
  }

  lemma OneRowMarks(maps: seq<Byte>, row: Row, expanders: seq<Byte>, m: nat, p: nat)
    requires |maps| == MAPS && |expanders| == 3 && m < 4 && p < 104
    ensures Marked(OneRow(maps, row, expanders), m, p) <==> Asserts(row, expanders, m, p) || Marked(maps, m, p)
  {
    hide Bit, Marked, AlarmRow, StatusRow, Expands;
    var m1 := AlarmRow(maps, row, expanders);
    var m2 := StatusRow(m1, row, 13, STATUS_TAMPER);
    var m3 := StatusRow(m2, row, 26, STATUS_IMMEDIATE);
    AlarmRowMarks(maps, row, expanders, m, p);
    StatusRowMarks(m1, row, 1, STATUS_TAMPER, m, p);
    StatusRowMarks(m2, row, 2, STATUS_IMMEDIATE, m, p);
    StatusRowMarks(m3, row, 3, STATUS_TIMED, m, p);
  }

  ghost predicate AnyAsserts(rows: seq<Row>, expanders: seq<Byte>, m: nat, p: nat)
    requires |expanders| == 3
  {
    exists i | 0 <= i < |rows| :: Asserts(rows[i], expanders, m, p)
  }

  lemma {:induction false} FillMarks(maps: seq<Byte>, rows: seq<Row>, expanders: seq<Byte>, m: nat, p: nat)
    requires |maps| == MAPS && |expanders| == 3 && m < 4 && p < 104
    ensures Marked(Fill(maps, rows, expanders), m, p) <==> AnyAsserts(rows, expanders, m, p) || Marked(maps, m, p)
    decreases |rows|
  {
    hide Marked, Asserts, OneRow;
    if rows != [] {
      var k := |rows| - 1;
      FillMarks(maps, rows[..k], expanders, m, p);
      OneRowMarks(Fill(maps, rows[..k], expanders), rows[k], expanders, m, p);
      assert AnyAsserts(rows[..k], expanders, m, p) ==> AnyAsserts(rows, expanders, m, p) by {
        if i :| 0 <= i < k && Asserts(rows[..k][i], expanders, m, p) {
          assert Asserts(rows[i], expanders, m, p);
        }
      }
      if i :| 0 <= i < |rows| && Asserts(rows[i], expanders, m, p) && i != k {
        assert Asserts(rows[..k][i], expanders, m, p);
      }
    }
  }

  function Blank(): (r: seq<Byte>)
    ensures |r| == MAPS
  {
    seq(MAPS, _ => 0)
  }

  lemma BlankUnmarked(m: nat, p: nat)
    requires m < 4 && p < 104
    ensures !Marked(Blank(), m, p)
  {
    hide Mask;
    NoBits(7 - p % 8);
  }

  lemma NoBits(k: nat)
    requires k < 8
    ensures !Bit(0, k)
  {
  }

  /** The maps of a frame: bit `p` of map `m` is set if and only if some row of the device table asserts it. */
  lemma MapsMarkTheTable(rows: seq<Row>, expanders: seq<Byte>, m: nat, p: nat)
    requires |expanders| == 3 && m < 4 && p < 104
    ensures Marked(Fill(Blank(), rows, expanders), m, p) <==> AnyAsserts(rows, expanders, m, p)
  {
    hide Marked, Fill, AnyAsserts, Blank;
    FillMarks(Blank(), rows, expanders, m, p);
    BlankUnmarked(m, p);
  }

  /** The order of the table makes no difference. */
  lemma OrderIndifferent(rows: seq<Row>, rows': seq<Row>, expanders: seq<Byte>, m: nat, p: nat)
    requires |expanders| == 3 && m < 4 && p < 104 && multiset(rows) == multiset(rows')
    ensures Marked(Fill(Blank(), rows, expanders), m, p) <==> Marked(Fill(Blank(), rows', expanders), m, p)
  {
    hide Marked, Fill, Asserts, Blank;
    MapsMarkTheTable(rows, expanders, m, p);
    MapsMarkTheTable(rows', expanders, m, p);
    forall i | 0 <= i < |rows|
      ensures exists j | 0 <= j < |rows'| :: rows'[j] == rows[i]
    {
      assert rows[i] in multiset(rows');
    }
    forall j | 0 <= j < |rows'|
      ensures exists i | 0 <= i < |rows| :: rows[i] == rows'[j]
    {
      assert rows'[j] in multiset(rows);
    }
  }
}
