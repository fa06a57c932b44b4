/** The encoders of the two frames, filling the caller's buffer in place. */
module ContactIdEncoder {
  import opened ContactId
  import opened PartitionMaps

  /** Everything outside the stretch from `from` to `to` is as before. */
  twostate predicate KeptOutside(out: array<Byte>, from: nat, to: nat)
    reads out
  {
    forall i | 0 <= i < out.Length && !(from <= i < to) :: out[i] == old(out[i])
  }

  method Clear(out: array<Byte>, n: nat)
    requires n <= out.Length
    modifies out
    ensures KeptOutside(out, 0, n) && forall i | 0 <= i < n :: out[i] == 0
  {
    for i := 0 to n
      invariant forall k | 0 <= k < i :: out[k] == 0
      invariant forall k | i <= k < out.Length :: out[k] == old(out[k])
    {
      out[i] := 0;
    }
  }

  method PutHead(out: array<Byte>, r: Report)
    requires 6 <= out.Length && Ready(r)
    modifies out
    ensures KeptOutside(out, 0, 6) && out[..6] == Head(0x40, r.second, r.serial)
  {
    out[0] := 0x40;
    out[1] := r.second;
    out[2] := r.serial[0] % 16 * 16;
    out[2] := out[2] + r.serial[1] % 16;
    out[3] := r.serial[2] % 16 * 16;
    out[3] := out[3] + r.serial[3] % 16;
    out[4] := r.serial[4] % 16 * 16;
    out[4] := out[4] + r.serial[5] % 16;
    out[5] := r.serial[6] % 16 * 16;
    out[5] := out[5] + r.serial[7] % 16;
  }

  /** The digits of a number, right-aligned so that the last one is byte 9. */
  method PutDecimal(out: array<Byte>, digits: seq<Byte>)
    requires 10 <= out.Length && |digits| <= 10
    modifies out
    ensures KeptOutside(out, 10 - |digits|, 10) && out[10 - |digits|..10] == digits
  {
    var i, j := |digits| - 1, 9;
    while i >= 0
      invariant -1 <= i < |digits| && j == 10 - |digits| + i
      invariant forall k | j < k < 10 :: out[k] == digits[k - (10 - |digits|)]
      invariant forall k | 0 <= k < out.Length && !(j < k < 10) :: out[k] == old(out[k])
    {
      out[j] := digits[i];
      i, j := i - 1, j - 1;
    }
  }

  lemma WordNibbles(n: nat)
    ensures Nibbles(n, 2) == [n / 16 % 16, n % 16]
    ensures Nibbles(n, 3) == [n / 256 % 16, n / 16 % 16, n % 16]
    ensures Nibbles(n, 4) == [n / 4096 % 16, n / 256 % 16, n / 16 % 16, n % 16]
  {
    hide Nibbles;
    Shifts(n);
    LastNibble(n, 3);
    LastNibble(n, 2);
    LastNibble(n, 1);
    LastNibble(n / 16, 2);
    LastNibble(n / 16, 1);
    LastNibble(n / 16, 0);
    LastNibble(n / 16 / 16, 1);
    LastNibble(n / 16 / 16, 0);
    LastNibble(n / 16 / 16 / 16, 0);
  }

  lemma LastNibble(n: nat, k: nat)
    ensures Nibbles(n, k + 1) == Nibbles(n / 16, k) + [n % 16] && Nibbles(n, 0) == []
  {
  }

  lemma Shifts(n: nat)
    ensures n / 16 / 16 == n / 256 && n / 16 / 16 / 16 == n / 4096
  {
  }

  method PutAccount(out: array<Byte>, r: Report)
    requires 10 <= out.Length && Ready(r) && out[..10] == Head(0x40, r.second, r.serial) + [0, 0, 0, 0]
    modifies out
    ensures KeptOutside(out, 0, 10) && out[..10] == AccountField(Head(0x40, r.second, r.serial), r.account, r.event)
  {
    hide Head, Nibbles, Decimal;
    var e := r.event;
    if r.account != 0 {
      var digits;
      if e.code == Digits3(REMOTE_ASSAULT) {
        DecimalLength(e.account, 10);
        digits := Decimal(e.account);
      } else {
        DecimalLength(r.account, 10);
        digits := Decimal(r.account);
      }
      PutDecimal(out, digits);
    } else {
      WordNibbles(e.account);
      out[6] := e.account / 4096 % 16;
      out[7] := e.account / 256 % 16;
      out[8] := e.account / 16 % 16;
      out[9] := e.account % 16;
    }
  }

  method PutEvent(out: array<Byte>, e: Event)
    requires 21 <= out.Length
    modifies out
    ensures KeptOutside(out, 10, 21) && out[10..21] == EventField(e)
  {
    hide Nibbles;
    WordNibbles(e.code);
    WordNibbles(e.part);
    WordNibbles(e.zone);
    out[10] := 1;
    out[11] := 8;
    out[12] := e.qualifier;
    out[13] := e.code / 256 % 16;
    out[14] := e.code / 16 % 16;
    out[15] := e.code % 16;
    out[16] := e.part / 16 % 16;
    out[17] := e.part % 16;
    out[18] := e.zone / 256 % 16;
    out[19] := e.zone / 16 % 16;
    out[20] := e.zone % 16;
  }

  /** Recodes the zeros among the digits and adds the digits up. */
  method PutZeros(out: array<Byte>) returns (checksum: nat)
    requires 21 <= out.Length
    modifies out
    ensures KeptOutside(out, 6, 21) && out[6..21] == SentAll(old(out[6..21])) && checksum == Sum(out[6..21])
  {
    checksum := 0;
    for i := 6 to 21
      invariant forall k | 6 <= k < i :: out[k] == Sent(old(out[k]))
      invariant forall k | 0 <= k < out.Length && !(6 <= k < i) :: out[k] == old(out[k])
      invariant checksum == Sum(out[6..i])
    {
      ghost var before := out[6..i];
      if out[i] == 0 {
        out[i] := 10;
      }
      checksum := checksum + out[i];
      assert out[6..i + 1][..i - 6] == before;
    }
  }

  /** Subtracts 15 until nothing is left, and adds it once. */
  method Modulo15(sum: nat) returns (digit: int)
    requires 0 < sum
    ensures digit == CheckDigit(sum)
  {
    digit := sum;
    while digit > 0
      invariant -15 < digit <= sum && (sum - digit) % 15 == 0
    {
      digit := digit - 15;
    }
    digit := digit + 15;
  }

  method PutTwo(out: array<Byte>, k: nat, n: nat)
    requires k + 2 <= out.Length && n < 100
    modifies out
    ensures KeptOutside(out, k, k + 2) && out[k..k + 2] == Two(n)
  {
    var digits := Decimal(n);
    if n < 10 {
      out[k] := 0x30;
      out[k + 1] := 0x30 + digits[0];
    } else {
      assert Decimal(n / 10) == [n / 10];
      out[k] := 0x30 + digits[0];
      out[k + 1] := 0x30 + digits[1];
    }
  }

  lemma DecimalStep(n: nat)
    ensures Decimal(n) == if n < 10 then [n] else Decimal(n / 10) + [n % 10]
  {
  }

  lemma YearDigits(y: nat)
    requires 1000 <= y < 10000
    ensures Decimal(y) == [y / 100 / 10, y / 100 % 10, y % 100 / 10, y % 100 % 10]
  {
    hide Decimal;
    DecimalStep(y);
    DecimalStep(y / 10);
    DecimalStep(y / 10 / 10);
    DecimalStep(y / 10 / 10 / 10);
    YearParts(y);
  }

  lemma YearParts(y: nat)
    ensures y / 100 / 10 == y / 10 / 10 / 10 && y / 100 % 10 == y / 10 / 10 % 10
    ensures y % 100 / 10 == y / 10 % 10 && y % 100 % 10 == y % 10
  {
    assert y / 100 == y / 10 / 10;
  }

  method PutYear(out: array<Byte>, y: nat)
    requires 42 <= out.Length && 1000 <= y < 10000
    modifies out
    ensures KeptOutside(out, 38, 42) && out[38..42] == Two(y / 100) + Two(y % 100)
  {
    YearDigits(y);
    var digits := Decimal(y);
    out[38] := 0x30 + digits[0];
    out[39] := 0x30 + digits[1];
    out[40] := 0x30 + digits[2];
    out[41] := 0x30 + digits[3];
  }

  method PutStamp(out: array<Byte>, c: Clock)
    requires 42 <= out.Length && OnCalendar(c)
    modifies out
    ensures KeptOutside(out, 28, 42) && out[28..42] == Stamp(c)
  {
    hide Two;
    PutTwo(out, 28, c.hour);
    PutTwo(out, 30, c.min);
    PutTwo(out, 32, c.sec);
    PutTwo(out, 36, c.mon + 1);
    PutTwo(out, 34, c.mday);
    PutYear(out, c.year);
    assert out[28..30] == Two(c.hour) && out[30..32] == Two(c.min) && out[32..34] == Two(c.sec);
    assert out[34..36] == Two(c.mday) && out[36..38] == Two(c.mon + 1);
    assert out[28..42] == out[28..30] + out[30..32] + out[32..34] + out[34..36] + out[36..38] + out[38..42];
  }

  /** The digits of a cleared buffer: header, serial number, account and event. */
  method PutDigits(out: array<Byte>, r: Report) returns (checksum: nat)
    requires 42 <= out.Length && Ready(r) && forall i | 0 <= i < 42 :: out[i] == 0
    modifies out
    ensures KeptOutside(out, 0, 21) && out[..21] == Raw(r)[..6] + Digits(r)
    ensures checksum == Sum(Digits(r)) && 0 < checksum
  {
    hide AccountField, Head, EventField, Sum;
    PutHead(out, r);
    assert out[..10] == out[..6] + [0, 0, 0, 0];
    PutAccount(out, r);
    PutEvent(out, r.event);
    assert out[..21] == Raw(r);
    ghost var raw := out[..21];
    assert out[6..21] == raw[6..];
    checksum := PutZeros(out);
    assert out[..6] == raw[..6] && out[6..21] == Digits(r);
    assert out[..21] == out[..6] + out[6..21];
    SumPositive(Digits(r));
  }

  method PutOpening(out: array<Byte>, r: Report)
    requires 42 <= out.Length && Ready(r) && forall i | 0 <= i < 42 :: out[i] == 0
    modifies out
    ensures KeptOutside(out, 0, 42) && out[..42] == Opening(r)
  {
    hide Raw, Digits, Sum, Stamp, CheckDigit;
    var checksum := PutDigits(out, r);
    var digit := Modulo15(checksum);
    ghost var first := out[..21];
    out[21] := digit;
    out[22] := r.count;
    out[23] := 0;
    out[24] := 0x51;
    assert out[..21] == first && out[21..28] == [digit, r.count, 0, 0x51, 0, 0, 0];
    PutStamp(out, r.clock);
    assert out[..42] == out[..21] + out[21..28] + out[28..42];
    assert out[..21] == first && out[21..28] == [digit, r.count, 0, 0x51, 0, 0, 0];
  }

  /** The exclusive-or of bytes 1 up to `to`. */
  method XorUpTo(out: array<Byte>, to: nat) returns (checksum: Byte)
    requires 1 <= to <= out.Length
    ensures checksum == XorAll(out[1..to])
  {
    checksum := 0;
    for i := 1 to to
      invariant checksum == XorAll(out[1..i])
    {
      checksum := Xor(checksum, out[i]);
      assert out[1..i + 1][..i - 1] == out[1..i];
    }
  }

  method ProtEncoderNtsec6(r: Report, out: array<Byte>) returns (size: nat)
    requires Ready(r) && 43 <= out.Length
    modifies out
    ensures size == 43 && out[..size] == Frame6(r.(second := 0xE8)) && KeptOutside(out, 0, size)
  {
    hide Opening, XorAll;
    Clear(out, 43);
    PutOpening(out, r.(second := 0xE8));
    var checksum := XorUpTo(out, 42);
    assert out[1..42] == out[..42][1..];
    out[42] := checksum;
    size := 43;
    assert out[..42] == Opening(r.(second := 0xE8));
  }

  // ----- The maps in place -----

  const MAPS_AT: nat := 42
  const MAPS_END: nat := 94

  /** Sets or clears the bit of partition `p` in the map at `base`, one of the four maps of a frame. */
  method PartitionBitSet(out: array<Byte>, base: nat, p: Byte, on: bool)
    requires MAPS_END <= out.Length && MAPS_AT <= base <= MAPS_END - MAP_SIZE
    modifies out
    ensures KeptOutside(out, MAPS_AT, MAPS_END)
    ensures out[MAPS_AT..MAPS_END] == PartitionBit(old(out[MAPS_AT..MAPS_END]), base - MAPS_AT, p, on)
  {
    hide WithBit, WithoutBit;
    if p > 99 {
      return;
    }
    var row, column := p / 8, 7 - p % 8;
    if row > 13 {
      return;
    }
    if on {
      out[base + row] := WithBit(out[base + row], column);
    } else {
      out[base + row] := WithoutBit(out[base + row], column);
    }
  }

  method ExpandRow(out: array<Byte>, part: Byte, status: Byte)
    requires MAPS_END <= out.Length
    modifies out
    ensures KeptOutside(out, MAPS_AT, MAPS_END)
    ensures out[MAPS_AT..MAPS_END] == Expand(old(out[MAPS_AT..MAPS_END]), part, status, 8)
  {
    hide PartitionBit, Bit;
    for j := 0 to 8
      invariant forall i | 0 <= i < out.Length && !(MAPS_AT <= i < MAPS_END) :: out[i] == old(out[i])
      invariant out[MAPS_AT..MAPS_END] == Expand(old(out[MAPS_AT..MAPS_END]), part, status, j)
    {
      if Bit(status, j) {
        PartitionBitSet(out, MAPS_AT, (part + j + 1) % 256, true);
      }
    }
  }

  method PutAlarmRow(out: array<Byte>, row: Row, expanders: seq<Byte>)
    requires MAPS_END <= out.Length && |expanders| == 3
    modifies out
    ensures KeptOutside(out, MAPS_AT, MAPS_END)
    ensures out[MAPS_AT..MAPS_END] == AlarmRow(old(out[MAPS_AT..MAPS_END]), row, expanders)
  {
    hide PartitionBit, Expand, Bit;
    if row.address != 0 && Bit(row.status, STATUS_ALARM) {
      if 240 <= row.address <= 242 {
        match row.address {
          case 240 => ExpandRow(out, row.part, expanders[0]);
          case 241 => ExpandRow(out, row.part, expanders[1]);
          case _ => ExpandRow(out, row.part, expanders[2]);
        }
      } else {
        PartitionBitSet(out, MAPS_AT, row.part, true);
      }
    }
  }

  method PutStatusRow(out: array<Byte>, row: Row, base: nat, status: nat)
    requires MAPS_END <= out.Length && MAPS_AT <= base <= MAPS_END - MAP_SIZE && status < 8
    modifies out
    ensures KeptOutside(out, MAPS_AT, MAPS_END)
    ensures out[MAPS_AT..MAPS_END] == StatusRow(old(out[MAPS_AT..MAPS_END]), row, base - MAPS_AT, status)
  {
    hide PartitionBit, Bit;
    if row.address != 0 && Bit(row.status, status) {
      if row.address < 100 {
        PartitionBitSet(out, base, row.part, true);
      }
    }
  }

  method PutRow(out: array<Byte>, row: Row, expanders: seq<Byte>)
    requires MAPS_END <= out.Length && |expanders| == 3
    modifies out
    ensures KeptOutside(out, MAPS_AT, MAPS_END)
    ensures out[MAPS_AT..MAPS_END] == OneRow(old(out[MAPS_AT..MAPS_END]), row, expanders)
  {
    hide AlarmRow, StatusRow;
    PutAlarmRow(out, row, expanders);
    PutStatusRow(out, row, 55, STATUS_TAMPER);
    PutStatusRow(out, row, 68, STATUS_IMMEDIATE);
    PutStatusRow(out, row, 81, STATUS_TIMED);
  }

  method PutTable(out: array<Byte>, rows: seq<Row>, expanders: seq<Byte>)
    requires MAPS_END <= out.Length && |expanders| == 3
    modifies out
    ensures KeptOutside(out, MAPS_AT, MAPS_END)
    ensures out[MAPS_AT..MAPS_END] == Fill(old(out[MAPS_AT..MAPS_END]), rows, expanders)
  {
    hide OneRow;
    for i := 0 to |rows|
      invariant forall k | 0 <= k < out.Length && !(MAPS_AT <= k < MAPS_END) :: out[k] == old(out[k])
      invariant out[MAPS_AT..MAPS_END] == Fill(old(out[MAPS_AT..MAPS_END]), rows[..i], expanders)
    {
      PutRow(out, rows[i], expanders);
      assert rows[..i + 1][..i] == rows[..i];
    }
    assert rows[..|rows|] == rows;
  }

  method ProtEncoderNtsec7(r: Report, rows: seq<Row>, expanders: seq<Byte>, out: array<Byte>) returns (size: nat)
    requires Ready(r) && |expanders| == 3 && 95 <= out.Length
    modifies out
    ensures size == 95 && KeptOutside(out, 0, size)
    ensures out[..size] == Frame7(r.(second := 0xF8), Fill(Blank(), rows, expanders))
  {
    hide Opening, XorAll, Fill;
    Clear(out, 95);
    PutOpening(out, r.(second := 0xF8));
    assert out[MAPS_AT..MAPS_END] == Blank();
    ghost var opening := out[..42];
    PutTable(out, rows, expanders);
    assert out[..42] == opening;
    assert out[..94] == out[..42] + out[42..94];
    var checksum := XorUpTo(out, 94);
    assert out[1..94] == out[..94][1..];
    out[94] := checksum;
    size := 95;
    assert out[..94] == opening + out[42..94];
  }
}
