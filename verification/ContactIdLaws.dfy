/** What a receiver reads from a frame, and which errors the check digit and the closing byte reveal. */
module ContactIdLaws {
  import opened ContactId

  // ----- Numbers from digits -----

  function Value(base: nat, s: seq<Byte>): nat {
    if s == [] then 0 else Value(base, s[..|s| - 1]) * base + s[|s| - 1]
  }

  lemma {:induction false} ValueOfNibbles(n: nat, k: nat)
    ensures Value(16, Nibbles(n, k)) <= n
    ensures Value(16, Nibbles(n, k)) == n <==> n < Power(16, k)
  {
    if k != 0 {
      ValueOfNibbles(n / 16, k - 1);
      assert (Nibbles(n / 16, k - 1) + [n % 16])[..k - 1] == Nibbles(n / 16, k - 1);
    }
  }

  lemma {:induction false} ValueOfDecimal(n: nat)
    ensures Value(10, Decimal(n)) == n
  {
    if n >= 10 {
      ValueOfDecimal(n / 10);
      assert (Decimal(n / 10) + [n % 10])[..|Decimal(n / 10)|] == Decimal(n / 10);
    } else {
      assert Value(10, [n]) == n;
    }
  }

  /** Lowering digits lowers the number. */
  lemma {:induction false} ValueOrder(base: nat, s: seq<Byte>, t: seq<Byte>)
    requires 0 < base && |s| == |t| && forall i | 0 <= i < |s| :: s[i] <= t[i]
    ensures Value(base, s) <= Value(base, t)
    ensures s != t ==> Value(base, s) < Value(base, t)
  {
    if s != [] {
      var k := |s| - 1;
      ValueOrder(base, s[..k], t[..k]);
      assert s == s[..k] + [s[k]] && t == t[..k] + [t[k]];
      Horner(base, Value(base, s[..k]), Value(base, t[..k]), s[k], t[k]);
    }
  }

  lemma Horner(base: nat, v: nat, w: nat, x: nat, y: nat)
    requires 0 < base && v <= w && x <= y
    ensures v * base + x <= w * base + y
    ensures v < w || x < y ==> v * base + x < w * base + y
  {
    if v < w {
      assert (v + 1) * base <= w * base;
    }
  }

  // ----- The receiver -----

  function Received(b: Byte): Byte {
    if b == 10 then 0 else b
  }

  function ReceivedAll(s: seq<Byte>): (r: seq<Byte>)
    ensures |r| == |s| && forall i | 0 <= i < |s| :: r[i] == Received(s[i])
  {
    seq(|s|, i requires 0 <= i < |s| => Received(s[i]))
  }

  predicate NoTen(s: seq<Byte>) {
    forall i | 0 <= i < |s| :: s[i] != 10
  }

  lemma ReceivedSent(s: seq<Byte>)
    ensures ReceivedAll(SentAll(s)) == s <==> NoTen(s)
    ensures forall i | 0 <= i < |s| :: ReceivedAll(SentAll(s))[i] <= s[i]
  {
    if ReceivedAll(SentAll(s)) == s {
      forall i | 0 <= i < |s|
        ensures s[i] != 10
      {
        assert ReceivedAll(SentAll(s))[i] == s[i];
      }
    }
  }

  /** A word comes through if and only if it fits in its digits and none of them is ten, which is how zero is sent. */
  lemma WordRecovered(n: nat, k: nat)
    ensures Value(16, ReceivedAll(SentAll(Nibbles(n, k)))) == n <==> n < Power(16, k) && NoTen(Nibbles(n, k))
  {
    hide Nibbles, Value, Power;
    var s := Nibbles(n, k);
    ValueOfNibbles(n, k);
    ReceivedSent(s);
    ValueOrder(16, ReceivedAll(SentAll(s)), s);
  }

  /** What is read from the opening of a frame; `kind` is the type of the message, 18 for an event. */
  datatype Reading = Reading(account: seq<Byte>, kind: nat, qualifier: Byte, code: nat, part: nat, zone: nat)

  function Read(s: seq<Byte>): Reading
    requires 21 <= |s|
  {
    Reading(ReceivedAll(s[6..10]), Value(10, ReceivedAll(s[10..12])), Received(s[12]),
            Value(16, ReceivedAll(s[13..16])), Value(16, ReceivedAll(s[16..18])), Value(16, ReceivedAll(s[18..21])))
  }

  lemma EventDigits(e: Event)
    ensures var s := EventField(e);
            && s[2] == e.qualifier && s[3..6] == Nibbles(e.code, 3)
            && s[6..8] == Nibbles(e.part, 2) && s[8..] == Nibbles(e.zone, 3)
  {
    hide Nibbles;
  }

  lemma SentPart(s: seq<Byte>, from: nat, to: nat)
    requires from <= to <= |s|
    ensures SentAll(s)[from..to] == SentAll(s[from..to])
  {
  }

  lemma RawParts(r: Report)
    requires Ready(r)
    ensures var s, field := Raw(r), AccountField(Head(0x40, r.second, r.serial), r.account, r.event);
            s[..6] == field[..6] && s[6..][..4] == field[6..] && s[6..][4..] == EventField(r.event)
  {
    hide AccountField, Head, EventField;
  }

  lemma OpeningParts(r: Report)
    requires Ready(r)
    ensures var s := Opening(r);
            && s[..6] == Raw(r)[..6] && s[6..21] == Digits(r) && s[21] == CheckDigit(Sum(Digits(r)))
            && s[22..28] == [r.count, 0, 0x51, 0, 0, 0] && s[28..] == Stamp(r.clock)
  {
    hide Raw, Digits, Sum, CheckDigit, Stamp;
  }

  // ----- The time stamp -----

  /** Two decimal digits as characters. */
  function Dec(tens: Byte, units: Byte): int {
    var t: int, u: int := tens, units;
    (t - 0x30) * 10 + (u - 0x30)
  }

  lemma TwoDigitsRead(n: nat)
    requires n < 100
    ensures Dec(Two(n)[0], Two(n)[1]) == n
  {
  }

  /** The stamp of `c` stands in bytes 28 to 41 of `s`: hour, minute, second, day, month from one on, and year. */
  predicate TimeReads(s: seq<Byte>, c: Clock)
    requires 42 <= |s|
  {
    && Dec(s[28], s[29]) == c.hour && Dec(s[30], s[31]) == c.min && Dec(s[32], s[33]) == c.sec
    && Dec(s[34], s[35]) == c.mday && Dec(s[36], s[37]) == c.mon + 1
    && Dec(s[38], s[39]) * 100 + Dec(s[40], s[41]) == c.year
  }

  lemma StampReads(s: seq<Byte>, c: Clock)
    requires |s| == 42 && OnCalendar(c) && s[28..] == Stamp(c)
    ensures TimeReads(s, c)
  {
    hide Dec;
    TwoDigitsRead(c.hour);
    TwoDigitsRead(c.min);
    TwoDigitsRead(c.sec);
    TwoDigitsRead(c.mday);
    TwoDigitsRead(c.mon + 1);
    TwoDigitsRead(c.year / 100);
    TwoDigitsRead(c.year % 100);
    forall i | 28 <= i < 42
      ensures s[i] == Stamp(c)[i - 28]
    {
      assert s[i] == s[28..][i - 28];
    }
  }

  /** Every field of the time is read back from both frames, and so is the running count in byte 22. */
  lemma TimeRecovered(r: Report, maps: seq<Byte>)
    requires Ready(r) && |maps| == 52
    ensures TimeReads(Opening(r), r.clock) && TimeReads(Frame6(r), r.clock) && TimeReads(Frame7(r, maps), r.clock)
    ensures Frame6(r)[22] == r.count && Frame7(r, maps)[22] == r.count
  {
    hide Opening, Stamp, Dec, XorAll;
    OpeningParts(r);
    StampReads(Opening(r), r.clock);
    assert Opening(r)[22] == Opening(r)[22..28][0];
    forall i | 0 <= i < 42
      ensures Frame6(r)[i] == Opening(r)[i] && Frame7(r, maps)[i] == Opening(r)[i]
    {
    }
  }

  // ----- The header and the fixed bytes -----

  lemma FixedParts(r: Report)
    requires Ready(r)
    ensures var s := Opening(r);
            s[10] == 1 && s[11] == 8 && s[22] == r.count && s[23] == 0 && s[24] == 0x51 && s[25] == s[26] == s[27] == 0
  {
    hide Opening, Stamp, Sum, AccountField, CheckDigit, Nibbles;
    OpeningParts(r);
    var s := Opening(r);
    assert s[10] == s[6..21][4] && s[11] == s[6..21][5];
    assert Raw(r)[10] == EventField(r.event)[0] && Raw(r)[11] == EventField(r.event)[1];
    forall i | 22 <= i < 28
      ensures s[i] == s[22..28][i - 22]
    {
    }
  }

  /** Every frame is an event message, of type 18. */
  lemma KindRead(r: Report)
    requires Ready(r)
    ensures Read(Opening(r)).kind == 18
  {
    hide Opening;
    FixedParts(r);
    var s := ReceivedAll(Opening(r)[10..12]);
    assert s == [1, 8] && s[..1] == [1] && [1][..0] == [];
    assert Value(10, [1]) == 1;
  }

  // ----- The digits -----

  lemma SlicesOf(s: seq<Byte>, digits: seq<Byte>)
    requires |s| == 42 && |digits| == 15 && s[6..21] == digits
    ensures s[6..10] == digits[..4] && s[12] == digits[6] && s[13..16] == digits[7..10] && s[16..18] == digits[10..12]
    ensures s[18..21] == digits[12..15]
  {
  }

  lemma OpeningFields(r: Report)
    requires Ready(r)
    ensures var s, e := Opening(r), r.event;
            var field := AccountField(Head(0x40, r.second, r.serial), r.account, e);
            && s[..6] == field[..6] && s[6..10] == SentAll(field[6..]) && s[12] == Sent(e.qualifier)
            && s[13..16] == SentAll(Nibbles(e.code, 3)) && s[16..18] == SentAll(Nibbles(e.part, 2))
            && s[18..21] == SentAll(Nibbles(e.zone, 3))
  {
    hide AccountField, Head, Nibbles, Sum, CheckDigit, Stamp, Opening, Raw, EventField;
    var s, raw := Opening(r), Raw(r)[6..];
    OpeningParts(r);
    RawParts(r);
    EventDigits(r.event);
    SlicesOf(s, Digits(r));
    SentPart(raw, 0, 4);
    SentPart(raw, 7, 10);
    SentPart(raw, 10, 12);
    SentPart(raw, 12, 15);
    assert raw[7..10] == raw[4..][3..6] && raw[10..12] == raw[4..][6..8] && raw[12..15] == raw[4..][8..];
    assert raw[6] == raw[4..][2] && raw[..4] == raw[0..4];
  }

  // ----- What comes through -----

  /** Of an event without an account of the panel's own, everything is read back if and only if the code and the zone
      have three digits at most and no digit of any field is ten. */
  lemma EventRecoveredIff(r: Report)
    requires Ready(r) && r.account == 0
    ensures var e, s := r.event, Read(Opening(r));
            (&& Value(16, s.account) == e.account && s.qualifier == e.qualifier
             && s.code == e.code && s.part == e.part && s.zone == e.zone)
            <==> (&& e.code < 0x1000 && e.zone < 0x1000 && e.qualifier != 10
                  && NoTen(Nibbles(e.account, 4)) && NoTen(Nibbles(e.code, 3))
                  && NoTen(Nibbles(e.part, 2)) && NoTen(Nibbles(e.zone, 3)))
  {
    hide Nibbles, Opening, Value, Power, Head, NoTen, SentAll, ReceivedAll;
    var e := r.event;
    OpeningFields(r);
    AccountIsNibbles(r);
    WordRecovered(e.account, 4);
    WordRecovered(e.code, 3);
    WordRecovered(e.part, 2);
    WordRecovered(e.zone, 3);
    SixteenToThe();
    ReceivedIffNotTen(e.qualifier);
  }

  lemma AccountIsNibbles(r: Report)
    requires Ready(r) && r.account == 0
    ensures AccountField(Head(0x40, r.second, r.serial), r.account, r.event)[6..] == Nibbles(r.event.account, 4)
  {
    hide Nibbles, Head;
  }

  lemma SixteenToThe()
    ensures Power(16, 2) == 0x100 && Power(16, 3) == 0x1000 && Power(16, 4) == 0x1_0000
  {
  }

  lemma ReceivedIffNotTen(d: Byte)
    ensures Received(Sent(d)) == d <==> d != 10
  {
  }

  // ----- Accounts in decimal -----

  /** Decimal digit `j` from the end. */
  function Place(n: nat, j: nat): (r: Byte)
    ensures r < 10
  {
    if j == 0 then n % 10 else Place(n / 10, j - 1)
  }

  lemma {:induction false} DecimalPlace(n: nat, j: nat)
    ensures var s := Decimal(n);
            if j < |s| then s[|s| - 1 - j] == Place(n, j) else Place(n, j) == 0
    decreases j
  {
    if n >= 10 {
      if j != 0 {
        DecimalPlace(n / 10, j - 1);
      }
    } else if j != 0 {
      PlaceOfZero(j - 1);
    }
  }

  lemma {:induction false} PlaceOfZero(j: nat)
    ensures Place(0, j) == 0
  {
    if j != 0 {
      PlaceOfZero(j - 1);
    }
  }

  /** The last `k` decimal digits. */
  function Places(n: nat, k: nat): (r: seq<Byte>)
    ensures |r| == k && forall i | 0 <= i < k :: r[i] < 10
  {
    if k == 0 then [] else Places(n / 10, k - 1) + [n % 10]
  }

  lemma {:induction false} PlacesByIndex(n: nat, k: nat, j: nat)
    requires j < k
    ensures Places(n, k)[k - 1 - j] == Place(n, j)
  {
    if j != 0 {
      PlacesByIndex(n / 10, k - 1, j - 1);
    }
  }

  lemma ValueStep(n: nat, k: nat)
    ensures Value(10, Places(n, k + 1)) == Value(10, Places(n / 10, k)) * 10 + n % 10
  {
    assert Places(n, k + 1)[..k] == Places(n / 10, k);
  }

  /** Taking one decimal digit off. */
  lemma TenStep(n: nat)
    ensures n % 100 == n / 10 % 10 * 10 + n % 10 && n / 100 == n / 10 / 10
  {
  }

  lemma HundredStep(n: nat)
    ensures n % 1000 == n / 10 % 100 * 10 + n % 10 && n / 1000 == n / 10 / 100
  {
  }

  lemma ThousandStep(n: nat)
    ensures n % 10000 == n / 10 % 1000 * 10 + n % 10
  {
  }

  lemma ValueOfTwo(n: nat)
    ensures Value(10, Places(n, 2)) == n % 100
  {
    TenStep(n);
    ValueStep(n, 1);
    ValueStep(n / 10, 0);
  }

  lemma ValueOfThree(n: nat)
    ensures Value(10, Places(n, 3)) == n % 1000
  {
    hide Value, Places;
    HundredStep(n);
    ValueStep(n, 2);
    ValueOfTwo(n / 10);
  }

  lemma ValueOfFour(n: nat)
    ensures Value(10, Places(n, 4)) == n % 10000
  {
    hide Value, Places;
    ThousandStep(n);
    ValueStep(n, 3);
    ValueOfThree(n / 10);
  }

  /** The number that a frame sends as its account. */
  function SentAccount(r: Report): nat {
    if r.event.code == Digits3(REMOTE_ASSAULT) then r.event.account else r.account
  }

  /** Byte `j` of the head lies under the account: the account has a digit there. */
  predicate Covers(r: Report, j: nat)
    requires j < 6
  {
    r.account != 0 && Power(10, 9 - j) <= SentAccount(r)
  }

  lemma FieldPlaces(r: Report)
    requires Ready(r) && r.account != 0
    ensures var s := AccountField(Head(0x40, r.second, r.serial), r.account, r.event);
            && s[6..] == Places(SentAccount(r), 4)
            && forall j | 0 <= j < 6 ::
                 s[j] == if Covers(r, j) then Place(SentAccount(r), 9 - j) else Head(0x40, r.second, r.serial)[j]
  {
    hide Place, Places, Head, Decimal, Power;
    var n := SentAccount(r);
    var s := AccountField(Head(0x40, r.second, r.serial), r.account, r.event);
    DecimalLength(n, 10);
    forall i | 6 <= i < 10
      ensures s[i] == Places(n, 4)[i - 6]
    {
      DecimalPlace(n, 9 - i);
      PlacesByIndex(n, 4, 9 - i);
    }
    forall j | 0 <= j < 6
      ensures s[j] == if Covers(r, j) then Place(n, 9 - j) else Head(0x40, r.second, r.serial)[j]
    {
      DecimalPlace(n, 9 - j);
      DecimalLength(n, 9 - j);
    }
  }

  lemma TenToTheFour()
    ensures Power(10, 4) == 10000
  {
    assert Power(10, 2) == 100;
  }

  lemma {:induction false} PowerGrows(j: nat, k: nat)
    requires j <= k
    ensures Power(10, j) <= Power(10, k)
  {
    if j < k {
      PowerGrows(j, k - 1);
      PowerPositive(10, k - 1);
      assert Power(10, k) == 10 * Power(10, k - 1);
    }
  }

  /** Each byte of the head is sent, or the digit of an account that reaches so far. */
  lemma HeadByte(r: Report, j: nat)
    requires Ready(r) && j < 6
    ensures Opening(r)[j] == if Covers(r, j) then Place(SentAccount(r), 9 - j) else Head(0x40, r.second, r.serial)[j]
    ensures Covers(r, j) ==> 10000 <= SentAccount(r)
    ensures r.account != 0 && 10000 <= SentAccount(r) ==> Covers(r, 5)
  {
    hide Head, Opening, AccountField, Place, Power;
    OpeningFields(r);
    TenToTheFour();
    PowerGrows(4, 9 - j);
    assert Opening(r)[j] == Opening(r)[..6][j];
    if r.account == 0 {
      HeadKept(r);
    } else {
      FieldPlaces(r);
    }
  }

  /** So the whole head is sent if and only if the digits over it happen to be its bytes. */
  lemma HeadKeptIff(r: Report)
    requires Ready(r)
    ensures Opening(r)[..6] == Head(0x40, r.second, r.serial) <==>
              forall j | 0 <= j < 6 && Covers(r, j) ::
                Place(SentAccount(r), 9 - j) == Head(0x40, r.second, r.serial)[j]
  {
    hide Head, Opening, Place, Power;
    forall j | 0 <= j < 6
      ensures Opening(r)[..6][j]
              == if Covers(r, j) then Place(SentAccount(r), 9 - j) else Head(0x40, r.second, r.serial)[j]
    {
      HeadByte(r, j);
    }
  }

  /** With an account of its own, the frame sends it modulo 10000, and from 10000 on overwrites the serial number. */
  lemma OwnAccountRead(r: Report)
    requires Ready(r) && r.account != 0
    ensures Value(10, Read(Opening(r)).account) == SentAccount(r) % 10000
    ensures SentAccount(r) < 10000 ==> Opening(r)[..6] == Head(0x40, r.second, r.serial)
    ensures 10000 <= SentAccount(r) ==> Opening(r)[5] == Place(SentAccount(r), 4)
  {
    hide Place, Places, Head, Power, Opening, Value;
    AccountPlaces(r);
    ValueOfFour(SentAccount(r));
    HeadKeptIff(r);
    forall j | 0 <= j < 6
      ensures Covers(r, j) ==> 10000 <= SentAccount(r)
    {
      HeadByte(r, j);
    }
    HeadByte(r, 5);
  }

  lemma AccountPlaces(r: Report)
    requires Ready(r) && r.account != 0
    ensures Read(Opening(r)).account == Places(SentAccount(r), 4)
  {
    hide Place, Places, Head, Decimal, Power, Opening, AccountField, Value, SentAll, ReceivedAll, Covers;
    OpeningFields(r);
    FieldPlaces(r);
    ReceivedSent(Places(SentAccount(r), 4));
  }

  /** A receiver that knows how long such an account is reads all of it, from the bytes of the head that it covers. */
  lemma LongAccountRead(r: Report)
    requires Ready(r) && r.account != 0 && 10000 <= SentAccount(r)
    ensures var k := |Decimal(SentAccount(r))|;
            4 < k <= 10 && Value(10, Opening(r)[10 - k..6] + Read(Opening(r)).account) == SentAccount(r)
  {
    hide Place, Places, Head, Decimal, Power, Opening, Value, Read;
    var n := SentAccount(r);
    var k := |Decimal(n)|;
    TenToTheFour();
    DecimalLength(n, 4);
    DecimalLength(n, 10);
    TenToTheTen();
    AccountPlaces(r);
    var digits := Opening(r)[10 - k..6] + Places(n, 4);
    forall i | 0 <= i < k
      ensures digits[i] == Decimal(n)[i]
    {
      DecimalPlace(n, k - 1 - i);
      if i < k - 4 {
        HeadByte(r, 10 - k + i);
        DecimalLength(n, k - 1 - i);
      } else {
        PlacesByIndex(n, 4, k - 1 - i);
      }
    }
    assert digits == Decimal(n);
    ValueOfDecimal(n);
  }

  lemma TenToTheTen()
    ensures 0x8000_0000 <= Power(10, 10)
  {
    assert Power(10, 5) == 100000;
  }

  /** The serial number is read back from its nibbles, the lower four bits of each of its eight bytes. */
  predicate SerialRead(r: Report)
    requires Ready(r)
  {
    forall k | 0 <= k < 4 ::
      Opening(r)[2 + k] / 16 == r.serial[2 * k] % 16 && Opening(r)[2 + k] % 16 == r.serial[2 * k + 1] % 16
  }

  /** It is, if and only if the digits over its bytes happen to be them; so always with an account of four digits at
      most. */
  lemma SerialRecovered(r: Report)
    requires Ready(r)
    ensures SerialRead(r) <==> forall j | 2 <= j < 6 && Covers(r, j) ::
              Place(SentAccount(r), 9 - j) == Head(0x40, r.second, r.serial)[j]
    ensures r.account == 0 || SentAccount(r) < 10000 ==> SerialRead(r)
  {
    hide Head, Opening, Place, Power;
    forall j | 2 <= j < 6
      ensures Opening(r)[j]
              == if Covers(r, j) then Place(SentAccount(r), 9 - j) else Head(0x40, r.second, r.serial)[j]
      ensures Covers(r, j) ==> r.account != 0 && 10000 <= SentAccount(r)
      ensures Opening(r)[j] / 16 == r.serial[2 * j - 4] % 16 && Opening(r)[j] % 16 == r.serial[2 * j - 3] % 16
              <==> Opening(r)[j] == Head(0x40, r.second, r.serial)[j]
    {
      HeadByte(r, j);
      HeadNibbles(0x40, r.second, r.serial, j - 2);
      ByteFromNibbles(Opening(r)[j], Head(0x40, r.second, r.serial)[j]);
    }
    if forall j | 2 <= j < 6 && Covers(r, j) :: Place(SentAccount(r), 9 - j) == Head(0x40, r.second, r.serial)[j] {
      forall k | 0 <= k < 4
        ensures Opening(r)[2 + k] / 16 == r.serial[2 * k] % 16 && Opening(r)[2 + k] % 16 == r.serial[2 * k + 1] % 16
      {
        var j := 2 + k;
        assert Opening(r)[j] == Head(0x40, r.second, r.serial)[j];
      }
    }
    if SerialRead(r) {
      forall j | 2 <= j < 6 && Covers(r, j)
        ensures Place(SentAccount(r), 9 - j) == Head(0x40, r.second, r.serial)[j]
      {
        var k := j - 2;
        assert Opening(r)[2 + k] / 16 == r.serial[2 * k] % 16;
      }
    }
  }

  lemma ByteFromNibbles(x: Byte, y: Byte)
    ensures x / 16 == y / 16 && x % 16 == y % 16 <==> x == y
  {
  }

  lemma HeadKept(r: Report)
    requires Ready(r) && r.account == 0
    ensures AccountField(Head(0x40, r.second, r.serial), r.account, r.event)[..6] == Head(0x40, r.second, r.serial)
  {
    hide Head, Nibbles;
  }

  lemma HeadNibbles(first: Byte, second: Byte, serial: seq<Byte>, k: nat)
    requires |serial| == 8 && k < 4
    ensures var b := Head(first, second, serial)[2 + k];
            b / 16 == serial[2 * k] % 16 && b % 16 == serial[2 * k + 1] % 16
  {
    PackedNibbles(serial[2 * k], serial[2 * k + 1]);
  }

  lemma PackedNibbles(high: Byte, low: Byte)
    ensures Packed(high, low) / 16 == high % 16 && Packed(high, low) % 16 == low % 16
  {
  }

  // ----- From the log to the receiver -----

  lemma NibbleStep(m: nat, q: nat, d: Byte, k: nat)
    requires m == 16 * q + d && d < 16
    ensures Nibbles(m, k + 1) == Nibbles(q, k) + [d]
  {
  }

  lemma Digits3Step(n: nat)
    ensures Digits3(n) == 16 * Digits2(n / 10) + n % 10
  {
    TenStep(n);
  }

  lemma OneOff(t: nat, d: nat)
    requires d < 10
    ensures (t * 10 + d) / 10 == t
  {
  }

  lemma HundredsOf(n: nat)
    ensures n % 1000 / 100 == n / 10 % 100 / 10 && n % 100 / 10 == n / 10 % 10
  {
    HundredStep(n);
    TenStep(n);
    OneOff(n / 10 % 100, n % 10);
    OneOff(n / 10 % 10, n % 10);
    DivideTwice(n % 1000);
  }

  lemma DivideTwice(n: nat)
    ensures n / 100 == n / 10 / 10
  {
  }

  lemma Digits4Step(n: nat)
    ensures Digits4(n) == 16 * Digits3(n / 10) + n % 10
  {
    HundredStep(n);
    HundredsOf(n);
  }

  lemma NoDigits(n: nat)
    ensures Nibbles(n, 0) == [] && Places(n, 0) == []
  {
  }

  lemma PlaceStep(n: nat, k: nat)
    ensures Places(n, k + 1) == Places(n / 10, k) + [n % 10]
  {
  }

  lemma OneDigit(d: nat)
    requires d < 10
    ensures Nibbles(d, 1) == [d] && Places(d, 1) == [d]
  {
    hide Nibbles, Places;
    NoDigits(0);
    NibbleStep(d, 0, d, 0);
    PlaceStep(d, 0);
  }

  /** The digits in the log are the decimal ones. */
  lemma TwoDigits(n: nat)
    requires n < 100
    ensures Nibbles(Digits2(n), 2) == Places(n, 2)
  {
    hide Nibbles;
    NibbleStep(Digits2(n), n / 10, n % 10, 1);
    OneDigit(n / 10);
  }

  lemma ThreeDigits(n: nat)
    requires n < 1000
    ensures Nibbles(Digits3(n), 3) == Places(n, 3)
  {
    hide Digits2, Digits3, Nibbles;
    TwoDigits(n / 10);
    Digits3Step(n);
    NibbleStep(Digits3(n), Digits2(n / 10), n % 10, 2);
  }

  lemma FourDigits(n: nat)
    requires n < 10000
    ensures Nibbles(Digits4(n), 4) == Places(n, 4)
  {
    hide Digits3, Digits4, Nibbles;
    ThreeDigits(n / 10);
    Digits4Step(n);
    NibbleStep(Digits4(n), Digits3(n / 10), n % 10, 3);
  }

  /** The decimal reading of a frame. */
  datatype Decimals = Decimals(account: nat, qualifier: Byte, code: nat, part: nat, zone: nat)

  function ReadDecimals(s: seq<Byte>): Decimals
    requires 21 <= |s|
  {
    Decimals(Value(10, ReceivedAll(s[6..10])), Received(s[12]), Value(10, ReceivedAll(s[13..16])),
             Value(10, ReceivedAll(s[16..18])), Value(10, ReceivedAll(s[18..21])))
  }

  lemma PlacesReceived(n: nat, k: nat)
    ensures ReceivedAll(SentAll(Places(n, k))) == Places(n, k)
  {
    ReceivedSent(Places(n, k));
  }

  lemma FieldsRead(e: Event, code: nat, part: nat, zone: nat)
    requires code < 1000 && part < 100 && zone < 1000
    requires e.code == Digits3(code) && e.part == Digits2(part) && e.zone == Digits3(zone)
    ensures Value(10, ReceivedAll(SentAll(Nibbles(e.code, 3)))) == code
    ensures Value(10, ReceivedAll(SentAll(Nibbles(e.part, 2)))) == part
    ensures Value(10, ReceivedAll(SentAll(Nibbles(e.zone, 3)))) == zone
  {
    hide Nibbles, Places, Value, Digits2, Digits3, SentAll, ReceivedAll;
    ThreeDigits(code);
    TwoDigits(part);
    ThreeDigits(zone);
    PlacesReceived(code, 3);
    PlacesReceived(part, 2);
    PlacesReceived(zone, 3);
    ValueOfThree(code);
    ValueOfTwo(part);
    ValueOfThree(zone);
  }

  lemma Digits3Injective(m: nat, n: nat)
    requires m < 1000 && n < 1000
    ensures Digits3(m) == Digits3(n) <==> m == n
  {
    hide Nibbles, Places, Value, Digits3;
    ThreeDigits(m);
    ThreeDigits(n);
    ValueOfThree(m);
    ValueOfThree(n);
  }

  lemma AccountRead(r: Report, account: nat)
    requires Ready(r) && account < 10000
    requires r.account == 0 ==> r.event.account == Digits4(account)
    requires r.account != 0 ==> account == SentAccount(r)
    ensures Value(10, ReceivedAll(Opening(r)[6..10])) == account
  {
    hide Nibbles, Places, Value, Digits4, Opening, Head, AccountField, SentAll, ReceivedAll;
    if r.account == 0 {
      OpeningFields(r);
      AccountIsNibbles(r);
      FourDigits(account);
      PlacesReceived(account, 4);
      ValueOfFour(account);
    } else {
      OwnAccountRead(r);
    }
  }

  /** What is logged is what the receiver reads: account, qualifier, code, partition and zone.  The account is that of
      the panel when it has one, except in the events that bring their own; without one, those events are excluded. */
  lemma LoggedEventRead(r: Report, account: nat, qualifier: Byte, code: nat, part: nat, zone: nat)
    requires account < 10000 && qualifier != 10 && code < 1000 && part < 100 && zone < 1000
    requires Ready(r) && r.account < 10000 && r.event == LogEvent(account, qualifier, code, part, zone)
    requires r.account != 0 || code != 888
    ensures ReadDecimals(Opening(r))
            == Decimals(if r.account == 0 || code == 888 then account else r.account,
                        qualifier, code, part, zone)
  {
    hide Nibbles, Value, Digits2, Digits3, Digits4, Opening, Head, AccountField, SentAll, ReceivedAll;
    Digits3Injective(code, REMOTE_ASSAULT);
    AccountRead(r, if r.account == 0 || code == REMOTE_ASSAULT then account else r.account);
    OpeningFields(r);
    FieldsRead(r.event, code, part, zone);
    ReceivedIffNotTen(qualifier);
  }

  /** The excluded case: a panel without an account sends account 10 of such an event as account 0. */
  lemma TenIsLost(r: Report)
    requires Ready(r) && r.account == 0 && r.event == LogEvent(10, 1, 888, 0, 0)
    ensures Value(16, Read(Opening(r)).account) == 0
  {
    hide Value, Digits2, Digits3, Opening, Head, AccountField;
    OpeningFields(r);
    AccountIsNibbles(r);
    assert Nibbles(10, 4) == [0, 0, 0, 10] by {
      assert Nibbles(0, 3) == [0, 0, 0];
    }
    assert ReceivedAll(SentAll(Nibbles(10, 4))) == [0, 0, 0, 0];
    ZeroValue();
  }

  lemma ZeroValue()
    ensures Value(16, [0, 0, 0, 0]) == 0
  {
    assert [0, 0, 0, 0][..3] == [0, 0, 0] && [0, 0, 0][..2] == [0, 0] && [0, 0][..1] == [0];
    assert Value(16, [0, 0]) == 0;
  }

  // ----- The check digit -----

  /** The check digit lies between 1 and 15 and equals the sum of the digits modulo 15. */
  lemma CheckDigitMeaning(r: Report)
    requires Ready(r)
    ensures var s := Opening(r); 1 <= s[21] <= 15 && s[21] % 15 == Sum(s[6..21]) % 15
  {
    hide Opening, Sum, CheckDigit, Raw;
    OpeningParts(r);
    SumPositive(Digits(r));
    CheckDigitModulo(Sum(Digits(r)));
  }

  lemma CheckDigitModulo(n: nat)
    requires 0 < n
    ensures CheckDigit(n) % 15 == n % 15
  {
  }

  lemma {:induction false} SumUpdate(s: seq<Byte>, i: nat, x: Byte)
    requires i < |s|
    ensures Sum(s[i := x]) == Sum(s) - s[i] + x
  {
    var k := |s| - 1;
    if i == k {
      assert s[i := x][..k] == s[..k];
    } else {
      SumUpdate(s[..k], i, x);
      assert s[i := x][..k] == s[..k][i := x];
    }
  }

  lemma {:induction false} SumAtLeast(s: seq<Byte>, i: nat)
    requires i < |s|
    ensures s[i] <= Sum(s)
  {
    if i != |s| - 1 {
      SumAtLeast(s[..|s| - 1], i);
    }
  }

  /** One wrong digit, anywhere, is always revealed. */
  lemma WrongDigitRevealed(s: seq<Byte>, i: nat, x: Byte)
    requires i < |s| && 1 <= s[i] <= 15 && 1 <= x <= 15 && x != s[i]
    ensures 0 < Sum(s) && 0 < Sum(s[i := x])
    ensures CheckDigit(Sum(s[i := x])) != CheckDigit(Sum(s))
  {
    hide Sum;
    SumUpdate(s, i, x);
    SumAtLeast(s, i);
  }

  // ----- The closing byte -----

  lemma XorBits(x: Byte, y: Byte)
    ensures Xor(x, y) as bv8 == (x as bv8) ^ (y as bv8)
  {
  }

  lemma MixDiffers(a: bv8, b: bv8, c: bv8)
    requires a != b
    ensures a ^ c != b ^ c && c ^ a != c ^ b
  {
  }

  lemma NibbleFromBits(x: int)
    requires 0 <= x < 16
    ensures (x as bv8) as int == x && (x as bv8) < 16
  {
  }

  lemma JoinBits(h: bv8, l: bv8)
    requires h < 16 && l < 16
    ensures (h * 16 + l) as int == (h as int) * 16 + l as int
  {
  }

  lemma SameBits(x: int, b: bv8)
    requires 0 <= x < 256 && b as int == x
    ensures x as bv8 == b
  {
  }

  lemma ByteFromBits(x: int)
    requires 0 <= x < 256
    ensures (x as bv8) as int == x
  {
    NibbleFromBits(x / 16);
    NibbleFromBits(x % 16);
    JoinBits((x / 16) as bv8, (x % 16) as bv8);
    SameBits(x, ((x / 16) as bv8) * 16 + ((x % 16) as bv8));
  }

  lemma BytesDiffer(x: Byte, y: Byte)
    requires x != y
    ensures x as bv8 != y as bv8
  {
    ByteFromBits(x);
    ByteFromBits(y);
  }

  lemma XorDiffers(x: Byte, y: Byte, c: Byte)
    requires x != y
    ensures Xor(x, c) != Xor(y, c) && Xor(c, x) != Xor(c, y)
  {
    hide Xor;
    BytesDiffer(x, y);
    MixDiffers(x as bv8, y as bv8, c as bv8);
    XorBits(x, c);
    XorBits(y, c);
    XorBits(c, x);
    XorBits(c, y);
  }

  /** One wrong byte, anywhere, is always revealed. */
  lemma {:induction false} WrongByteRevealed(s: seq<Byte>, i: nat, x: Byte)
    requires i < |s| && x != s[i]
    ensures XorAll(s[i := x]) != XorAll(s)
  {
    hide Xor;
    var k := |s| - 1;
    if i == k {
      assert s[i := x][..k] == s[..k];
      XorDiffers(s[k], x, XorAll(s[..k]));
    } else {
      assert s[i := x][..k] == s[..k][i := x];
      WrongByteRevealed(s[..k], i, x);
      XorDiffers(XorAll(s[..k][i := x]), XorAll(s[..k]), s[k]);
    }
  }

  lemma XorClosed(s: seq<Byte>)
    ensures XorAll(s + [XorAll(s)]) == 0
  {
    assert (s + [XorAll(s)])[..|s|] == s;
    XorSelf(XorAll(s));
  }

  lemma XorSelf(x: Byte)
    ensures Xor(x, x) == 0
  {
  }

  /** All bytes of a frame but the first, together with its closing byte, cancel out. */
  lemma FramesClosed(r: Report, maps: seq<Byte>)
    requires Ready(r) && |maps| == 52
    ensures XorAll(Frame6(r)[1..]) == 0 && XorAll(Frame7(r, maps)[1..]) == 0
  {
    hide Opening, XorAll;
    var s := Opening(r);
    XorClosed(s[1..]);
    assert Frame6(r)[1..] == s[1..] + [XorAll(s[1..])];
    XorClosed((s + maps)[1..]);
    assert Frame7(r, maps)[1..] == (s + maps)[1..] + [XorAll((s + maps)[1..])];
  }
}
