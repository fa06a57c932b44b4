/** The Contact-ID frames: an event as digits, a check digit modulo 15, a time stamp, partition maps and a closing
    exclusive-or.
 */
module ContactId {

  type Byte = x: int | 0 <= x < 256
  type Word = x: int | 0 <= x < 0x1_0000

  // ----- Bits of a byte -----

  function Mask(k: nat): bv8
    requires k < 8
  {
    match k
    case 0 => 0x01
    case 1 => 0x02
    case 2 => 0x04
    case 3 => 0x08
    case 4 => 0x10
    case 5 => 0x20
    case 6 => 0x40
    case _ => 0x80
  }

  predicate Bit(b: Byte, k: nat)
    requires k < 8
  {
    (b as bv8) & Mask(k) != 0
  }

  function WithBit(b: Byte, k: nat): Byte
    requires k < 8
  {
    ((b as bv8) | Mask(k)) as int
  }

  function WithoutBit(b: Byte, k: nat): Byte
    requires k < 8
  {
    ((b as bv8) & !Mask(k)) as int
  }

  function Xor(x: Byte, y: Byte): Byte {
    ((x as bv8) ^ (y as bv8)) as int
  }

  // ----- Events -----

  /** An event in the log: account, code, partition and zone are packed four bits a digit. */
  datatype Event = Event(account: Word, qualifier: Byte, code: Word, part: Byte, zone: Word)

  /** The calendar time of an event. */
  datatype Clock = Clock(hour: nat, min: nat, sec: nat, mday: nat, mon: nat, year: nat)

  predicate OnCalendar(c: Clock) {
    c.hour < 24 && c.min < 60 && c.sec < 60 && 1 <= c.mday <= 31 && c.mon < 12 && 1000 <= c.year < 10000
  }

  function Digits2(n: nat): nat {
    n / 10 * 16 + n % 10
  }

  function Digits3(n: nat): nat {
    n / 100 * 256 + n % 100 / 10 * 16 + n % 10
  }

  function Digits4(n: nat): nat {
    n / 1000 * 4096 + n % 1000 / 100 * 256 + n % 100 / 10 * 16 + n % 10
  }

  /** The code of the events that keep their account as a number instead of digits. */
  const REMOTE_ASSAULT: nat := 888

  /** The event that the log keeps for an account, a qualifier, a code, a partition and a zone, all within their
      digits. */
  function LogEvent(account: nat, qualifier: Byte, code: nat, part: nat, zone: nat): Event
    requires account < 10000 && code < 1000 && part < 100 && zone < 1000
  {
    var kept := if code == REMOTE_ASSAULT then account else Digits4(account);
    Event(kept, qualifier, Digits3(code), Digits2(part), Digits3(zone))
  }

  // ----- Digits -----

  /** The decimal digits of a number, the first one first. */
  function Decimal(n: nat): (r: seq<Byte>)
    ensures 0 < |r|
  {
    if n < 10 then [n] else Decimal(n / 10) + [n % 10]
  }

  /** The last `k` digits of four bits. */
  function Nibbles(n: nat, k: nat): (r: seq<Byte>)
    ensures |r| == k && forall i | 0 <= i < k :: r[i] < 16
  {
    if k == 0 then [] else Nibbles(n / 16, k - 1) + [n % 16]
  }

  /** The first ten bytes: two of header, four of serial number and four digits of account.  An account of more than
      four decimal digits runs over the bytes before. */
  function AccountField(head: seq<Byte>, account: nat, e: Event): (r: seq<Byte>)
    requires |head| == 6 && account < 0x8000_0000
    ensures |r| == 10
  {
    if account != 0 then
      var digits := Decimal(if e.code == Digits3(REMOTE_ASSAULT) then e.account else account);
      DecimalLength(if e.code == Digits3(REMOTE_ASSAULT) then e.account else account, 10);
      (head + [0, 0, 0, 0])[..10 - |digits|] + digits
    else
      head + Nibbles(e.account, 4)
  }

  function Power(base: nat, k: nat): nat {
    if k == 0 then 1 else base * Power(base, k - 1)
  }

  lemma {:induction false} PowerPositive(base: nat, k: nat)
    requires 0 < base
    ensures 1 <= Power(base, k)
  {
    if k != 0 {
      PowerPositive(base, k - 1);
      assert 1 * 1 <= base * Power(base, k - 1);
    }
  }

  lemma {:induction false} DecimalLength(n: nat, k: nat)
    requires 0 < k
    ensures |Decimal(n)| <= k <==> n < Power(10, k)
  {
    PowerPositive(10, k - 1);
    if k == 1 {
      assert Power(10, 1) == 10;
    } else if n >= 10 {
      DecimalLength(n / 10, k - 1);
    }
  }

  /** The event after its account: the fixed digits 1 and 8, then one byte for each digit. */
  function EventField(e: Event): (r: seq<Byte>)
    ensures |r| == 11
  {
    [1, 8, e.qualifier] + Nibbles(e.code, 3) + Nibbles(e.part, 2) + Nibbles(e.zone, 3)
  }

  /** A zero digit is sent as ten. */
  function Sent(d: Byte): (r: Byte)
    ensures r != 0
  {
    if d == 0 then 10 else d
  }

  function SentAll(s: seq<Byte>): (r: seq<Byte>)
    ensures |r| == |s| && forall i | 0 <= i < |s| :: r[i] == Sent(s[i])
  {
    seq(|s|, i requires 0 <= i < |s| => Sent(s[i]))
  }

  function Sum(s: seq<Byte>): nat {
    if s == [] then 0 else Sum(s[..|s| - 1]) + s[|s| - 1]
  }

  /** The remainder modulo 15, with 15 for 0. */
  function CheckDigit(n: nat): (r: Byte)
    requires 0 < n
    ensures 1 <= r <= 15
  {
    (n - 1) % 15 + 1
  }

  function XorAll(s: seq<Byte>): Byte {
    if s == [] then 0 else Xor(XorAll(s[..|s| - 1]), s[|s| - 1])
  }

  // ----- Frames -----

  function Two(n: nat): seq<Byte>
    requires n < 100
  {
    [0x30 + n / 10, 0x30 + n % 10]
  }

  function Stamp(c: Clock): (r: seq<Byte>)
    requires OnCalendar(c)
    ensures |r| == 14
  {
    Two(c.hour) + Two(c.min) + Two(c.sec) + Two(c.mday) + Two(c.mon + 1) + Two(c.year / 100) + Two(c.year % 100)
  }

  function Head(first: Byte, second: Byte, serial: seq<Byte>): (r: seq<Byte>)
    requires |serial| == 8
    ensures |r| == 6
  {
    [first, second, Packed(serial[0], serial[1]), Packed(serial[2], serial[3]), Packed(serial[4], serial[5]),
     Packed(serial[6], serial[7])]
  }

  function Packed(high: Byte, low: Byte): Byte {
    high % 16 * 16 + low % 16
  }

  /** What goes into a frame; `second` is the second byte of the header, of which each encoder sets its own. */
  datatype Report = Report(second: Byte, serial: seq<Byte>, account: nat, event: Event, clock: Clock, count: Byte)

  predicate Ready(r: Report) {
    |r.serial| == 8 && r.account < 0x8000_0000 && OnCalendar(r.clock)
  }

  /** The first twenty-one bytes before zeros are recoded. */
  function Raw(r: Report): (s: seq<Byte>)
    requires Ready(r)
    ensures |s| == 21
  {
    AccountField(Head(0x40, r.second, r.serial), r.account, r.event) + EventField(r.event)
  }

  function Digits(r: Report): (s: seq<Byte>)
    requires Ready(r)
    ensures |s| == 15
  {
    SentAll(Raw(r)[6..])
  }

  lemma SumPositive(s: seq<Byte>)
    requires s != [] && s[|s| - 1] != 0
    ensures 0 < Sum(s)
  {
  }

  function Opening(r: Report): (s: seq<Byte>)
    requires Ready(r)
    ensures |s| == 42
  {
    SumPositive(Digits(r));
    Raw(r)[..6] + Digits(r) + [CheckDigit(Sum(Digits(r)))] + [r.count, 0, 0x51, 0, 0, 0] + Stamp(r.clock)
  }

  /** The frame of 43 bytes. */
  function Frame6(r: Report): (s: seq<Byte>)
    requires Ready(r)
    ensures |s| == 43
  {
    Opening(r) + [XorAll(Opening(r)[1..])]
  }

  /** The frame of 95 bytes, with four partition maps of 13 bytes. */
  function Frame7(r: Report, maps: seq<Byte>): (s: seq<Byte>)
    requires Ready(r) && |maps| == 52
    ensures |s| == 95
  {
    Opening(r) + maps + [XorAll((Opening(r) + maps)[1..])]
  }
}
