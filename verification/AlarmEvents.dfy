/** The encoder of alarm changes: it compares the alarm byte with the byte of the previous call and logs one
    Contact-ID event for every bit that rose or fell, and the zones behind a treasury alarm.
 */
module AlarmEvents {

  // ----- Bits -----

  predicate Has(b: bv8, m: bv8) {
    b & m != 0
  }

  predicate OneBit(m: bv8) {
    m in {0x01, 0x02, 0x04, 0x08, 0x10, 0x20, 0x40, 0x80}
  }

  const ASAL: bv8 := 0x01
  const INCE: bv8 := 0x02
  const TESO: bv8 := 0x04
  const ROTU: bv8 := 0x08
  const LLOP: bv8 := 0x20
  const F220: bv8 := 0x40
  const NORMAL: bv8 := 0x80

  /** The mask of zone `k`, in the memory of triggered devices and in the record of open zone events. */
  function ZoneMask(k: nat): bv8
    requires k < 8
  {
    match k
    case 0 => 0x01
    case 1 => 0x02
    case 2 => 0x04
    case 3 => 0x08
    case 4 => 0x10
    case 5 => 0x20
    case 6 => 0x40
    case _ => 0x80
  }

  function Diff(last: bv8, now: bv8): bv8 {
    last ^ now
  }

  function Risen(last: bv8, now: bv8): bv8 {
    Diff(last, now) & now
  }

  function Fallen(last: bv8, now: bv8): bv8 {
    Diff(last, now) & !now
  }

  lemma RisenBit(last: bv8, now: bv8, m: bv8)
    requires OneBit(m)
    ensures Has(Risen(last, now), m) <==> !Has(last, m) && Has(now, m)
  {
  }

  lemma FallenBit(last: bv8, now: bv8, m: bv8)
    requires OneBit(m)
    ensures Has(Fallen(last, now), m) <==> Has(last, m) && !Has(now, m)
  {
  }

  lemma SetBit(b: bv8, m: bv8, other: bv8)
    requires OneBit(m) && OneBit(other)
    ensures Has(b | m, other) <==> other == m || Has(b, other)
  {
  }

  lemma ClearBit(b: bv8, m: bv8, other: bv8)
    requires OneBit(m) && OneBit(other)
    ensures Has(b & !m, other) <==> other != m && Has(b, other)
  {
  }

  lemma ZoneMasks(j: nat, k: nat)
    requires j < 8 && k < 8
    ensures OneBit(ZoneMask(k)) && (ZoneMask(j) == ZoneMask(k) <==> j == k)
  {
  }

  // ----- The log -----

  const EVENT: nat := 1
  const RESTORE: nat := 3

  datatype Cid = Cid(qualifier: nat, code: nat, part: nat, zone: nat)

  /** What the encoder keeps between calls. */
  datatype Panel = Panel(last: bv8, open: bv8, log: seq<Cid>)

  /** The inputs of one call: the alarm byte, the memory of triggered devices, the mode that shifts summary events
      to partition 1, and whether each of the three rearmed alarms clears the flag for normal operation. */
  datatype Input = Input(alarm: bv8, memory: bv8, macro: bool, rearmAsal: bool, rearmTeso: bool, rearmInce: bool)

  function Log(p: Panel, qualifier: nat, code: nat, part: nat, zone: nat): Panel {
    p.(log := p.log + [Cid(qualifier, code, part, zone)])
  }

  function Summary(p: Panel, qualifier: nat, code: nat, macro: bool): Panel {
    Log(p, qualifier, code, if macro then 1 else 0, 0)
  }

  function ZonePart(k: nat): nat {
    6 + k / 2
  }

  function ZoneNumber(k: nat): nat {
    61 + k % 2 + 10 * (k / 2)
  }

  // ----- One call, on values -----

  /** A restore with a second event for the partition of its own. */
  function RestorePair(p: Panel, fallen: bv8, m: bv8, code: nat, part: nat, macro: bool): Panel {
    if Has(fallen, m) then Log(Summary(p, RESTORE, code, macro), RESTORE, code, part, 0) else p
  }

  function Single(p: Panel, changed: bv8, m: bv8, qualifier: nat, code: nat, macro: bool): Panel {
    if Has(changed, m) then Summary(p, qualifier, code, macro) else p
  }

  /** The restore of zone `k`, if its event is open. */
  function CloseZone(p: Panel, k: nat): Panel
    requires k < 8
  {
    if Has(p.open, ZoneMask(k)) then Log(p, RESTORE, 130, ZonePart(k), ZoneNumber(k)).(open := p.open & !ZoneMask(k))
    else p
  }

  function CloseZones(p: Panel, k: nat): Panel
    requires k <= 8
  {
    if k == 0 then p else CloseZone(CloseZones(p, k - 1), k - 1)
  }

  function RestoreTeso(p: Panel, fallen: bv8, macro: bool): Panel {
    if Has(fallen, TESO) then CloseZones(RestorePair(p, fallen, TESO, 130, 4, macro), 8) else p
  }

  function Restores(p: Panel, fallen: bv8, macro: bool): Panel {
    var p1 := RestorePair(p, fallen, ASAL, 120, 2, macro);
    var p2 := RestoreTeso(p1, fallen, macro);
    var p3 := RestorePair(p2, fallen, INCE, 110, 3, macro);
    var p4 := Single(p3, fallen, ROTU, RESTORE, 380, macro);
    var p5 := Single(p4, fallen, F220, RESTORE, 301, macro);
    Single(p5, fallen, LLOP, RESTORE, 393, macro)
  }

  /** The first zone from `k` on that the memory names, or 8. */
  function FirstZone(memory: bv8, k: nat): (r: nat)
    requires k <= 8
    ensures k <= r <= 8
    ensures r < 8 ==> Has(memory, ZoneMask(r))
    ensures forall j | k <= j < r :: !Has(memory, ZoneMask(j))
    decreases 8 - k
  {
    if k == 8 || Has(memory, ZoneMask(k)) then k else FirstZone(memory, k + 1)
  }

  function OpenZone(p: Panel, memory: bv8): Panel {
    var k := FirstZone(memory, 0);
    if k < 8 then Log(p, EVENT, 130, ZonePart(k), ZoneNumber(k)).(open := p.open | ZoneMask(k)) else p
  }

  function EventTeso(p: Panel, risen: bv8, memory: bv8, macro: bool): Panel {
    if Has(risen, TESO) then Summary(OpenZone(p, memory), EVENT, 130, macro) else p
  }

  function Events(p: Panel, risen: bv8, memory: bv8, macro: bool): Panel {
    var p1 := Single(p, risen, ASAL, EVENT, 120, macro);
    var p2 := EventTeso(p1, risen, memory, macro);
    var p3 := Single(p2, risen, INCE, EVENT, 110, macro);
    var p4 := Single(p3, risen, ROTU, EVENT, 380, macro);
    var p5 := Single(p4, risen, F220, EVENT, 301, macro);
    Single(p5, risen, LLOP, EVENT, 393, macro)
  }

  /** A rearm marks the panel as no longer in normal operation. */
  function Rearm(alarm: bv8, rearm: bool): bv8 {
    if rearm then alarm & !NORMAL else alarm
  }

  /** The alarm byte after the rearms that the risen bits call for. */
  function RearmAll(alarm: bv8, risen: bv8, input: Input): bv8 {
    var a1 := Rearm(alarm, Has(risen, ASAL) && input.rearmAsal);
    var a2 := Rearm(a1, Has(risen, TESO) && input.rearmTeso);
    Rearm(a2, Has(risen, INCE) && input.rearmInce)
  }

  function AlarmAfter(last: bv8, input: Input): bv8 {
    RearmAll(input.alarm, Risen(last, input.alarm), input)
  }

  /** One call.  After a processor reset the previous byte is first replaced by the present one. */
  function Detect(p: Panel, input: Input, reset: bool): Panel {
    var p0 := if reset then p.(last := input.alarm) else p;
    var p1 := Restores(p0, Fallen(p0.last, input.alarm), input.macro);
    var p2 := Events(p1, Risen(p0.last, input.alarm), input.memory, input.macro);
    p2.(last := AlarmAfter(p0.last, input))
  }

  // ----- A processor reset -----

  /** What the flash keeps over a reset: two records with a copy of the alarm byte each, and in the second a flag for
      a break in the EVO line.  A record without its marks is not valid. */
  datatype Saved = Saved(valid: bool, alarm: bv8, valid2: bool, alarm2: bv8, evo: bool)

  /** The detection task while it starts: the alarm byte, the byte to compare it with, and the records. */
  datatype Starting = Starting(alarm: bv8, last: bv8, saved: Saved)

  /** From the first record the alarms of fire, assault, treasury, opening and mains come back. */
  const RECOVERED: bv8 := 0x57

  function ReadAlarm(s: Saved): Starting {
    var alarm := if s.valid then s.alarm & RECOVERED else NORMAL;
    Starting(alarm, alarm, s)
  }

  function WithBreak(alarm: bv8): bv8 {
    alarm | ROTU
  }

  /** A copy that cannot be one of an alarm: the flag for normal operation together with others. */
  predicate Implausible(alarm: bv8) {
    alarm > 0x80
  }

  /** From the second record the break alarm comes back, unless its copy is implausible: then it is written again. */
  function ReadBreak(t: Starting): Starting {
    if !t.saved.valid2 then t
    else
      var alarm := if t.saved.evo then WithBreak(t.alarm) else t.alarm;
      if Implausible(t.saved.alarm2) then Starting(alarm, t.last, t.saved.(alarm2 := alarm))
      else if Has(t.saved.alarm2, ROTU) then Starting(WithBreak(alarm), WithBreak(t.last), t.saved)
      else t.(alarm := alarm)
  }

  /** The second record is read twice. */
  function StartUp(s: Saved): Starting {
    ReadBreak(ReadBreak(ReadAlarm(s)))
  }

  /** A processor reset: the byte to compare with comes from the flash, and the open zones are forgotten. */
  function Boot(p: Panel, s: Saved): Panel {
    p.(last := StartUp(s).last, open := 0)
  }
}
