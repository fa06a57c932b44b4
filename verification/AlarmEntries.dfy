/** What one call of the encoder appends to the log, entry by entry: qualifier 1 or 3, code, partition and zone, as the
    receiving station knows them.
 */
module AlarmEntries {
  import opened AlarmEvents

  // ----- The entries -----

  predicate Rose(last: bv8, now: bv8, mask: bv8) {
    last & mask == 0 && now & mask != 0
  }

  predicate Fell(last: bv8, now: bv8, mask: bv8) {
    last & mask != 0 && now & mask == 0
  }

  predicate Marked(b: bv8, mask: bv8) {
    b & mask != 0
  }

  function When(c: bool, entries: seq<Cid>): seq<Cid> {
    if c then entries else []
  }

  /** The places of a zone: its bit, in the memory of devices and in the record of open zones, its partition and its
      number. */
  datatype Place = Place(mask: bv8, part: nat, zone: nat)

  const ZONES: seq<Place> := [
    Place(0x01, 6, 61), Place(0x02, 6, 62), Place(0x04, 7, 71), Place(0x08, 7, 72),
    Place(0x10, 8, 81), Place(0x20, 8, 82), Place(0x40, 9, 91), Place(0x80, 9, 92)]

  function ZoneOf(k: nat): Place
    requires k < 8
  {
    ZONES[k]
  }

  /** The restores of the open ones among the first `k` zones. */
  function ZoneRestores(open: bv8, k: nat): seq<Cid>
    requires k <= 8
  {
    if k == 0 then []
    else ZoneRestores(open, k - 1)
         + When(Marked(open, ZoneOf(k - 1).mask), [Cid(3, 130, ZoneOf(k - 1).part, ZoneOf(k - 1).zone)])
  }

  /** The event of the first zone in memory, from zone `k` on. */
  function ZoneEvent(memory: bv8, k: nat): seq<Cid>
    requires k <= 8
    decreases 8 - k
  {
    if k == 8 then []
    else if Marked(memory, ZoneOf(k).mask) then [Cid(1, 130, ZoneOf(k).part, ZoneOf(k).zone)]
    else ZoneEvent(memory, k + 1)
  }

  /** The record of open zones with the first zone in memory added. */
  function Opened(open: bv8, memory: bv8): bv8 {
    open | FirstBit(memory, 0)
  }

  /** The lowest bit of the memory. */
  function FirstBit(memory: bv8, k: nat): bv8
    requires k <= 8
    decreases 8 - k
  {
    if k == 8 then 0 else if Marked(memory, ZoneOf(k).mask) then ZoneOf(k).mask else FirstBit(memory, k + 1)
  }

  /** The restores: assault with partition 2, treasury with partition 4 and the open zones, fire with partition
      3, break, mains and code 393; `m` is the partition of the summary entries. */
  function RestoreEntries(last: bv8, now: bv8, open: bv8, m: nat): seq<Cid> {
    When(Fell(last, now, 0x01), [Cid(3, 120, m, 0), Cid(3, 120, 2, 0)])
    + When(Fell(last, now, 0x04), [Cid(3, 130, m, 0), Cid(3, 130, 4, 0)] + ZoneRestores(open, 8))
    + When(Fell(last, now, 0x02), [Cid(3, 110, m, 0), Cid(3, 110, 3, 0)])
    + When(Fell(last, now, 0x08), [Cid(3, 380, m, 0)])
    + When(Fell(last, now, 0x40), [Cid(3, 301, m, 0)])
    + When(Fell(last, now, 0x20), [Cid(3, 393, m, 0)])
  }

  /** The events, in the same order; the zone comes before the treasury alarm. */
  function EventEntries(last: bv8, now: bv8, memory: bv8, m: nat): seq<Cid> {
    When(Rose(last, now, 0x01), [Cid(1, 120, m, 0)])
    + When(Rose(last, now, 0x04), ZoneEvent(memory, 0) + [Cid(1, 130, m, 0)])
    + When(Rose(last, now, 0x02), [Cid(1, 110, m, 0)])
    + When(Rose(last, now, 0x08), [Cid(1, 380, m, 0)])
    + When(Rose(last, now, 0x40), [Cid(1, 301, m, 0)])
    + When(Rose(last, now, 0x20), [Cid(1, 393, m, 0)])
  }

  // ----- The blocks of a call -----

  lemma Glue(a: seq<Cid>, b: seq<Cid>, c: seq<Cid>)
    ensures (a + b) + c == a + (b + c)
  {
  }

  lemma RoseIs(last: bv8, now: bv8, mask: bv8)
    requires OneBit(mask)
    ensures Has(Risen(last, now), mask) <==> Rose(last, now, mask)
  {
    RisenBit(last, now, mask);
  }

  lemma FellIs(last: bv8, now: bv8, mask: bv8)
    requires OneBit(mask)
    ensures Has(Fallen(last, now), mask) <==> Fell(last, now, mask)
  {
    FallenBit(last, now, mask);
  }

  lemma SingleAppends(p: Panel, changed: bv8, mask: bv8, qualifier: nat, code: nat, macro: bool)
    ensures var p' := Single(p, changed, mask, qualifier, code, macro);
            && p'.open == p.open
            && p'.log == p.log + When(Has(changed, mask), [Cid(qualifier, code, if macro then 1 else 0, 0)])
  {
    hide Has;
  }

  lemma PairAppends(p: Panel, fallen: bv8, mask: bv8, code: nat, part: nat, macro: bool)
    ensures var p' := RestorePair(p, fallen, mask, code, part, macro);
            && p'.open == p.open
            && p'.log == p.log + When(Has(fallen, mask),
                                      [Cid(3, code, if macro then 1 else 0, 0), Cid(3, code, part, 0)])
  {
    hide Has;
    Glue(p.log, [Cid(3, code, if macro then 1 else 0, 0)], [Cid(3, code, part, 0)]);
  }

  /** Each zone has its own place in the list. */
  lemma ZoneAt(k: nat)
    requires k < 8
    ensures ZoneMask(k) == ZoneOf(k).mask && ZonePart(k) == ZoneOf(k).part && ZoneNumber(k) == ZoneOf(k).zone
  {
  }

  function Both(a: bv8, b: bv8): bv8 {
    a & b
  }

  function Without(a: bv8, mask: bv8): bv8 {
    a & !mask
  }

  /** The bits from `k` on. */
  function From(k: nat): bv8
    requires k <= 8
  {
    if k == 0 then 0xFF else Without(From(k - 1), ZoneOf(k - 1).mask)
  }

  lemma FromHas(k: nat)
    requires k < 8
    ensures From(8) == 0 && From(k) & ZoneOf(k).mask == ZoneOf(k).mask
  {
    assert From(1) == 0xFE && From(2) == 0xFC && From(3) == 0xF8 && From(4) == 0xF0;
    assert From(5) == 0xE0 && From(6) == 0xC0 && From(7) == 0x80;
  }

  /** What is left of the record when the first `k` zones are closed. */
  function Left(open: bv8, k: nat): bv8
    requires k <= 8
  {
    Both(open, From(k))
  }

  lemma BitsLeft(open: bv8, from: bv8, mask: bv8)
    requires from & mask == mask
    ensures Marked(Both(open, from), mask) <==> Marked(open, mask)
    ensures Both(open, Without(from, mask))
            == if Marked(open, mask) then Without(Both(open, from), mask) else Both(open, from)
  {
  }

  lemma LeftStep(open: bv8, k: nat)
    requires k < 8
    ensures Marked(Left(open, k), ZoneOf(k).mask) <==> Marked(open, ZoneOf(k).mask)
    ensures Left(open, k + 1)
            == if Marked(open, ZoneOf(k).mask) then Without(Left(open, k), ZoneOf(k).mask) else Left(open, k)
  {
    hide ZoneOf, Marked, Both, Without;
    FromHas(k);
    BitsLeft(open, From(k), ZoneOf(k).mask);
  }

  lemma MarkedIsHas(b: bv8, mask: bv8)
    ensures Has(b, mask) == Marked(b, mask)
  {
  }

  lemma CloseOne(p: Panel, k: nat)
    requires k < 8
    ensures var p', z := CloseZone(p, k), ZoneOf(k);
            && p'.log == p.log + When(Marked(p.open, z.mask), [Cid(3, 130, z.part, z.zone)])
            && p'.open == if Marked(p.open, z.mask) then Without(p.open, z.mask) else p.open
  {
    hide ZoneMask, ZonePart, ZoneNumber, ZoneOf, Has, Marked;
    ZoneAt(k);
    MarkedIsHas(p.open, ZoneOf(k).mask);
  }

  lemma {:induction false} CloseAppends(p: Panel, k: nat)
    requires k <= 8
    ensures var p' := CloseZones(p, k);
            p'.log == p.log + ZoneRestores(p.open, k) && p'.open == Left(p.open, k)
  {
    hide ZoneOf, Marked, Left, CloseZone, When;
    if k == 0 {
      AllBits(p.open);
    } else {
      var p1, z := CloseZones(p, k - 1), ZoneOf(k - 1);
      CloseAppends(p, k - 1);
      CloseOne(p1, k - 1);
      LeftStep(p.open, k - 1);
      Glue(p.log, ZoneRestores(p.open, k - 1), When(Marked(p.open, z.mask), [Cid(3, 130, z.part, z.zone)]));
    }
  }

  lemma AllBits(open: bv8)
    ensures Left(open, 0) == open && Left(open, 8) == 0
  {
    FromHas(0);
  }

  lemma RestoreTesoAppends(p: Panel, fallen: bv8, macro: bool)
    ensures var p', m := RestoreTeso(p, fallen, macro), if macro then 1 else 0;
            && p'.open == (if Has(fallen, TESO) then 0 else p.open)
            && p'.log == p.log + When(Has(fallen, TESO),
                                      [Cid(3, 130, m, 0), Cid(3, 130, 4, 0)] + ZoneRestores(p.open, 8))
  {
    hide Has, CloseZones, ZoneRestores, Left;
    var m := if macro then 1 else 0;
    var p1 := RestorePair(p, fallen, TESO, 130, 4, macro);
    PairAppends(p, fallen, TESO, 130, 4, macro);
    CloseAppends(p1, 8);
    AllBits(p1.open);
    Glue(p.log, [Cid(3, 130, m, 0), Cid(3, 130, 4, 0)], ZoneRestores(p.open, 8));
  }

  lemma Append3(log: seq<Cid>, a: seq<Cid>, b: seq<Cid>, c: seq<Cid>)
    ensures ((log + a) + b) + c == log + (a + b + c)
  {
  }

  lemma RestoresAppend(p: Panel, last: bv8, now: bv8, macro: bool)
    ensures var p' := Restores(p, Fallen(last, now), macro);
            && p'.open == (if Fell(last, now, 0x04) then 0 else p.open)
            && p'.log == p.log + RestoreEntries(last, now, p.open, if macro then 1 else 0)
  {
    hide Has, Fell, RestorePair, RestoreTeso, Single, ZoneRestores, When, Fallen, OneBit;
    var fallen, m := Fallen(last, now), if macro then 1 else 0;
    FellMasks(last, now);
    var p1 := RestorePair(p, fallen, ASAL, 120, 2, macro);
    var p2 := RestoreTeso(p1, fallen, macro);
    var p3 := RestorePair(p2, fallen, INCE, 110, 3, macro);
    var p4 := Single(p3, fallen, ROTU, RESTORE, 380, macro);
    var p5 := Single(p4, fallen, F220, RESTORE, 301, macro);
    PairAppends(p, fallen, ASAL, 120, 2, macro);
    RestoreTesoAppends(p1, fallen, macro);
    PairAppends(p2, fallen, INCE, 110, 3, macro);
    SingleAppends(p3, fallen, ROTU, RESTORE, 380, macro);
    SingleAppends(p4, fallen, F220, RESTORE, 301, macro);
    SingleAppends(p5, fallen, LLOP, RESTORE, 393, macro);
    var x1 := When(Fell(last, now, 0x01), [Cid(3, 120, m, 0), Cid(3, 120, 2, 0)]);
    var x2 := When(Fell(last, now, 0x04), [Cid(3, 130, m, 0), Cid(3, 130, 4, 0)] + ZoneRestores(p.open, 8));
    var x3 := When(Fell(last, now, 0x02), [Cid(3, 110, m, 0), Cid(3, 110, 3, 0)]);
    var x4 := When(Fell(last, now, 0x08), [Cid(3, 380, m, 0)]);
    var x5 := When(Fell(last, now, 0x40), [Cid(3, 301, m, 0)]);
    var x6 := When(Fell(last, now, 0x20), [Cid(3, 393, m, 0)]);
    assert p3.log == ((p.log + x1) + x2) + x3;
    Append3(p.log, x1, x2, x3);
    Glue(p.log, x1 + x2 + x3, x4);
    Glue(p.log, x1 + x2 + x3 + x4, x5);
    Glue(p.log, x1 + x2 + x3 + x4 + x5, x6);
  }

  lemma FellMasks(last: bv8, now: bv8)
    ensures Has(Fallen(last, now), ASAL) <==> Fell(last, now, 0x01)
    ensures Has(Fallen(last, now), TESO) <==> Fell(last, now, 0x04)
    ensures Has(Fallen(last, now), INCE) <==> Fell(last, now, 0x02)
    ensures Has(Fallen(last, now), ROTU) <==> Fell(last, now, 0x08)
    ensures Has(Fallen(last, now), F220) <==> Fell(last, now, 0x40)
    ensures Has(Fallen(last, now), LLOP) <==> Fell(last, now, 0x20)
  {
    hide Has, Fell, Fallen;
    FellIs(last, now, 0x01);
    FellIs(last, now, 0x04);
    FellIs(last, now, 0x02);
    FellIs(last, now, 0x08);
    FellIs(last, now, 0x40);
    FellIs(last, now, 0x20);
  }

  lemma RoseMasks(last: bv8, now: bv8)
    ensures Has(Risen(last, now), ASAL) <==> Rose(last, now, 0x01)
    ensures Has(Risen(last, now), TESO) <==> Rose(last, now, 0x04)
    ensures Has(Risen(last, now), INCE) <==> Rose(last, now, 0x02)
    ensures Has(Risen(last, now), ROTU) <==> Rose(last, now, 0x08)
    ensures Has(Risen(last, now), F220) <==> Rose(last, now, 0x40)
    ensures Has(Risen(last, now), LLOP) <==> Rose(last, now, 0x20)
  {
    hide Has, Rose, Risen;
    RoseIs(last, now, 0x01);
    RoseIs(last, now, 0x04);
    RoseIs(last, now, 0x02);
    RoseIs(last, now, 0x08);
    RoseIs(last, now, 0x40);
    RoseIs(last, now, 0x20);
  }

  lemma {:induction false} FirstZoneEntry(memory: bv8, k: nat)
    requires k <= 8
    ensures var z := FirstZone(memory, k);
            if z < 8 then ZoneEvent(memory, k) == [Cid(1, 130, ZoneOf(z).part, ZoneOf(z).zone)]
                          && FirstBit(memory, k) == ZoneOf(z).mask
            else ZoneEvent(memory, k) == [] && FirstBit(memory, k) == 0
    decreases 8 - k
  {
    hide ZoneMask, ZoneOf, Has, Marked;
    if k < 8 {
      ZoneAt(k);
      MarkedIsHas(memory, ZoneOf(k).mask);
      FirstZoneEntry(memory, k + 1);
    }
  }

  lemma OpenAppends(p: Panel, memory: bv8)
    ensures var p' := OpenZone(p, memory);
            p'.log == p.log + ZoneEvent(memory, 0) && p'.open == Opened(p.open, memory)
  {
    hide ZoneMask, ZonePart, ZoneNumber, ZoneOf, FirstZone, ZoneEvent, Opened, Has;
    FirstZoneEntry(memory, 0);
    OpenedIs(p.open, memory);
    if FirstZone(memory, 0) < 8 {
      ZoneAt(FirstZone(memory, 0));
    }
  }

  lemma OpenedIs(open: bv8, memory: bv8)
    ensures var z := FirstZone(memory, 0);
            Opened(open, memory) == if z < 8 then open | ZoneOf(z).mask else open
  {
    hide ZoneOf, FirstZone, FirstBit, Has;
    FirstZoneEntry(memory, 0);
  }

  lemma EventTesoAppends(p: Panel, risen: bv8, memory: bv8, macro: bool)
    ensures var p', m := EventTeso(p, risen, memory, macro), if macro then 1 else 0;
            && p'.open == (if Has(risen, TESO) then Opened(p.open, memory) else p.open)
            && p'.log == p.log + When(Has(risen, TESO), ZoneEvent(memory, 0) + [Cid(1, 130, m, 0)])
  {
    hide Has, OpenZone, ZoneEvent, Opened;
    OpenAppends(p, memory);
    Glue(p.log, ZoneEvent(memory, 0), [Cid(1, 130, if macro then 1 else 0, 0)]);
  }

  lemma EventsAppend(p: Panel, last: bv8, now: bv8, memory: bv8, macro: bool)
    ensures var p' := Events(p, Risen(last, now), memory, macro);
            && p'.open == (if Rose(last, now, 0x04) then Opened(p.open, memory) else p.open)
            && p'.log == p.log + EventEntries(last, now, memory, if macro then 1 else 0)
  {
    hide Has, Rose, EventTeso, Single, ZoneEvent, Opened, When, Risen, OneBit;
    var risen, m := Risen(last, now), if macro then 1 else 0;
    RoseMasks(last, now);
    var p1 := Single(p, risen, ASAL, EVENT, 120, macro);
    var p2 := EventTeso(p1, risen, memory, macro);
    var p3 := Single(p2, risen, INCE, EVENT, 110, macro);
    var p4 := Single(p3, risen, ROTU, EVENT, 380, macro);
    var p5 := Single(p4, risen, F220, EVENT, 301, macro);
    SingleAppends(p, risen, ASAL, EVENT, 120, macro);
    EventTesoAppends(p1, risen, memory, macro);
    SingleAppends(p2, risen, INCE, EVENT, 110, macro);
    SingleAppends(p3, risen, ROTU, EVENT, 380, macro);
    SingleAppends(p4, risen, F220, EVENT, 301, macro);
    SingleAppends(p5, risen, LLOP, EVENT, 393, macro);
    var x1 := When(Rose(last, now, 0x01), [Cid(1, 120, m, 0)]);
    var x2 := When(Rose(last, now, 0x04), ZoneEvent(memory, 0) + [Cid(1, 130, m, 0)]);
    var x3 := When(Rose(last, now, 0x02), [Cid(1, 110, m, 0)]);
    var x4 := When(Rose(last, now, 0x08), [Cid(1, 380, m, 0)]);
    var x5 := When(Rose(last, now, 0x40), [Cid(1, 301, m, 0)]);
    var x6 := When(Rose(last, now, 0x20), [Cid(1, 393, m, 0)]);
    assert p3.log == ((p.log + x1) + x2) + x3;
    Append3(p.log, x1, x2, x3);
    Glue(p.log, x1 + x2 + x3, x4);
    Glue(p.log, x1 + x2 + x3 + x4, x5);
    Glue(p.log, x1 + x2 + x3 + x4 + x5, x6);
  }

  // ----- One call -----

  /** Whether a rearm of one of the three alarms clears the flag for normal operation. */
  predicate Rearms(last: bv8, input: Input) {
    || (Rose(last, input.alarm, 0x01) && input.rearmAsal)
    || (Rose(last, input.alarm, 0x04) && input.rearmTeso)
    || (Rose(last, input.alarm, 0x02) && input.rearmInce)
  }

  lemma RearmsIs(last: bv8, input: Input)
    ensures AlarmAfter(last, input) == if Rearms(last, input) then input.alarm & 0x7F else input.alarm
  {
    hide Has, Rose, Risen;
    RoseMasks(last, input.alarm);
    OnceIsEnough(input.alarm);
  }

  lemma OnceIsEnough(b: bv8)
    ensures b & !NORMAL == b & 0x7F && (b & 0x7F) & !NORMAL == b & 0x7F
  {
  }

  /** A call appends the restores and then the events, for every byte before and now, every memory and every record of
      open zones.  The end of the treasury alarm clears the record, and a new one opens the first zone in memory. */
  lemma CallAppends(p: Panel, input: Input)
    ensures var p', m := Detect(p, input, false), if input.macro then 1 else 0;
            && p'.log == p.log + RestoreEntries(p.last, input.alarm, p.open, m)
                         + EventEntries(p.last, input.alarm, input.memory, m)
            && p'.open == (if Fell(p.last, input.alarm, 0x04) then 0
                           else if Rose(p.last, input.alarm, 0x04) then Opened(p.open, input.memory)
                           else p.open)
            && p'.last == if Rearms(p.last, input) then input.alarm & 0x7F else input.alarm
  {
    hide Restores, Events, Risen, Fallen, AlarmAfter, Rearms, RestoreEntries, EventEntries, Opened;
    var p1 := Restores(p, Fallen(p.last, input.alarm), input.macro);
    RestoresAppend(p, p.last, input.alarm, input.macro);
    EventsAppend(p1, p.last, input.alarm, input.memory, input.macro);
    RearmsIs(p.last, input);
  }
}
