/** The alarm log can be replayed: as long as nothing disturbs a code, its entries strictly alternate between event and
    restore, and following them from the first byte gives the present one.  So do the entries of each zone.  A run mixes
    calls of the encoder with resets and with entries that other tasks put in the same log; which steps disturb what,
    exactly, is in module AlarmResets.
 */
module AlarmReplay {
  import opened AlarmEvents

  // ----- Replaying a log -----

  /** One thing the log says is on or off: the alarm with a code, through its summary events, or a zone. */
  datatype Channel = Code(code: nat) | Zone(k: nat)

  predicate Known(c: Channel) {
    match c
    case Code(code) => code in {110, 120, 130, 301, 380, 393}
    case Zone(k) => k < 8
  }

  function CodeMask(code: nat): bv8 {
    match code
    case 110 => INCE
    case 120 => ASAL
    case 130 => TESO
    case 301 => F220
    case 380 => ROTU
    case _ => LLOP
  }

  predicate Matches(c: Channel, e: Cid)
    requires Known(c)
  {
    match c
    case Code(code) => e.code == code && e.part <= 1 && e.zone == 0
    case Zone(k) => e.code == 130 && e.part == ZonePart(k) && e.zone == ZoneNumber(k)
  }

  /** What a reader of the log knows of a channel.  `Broken` is an event while it is on, or a restore while off. */
  datatype Level = Broken | Is(on: bool)

  function Turn(l: Level, qualifier: nat): Level {
    if l == Is(false) && qualifier == EVENT then Is(true)
    else if l == Is(true) && qualifier == RESTORE then Is(false)
    else Broken
  }

  function Read(l: Level, c: Channel, e: Cid): Level
    requires Known(c)
  {
    if Matches(c, e) then Turn(l, e.qualifier) else l
  }

  function Replay(l: Level, log: seq<Cid>, c: Channel): Level
    requires Known(c)
  {
    if log == [] then l else Read(Replay(l, log[..|log| - 1], c), c, log[|log| - 1])
  }

  /** The level that the encoder itself holds. */
  function Held(p: Panel, c: Channel): bool
    requires Known(c)
  {
    match c
    case Code(code) => Has(p.last, CodeMask(code))
    case Zone(k) => Has(p.open, ZoneMask(k))
  }

  /** The level of `c` in the log of `p`, read from level `l`. */
  function Logged(l: Level, p: Panel, c: Channel): Level
    requires Known(c)
  {
    Replay(l, p.log, c)
  }

  lemma LogRead(l: Level, p: Panel, qualifier: nat, code: nat, part: nat, zone: nat, c: Channel)
    requires Known(c)
    ensures Logged(l, Log(p, qualifier, code, part, zone), c)
            == Read(Logged(l, p, c), c, Cid(qualifier, code, part, zone))
  {
    var e := Cid(qualifier, code, part, zone);
    assert (p.log + [e])[..|p.log|] == p.log;
  }

  // ----- The blocks of one call -----

  lemma SingleRead(l: Level, p: Panel, changed: bv8, m: bv8, qualifier: nat, code: nat, macro: bool, c: Channel)
    requires Known(c)
    ensures var p' := Single(p, changed, m, qualifier, code, macro);
            && p'.open == p.open && p'.last == p.last
            && Logged(l, p', c) == if c == Code(code) && Has(changed, m)
               then Turn(Logged(l, p, c), qualifier)
               else Logged(l, p, c)
  {
    hide Has, Replay;
    LogRead(l, p, qualifier, code, if macro then 1 else 0, 0, c);
  }

  lemma PairRead(l: Level, p: Panel, fallen: bv8, m: bv8, code: nat, part: nat, macro: bool, c: Channel)
    requires Known(c) && 2 <= part <= 4
    ensures var p' := RestorePair(p, fallen, m, code, part, macro);
            && p'.open == p.open && p'.last == p.last
            && Logged(l, p', c) == if c == Code(code) && Has(fallen, m)
               then Turn(Logged(l, p, c), RESTORE)
               else Logged(l, p, c)
  {
    hide Has, Replay;
    LogRead(l, p, RESTORE, code, if macro then 1 else 0, 0, c);
    LogRead(l, Summary(p, RESTORE, code, macro), RESTORE, code, part, 0, c);
  }

  lemma ClearZone(open: bv8, k: nat)
    requires k < 8
    ensures forall j | 0 <= j < 8 :: Has(open & !ZoneMask(k), ZoneMask(j)) <==> j != k && Has(open, ZoneMask(j))
  {
    hide Has, ZoneMask;
    forall j | 0 <= j < 8
      ensures Has(open & !ZoneMask(k), ZoneMask(j)) <==> j != k && Has(open, ZoneMask(j))
    {
      ZoneMasks(j, k);
      ZoneMasks(k, j);
      ClearBit(open, ZoneMask(k), ZoneMask(j));
    }
  }

  lemma ZoneChannels(j: nat, k: nat)
    requires j < 8 && k < 8
    ensures ZonePart(j) == ZonePart(k) && ZoneNumber(j) == ZoneNumber(k) <==> j == k
  {
  }

  lemma CloseZoneRead(l: Level, p: Panel, k: nat, c: Channel)
    requires Known(c) && k < 8
    ensures var p' := CloseZone(p, k);
            && p'.last == p.last
            && (forall j | 0 <= j < 8 :: Has(p'.open, ZoneMask(j)) <==> j != k && Has(p.open, ZoneMask(j)))
            && Logged(l, p', c) == if c == Zone(k) && Has(p.open, ZoneMask(k))
               then Turn(Logged(l, p, c), RESTORE)
               else Logged(l, p, c)
  {
    hide Has, Replay, ZoneMask, ZonePart, ZoneNumber;
    LogRead(l, p, RESTORE, 130, ZonePart(k), ZoneNumber(k), c);
    ClearZone(p.open, k);
    ZoneIsNoSummary(k);
    if c.Zone? {
      ZoneChannels(c.k, k);
    }
  }

  lemma ZoneIsNoSummary(k: nat)
    ensures 6 <= ZonePart(k) && 61 <= ZoneNumber(k)
  {
  }

  lemma {:induction false} CloseZonesRead(l: Level, p: Panel, n: nat, c: Channel)
    requires Known(c) && n <= 8
    ensures var p' := CloseZones(p, n);
            && p'.last == p.last
            && (forall j | 0 <= j < 8 :: Has(p'.open, ZoneMask(j)) <==> n <= j && Has(p.open, ZoneMask(j)))
            && Logged(l, p', c) == if c.Zone? && c.k < n && Has(p.open, ZoneMask(c.k))
               then Turn(Logged(l, p, c), RESTORE)
               else Logged(l, p, c)
  {
    hide Has, Replay, ZoneMask, CloseZone, Turn;
    if n != 0 {
      CloseZonesRead(l, p, n - 1, c);
      CloseZoneRead(l, CloseZones(p, n - 1), n - 1, c);
    }
  }

  lemma RestoreTesoRead(l: Level, p: Panel, fallen: bv8, macro: bool, c: Channel)
    requires Known(c)
    ensures var p' := RestoreTeso(p, fallen, macro);
            && p'.last == p.last
            && (forall j | 0 <= j < 8 :: Has(p'.open, ZoneMask(j)) <==> !Has(fallen, TESO) && Has(p.open, ZoneMask(j)))
            && Logged(l, p', c) == if Has(fallen, TESO) && (c == Code(130) || (c.Zone? && Has(p.open, ZoneMask(c.k))))
                                   then Turn(Logged(l, p, c), RESTORE) else Logged(l, p, c)
  {
    hide Has, Replay, ZoneMask, Turn, CloseZones, RestorePair;
    var p1 := RestorePair(p, fallen, TESO, 130, 4, macro);
    PairRead(l, p, fallen, TESO, 130, 4, macro, c);
    CloseZonesRead(l, p1, 8, c);
  }

  /** Whether the bit behind channel `c` is set in a byte of changes. */
  predicate Touched(changed: bv8, c: Channel)
    requires Known(c)
  {
    c.Code? && Has(changed, CodeMask(c.code))
  }

  lemma RestoresRead(l: Level, p: Panel, fallen: bv8, macro: bool, c: Channel)
    requires Known(c)
    ensures var p' := Restores(p, fallen, macro);
            && p'.last == p.last
            && (forall j | 0 <= j < 8 :: Has(p'.open, ZoneMask(j)) <==> !Has(fallen, TESO) && Has(p.open, ZoneMask(j)))
            && Logged(l, p', c) == if Touched(fallen, c) || (c.Zone? && Has(fallen, TESO) && Has(p.open, ZoneMask(c.k)))
                                   then Turn(Logged(l, p, c), RESTORE) else Logged(l, p, c)
  {
    hide Has, Replay, ZoneMask, Turn, RestorePair, RestoreTeso, Single;
    var p1 := RestorePair(p, fallen, ASAL, 120, 2, macro);
    var p2 := RestoreTeso(p1, fallen, macro);
    var p3 := RestorePair(p2, fallen, INCE, 110, 3, macro);
    var p4 := Single(p3, fallen, ROTU, RESTORE, 380, macro);
    var p5 := Single(p4, fallen, F220, RESTORE, 301, macro);
    PairRead(l, p, fallen, ASAL, 120, 2, macro, c);
    RestoreTesoRead(l, p1, fallen, macro, c);
    PairRead(l, p2, fallen, INCE, 110, 3, macro, c);
    SingleRead(l, p3, fallen, ROTU, RESTORE, 380, macro, c);
    SingleRead(l, p4, fallen, F220, RESTORE, 301, macro, c);
    SingleRead(l, p5, fallen, LLOP, RESTORE, 393, macro, c);
  }

  /** The zone that a rising treasury alarm opens. */
  predicate Opens(risen: bv8, memory: bv8, c: Channel) {
    c.Zone? && Has(risen, TESO) && c.k == FirstZone(memory, 0) < 8
  }

  lemma OpenBit(open: bv8, k: nat)
    requires k < 8
    ensures forall j | 0 <= j < 8 :: Has(open | ZoneMask(k), ZoneMask(j)) <==> j == k || Has(open, ZoneMask(j))
  {
    hide Has, ZoneMask;
    forall j | 0 <= j < 8
      ensures Has(open | ZoneMask(k), ZoneMask(j)) <==> j == k || Has(open, ZoneMask(j))
    {
      ZoneMasks(j, k);
      ZoneMasks(k, j);
      SetBit(open, ZoneMask(k), ZoneMask(j));
    }
  }

  lemma OpenZoneRead(l: Level, p: Panel, memory: bv8, c: Channel)
    requires Known(c)
    ensures var p', k := OpenZone(p, memory), FirstZone(memory, 0);
            && p'.last == p.last
            && (forall j | 0 <= j < 8 :: Has(p'.open, ZoneMask(j)) <==> j == k || Has(p.open, ZoneMask(j)))
            && Logged(l, p', c) == if c.Zone? && c.k == k then Turn(Logged(l, p, c), EVENT) else Logged(l, p, c)
  {
    hide Has, Replay, ZoneMask, Turn, FirstZone, ZonePart, ZoneNumber;
    var k := FirstZone(memory, 0);
    if k < 8 {
      LogRead(l, p, EVENT, 130, ZonePart(k), ZoneNumber(k), c);
      OpenBit(p.open, k);
      ZoneIsNoSummary(k);
      if c.Zone? {
        ZoneChannels(c.k, k);
      }
    }
  }

  lemma EventTesoRead(l: Level, p: Panel, risen: bv8, memory: bv8, macro: bool, c: Channel)
    requires Known(c)
    ensures var p' := EventTeso(p, risen, memory, macro);
            && p'.last == p.last
            && (forall j | 0 <= j < 8 ::
                Has(p'.open, ZoneMask(j)) <==> Opens(risen, memory, Zone(j)) || Has(p.open, ZoneMask(j)))
            && Logged(l, p', c) == if Opens(risen, memory, c) || (c == Code(130) && Has(risen, TESO))
                                   then Turn(Logged(l, p, c), EVENT) else Logged(l, p, c)
  {
    hide Has, Replay, ZoneMask, Turn, FirstZone, OpenZone, ZonePart, ZoneNumber;
    LogRead(l, OpenZone(p, memory), EVENT, 130, if macro then 1 else 0, 0, c);
    OpenZoneRead(l, p, memory, c);
    if c.Zone? {
      ZoneIsNoSummary(c.k);
    }
  }

  lemma EventsRead(l: Level, p: Panel, risen: bv8, memory: bv8, macro: bool, c: Channel)
    requires Known(c)
    ensures var p' := Events(p, risen, memory, macro);
            && p'.last == p.last
            && (forall j | 0 <= j < 8 ::
                Has(p'.open, ZoneMask(j)) <==> Opens(risen, memory, Zone(j)) || Has(p.open, ZoneMask(j)))
            && Logged(l, p', c) == if Opens(risen, memory, c) || Touched(risen, c)
                                   then Turn(Logged(l, p, c), EVENT) else Logged(l, p, c)
  {
    hide Has, Replay, ZoneMask, Turn, EventTeso, Single, Opens;
    var p1 := Single(p, risen, ASAL, EVENT, 120, macro);
    var p2 := EventTeso(p1, risen, memory, macro);
    var p3 := Single(p2, risen, INCE, EVENT, 110, macro);
    var p4 := Single(p3, risen, ROTU, EVENT, 380, macro);
    var p5 := Single(p4, risen, F220, EVENT, 301, macro);
    SingleRead(l, p, risen, ASAL, EVENT, 120, macro, c);
    EventTesoRead(l, p1, risen, memory, macro, c);
    SingleRead(l, p2, risen, INCE, EVENT, 110, macro, c);
    SingleRead(l, p3, risen, ROTU, EVENT, 380, macro, c);
    SingleRead(l, p4, risen, F220, EVENT, 301, macro, c);
    SingleRead(l, p5, risen, LLOP, EVENT, 393, macro, c);
    if c.Code? {
      NoZoneOpensACode(risen, memory, c);
    }
  }

  lemma NoZoneOpensACode(risen: bv8, memory: bv8, c: Channel)
    requires c.Code?
    ensures !Opens(risen, memory, c)
  {
  }

  // ----- One call -----

  /** The log of `p`, read from `l`, agrees with what the encoder holds of `c`. */
  predicate Agrees(l: Level, p: Panel, c: Channel)
    requires Known(c)
  {
    Logged(l, p, c) == Is(Held(p, c))
  }

  /** They agree, and a zone is open only while the encoder holds the treasury alarm, whose end will close it. */
  predicate InStep(l: Level, p: Panel, c: Channel)
    requires Known(c)
  {
    Agrees(l, p, c) && (c.Zone? && Held(p, c) ==> Has(p.last, TESO))
  }

  lemma CodeMasks(code: nat)
    requires Known(Code(code))
    ensures OneBit(CodeMask(code)) && CodeMask(code) != NORMAL
  {
  }

  lemma RearmKeepsBit(alarm: bv8, rearm: bool, m: bv8)
    requires OneBit(m) && m != NORMAL
    ensures Has(Rearm(alarm, rearm), m) <==> Has(alarm, m)
  {
    hide Has, OneBit;
    NormalIsABit();
    ClearBit(alarm, NORMAL, m);
  }

  lemma RearmKeepsBits(last: bv8, input: Input, m: bv8)
    requires OneBit(m) && m != NORMAL
    ensures Has(AlarmAfter(last, input), m) <==> Has(input.alarm, m)
  {
    hide Has, OneBit, Risen, Rearm;
    var risen := Risen(last, input.alarm);
    RearmKeepsBit(input.alarm, Has(risen, ASAL) && input.rearmAsal, m);
    var a1 := Rearm(input.alarm, Has(risen, ASAL) && input.rearmAsal);
    RearmKeepsBit(a1, Has(risen, TESO) && input.rearmTeso, m);
    RearmKeepsBit(Rearm(a1, Has(risen, TESO) && input.rearmTeso), Has(risen, INCE) && input.rearmInce, m);
  }

  lemma NormalIsABit()
    ensures OneBit(NORMAL) && OneBit(TESO) && TESO != NORMAL
  {
  }

  /** What one call does to the log and to what the encoder holds, whatever byte `last` it compares with. */
  lemma CallRead(l: Level, p: Panel, input: Input, reset: bool, c: Channel)
    requires Known(c)
    ensures var p' := Detect(p, input, reset);
            var last := if reset then input.alarm else p.last;
            var fallen, risen := Fallen(last, input.alarm), Risen(last, input.alarm);
            var level := if Touched(fallen, c) || (c.Zone? && Has(fallen, TESO) && Has(p.open, ZoneMask(c.k)))
                         then Turn(Logged(l, p, c), RESTORE) else Logged(l, p, c);
            && p'.last == AlarmAfter(last, input)
            && (forall j | 0 <= j < 8 :: Has(p'.open, ZoneMask(j)) <==>
                Opens(risen, input.memory, Zone(j)) || (!Has(fallen, TESO) && Has(p.open, ZoneMask(j))))
            && Logged(l, p', c) == if Opens(risen, input.memory, c) || Touched(risen, c)
               then Turn(level, EVENT) else level
  {
    hide Has, Replay, ZoneMask, Turn, Restores, Events, Opens, Touched, Risen, Fallen, AlarmAfter;
    var p0 := if reset then p.(last := input.alarm) else p;
    var last := p0.last;
    var p1 := Restores(p0, Fallen(last, input.alarm), input.macro);
    RestoresRead(l, p0, Fallen(last, input.alarm), input.macro, c);
    EventsRead(l, p1, Risen(last, input.alarm), input.memory, input.macro, c);
  }

  /** A call without a reset keeps the log in step with the panel, and the panel with the alarm byte. */
  lemma CallKeepsAgreement(l: Level, p: Panel, input: Input, c: Channel)
    requires Known(c) && InStep(l, p, c)
    ensures var p' := Detect(p, input, false);
            InStep(l, p', c) && (c.Code? ==> (Held(p', c) <==> Has(input.alarm, CodeMask(c.code))))
  {
    hide Has, Replay, ZoneMask, CodeMask, Detect, OneBit, Risen, Fallen, AlarmAfter, FirstZone;
    CallRead(l, p, input, false, c);
    NormalIsABit();
    RisenBit(p.last, input.alarm, TESO);
    FallenBit(p.last, input.alarm, TESO);
    RearmKeepsBits(p.last, input, TESO);
    if c.Code? {
      CodeMasks(c.code);
      RisenBit(p.last, input.alarm, CodeMask(c.code));
      FallenBit(p.last, input.alarm, CodeMask(c.code));
      RearmKeepsBits(p.last, input, CodeMask(c.code));
    }
  }

  // ----- Runs -----

  /** A call of the encoder, with or without a flag of a reset; the byte to compare with set to the present one; a
      processor reset; an entry of another task. */
  datatype Step = Call(input: Input, reset: bool) | Align(alarm: bv8) | Reset(saved: Saved) | Entry(entry: Cid)

  function Do(p: Panel, step: Step): Panel {
    match step
    case Call(input, reset) => Detect(p, input, reset)
    case Align(alarm) => p.(last := alarm)
    case Reset(saved) => Boot(p, saved)
    case Entry(e) => Log(p, e.qualifier, e.code, e.part, e.zone)
  }

  function DoAll(p: Panel, steps: seq<Step>): Panel
    decreases |steps|
  {
    if steps == [] then p else Do(DoAll(p, steps[..|steps| - 1]), steps[|steps| - 1])
  }

  /** Setting the byte of the last call to `alarm` passes over a change: of the bit of a code, or of the treasury alarm
      under an open zone. */
  predicate PassesOver(p: Panel, alarm: bv8, c: Channel)
    requires Known(c)
  {
    if c.Code? then Has(p.last, CodeMask(c.code)) != Has(alarm, CodeMask(c.code))
    else Held(p, c) && !Has(alarm, TESO)
  }

  /** What brings the log out of step with `c`: a change passed over, a reset while its zone is open, or an entry of
      another task that reads as one of its own. */
  predicate Disturbs(p: Panel, step: Step, c: Channel)
    requires Known(c)
  {
    match step
    case Call(input, reset) => reset && PassesOver(p, input.alarm, c)
    case Align(alarm) => PassesOver(p, alarm, c)
    case Reset(saved) => if c.Code? then PassesOver(p, StartUp(saved).last, c) else Held(p, c)
    case Entry(e) => Matches(c, e)
  }

  predicate Undisturbed(p: Panel, steps: seq<Step>, c: Channel)
    requires Known(c)
    decreases |steps|
  {
    steps == [] ||
    (&& Undisturbed(p, steps[..|steps| - 1], c)
     && !Disturbs(DoAll(p, steps[..|steps| - 1]), steps[|steps| - 1], c))
  }

  /** Under a flag of a reset a call logs nothing at all. */
  lemma ResetLogsNothing(p: Panel, input: Input)
    ensures Detect(p, input, true) == p.(last := input.alarm)
  {
    hide CloseZones, OpenZone, Summary, Has, Risen, Fallen;
    NothingChanged(input.alarm);
  }

  lemma NothingChanged(b: bv8)
    ensures Risen(b, b) == 0 && Fallen(b, b) == 0
    ensures forall m :: !Has(0, m)
  {
  }

  /** The byte to compare with is set, or set and the open zones forgotten: the log stays in step exactly as stated. */
  lemma SetKeepsIff(l: Level, p: Panel, last: bv8, c: Channel)
    requires Known(c) && InStep(l, p, c)
    ensures InStep(l, p.(last := last), c) <==> !PassesOver(p, last, c)
    ensures InStep(l, p.(last := last, open := 0), c) <==> if c.Code? then !PassesOver(p, last, c) else !Held(p, c)
  {
    hide Has, Replay, ZoneMask, CodeMask;
    NothingChanged(0);
  }

  lemma TurnChanges(on: bool, qualifier: nat)
    ensures Turn(Is(on), qualifier) != Is(on)
  {
  }

  /** A step leaves the log in step if and only if it does not disturb it. */
  lemma StepKeepsIff(l: Level, p: Panel, step: Step, c: Channel)
    requires Known(c) && InStep(l, p, c)
    ensures InStep(l, Do(p, step), c) <==> !Disturbs(p, step, c)
  {
    hide Has, Replay, ZoneMask, CodeMask, Detect, Turn, PassesOver, Known, Matches, StartUp;
    match step
    case Call(input, reset) =>
      if reset {
        ResetLogsNothing(p, input);
        SetKeepsIff(l, p, input.alarm, c);
      } else {
        CallKeepsAgreement(l, p, input, c);
      }
    case Align(alarm) => SetKeepsIff(l, p, alarm, c);
    case Reset(saved) => SetKeepsIff(l, p, StartUp(saved).last, c);
    case Entry(e) =>
      LogRead(l, p, e.qualifier, e.code, e.part, e.zone, c);
      TurnChanges(Held(p, c), e.qualifier);
  }

  /** Over every run that does not disturb `c`, replaying the log from the first level gives the present one: for a code
      the bit of the alarm byte, for a zone whether it is open. */
  lemma {:induction false} LogReplaysToPanel(l: Level, p: Panel, steps: seq<Step>, c: Channel)
    requires Known(c) && InStep(l, p, c) && Undisturbed(p, steps, c)
    ensures var p' := DoAll(p, steps);
            && InStep(l, p', c)
            && (steps != [] && steps[|steps| - 1].Call? && c.Code? ==>
                  (Held(p', c) <==> Has(steps[|steps| - 1].input.alarm, CodeMask(c.code))))
    decreases |steps|
  {
    hide Has, Replay, ZoneMask, CodeMask, Detect, Held, InStep, Disturbs, Known, Boot;
    if steps != [] {
      var before, step := steps[..|steps| - 1], steps[|steps| - 1];
      LogReplaysToPanel(l, p, before, c);
      StepKeepsIff(l, DoAll(p, before), step, c);
      if step.Call? {
        CallHolds(l, DoAll(p, before), step.input, step.reset, c);
      }
    }
  }

  lemma CallHolds(l: Level, p: Panel, input: Input, reset: bool, c: Channel)
    requires Known(c) && InStep(l, p, c)
    ensures c.Code? ==> (Held(Detect(p, input, reset), c) <==> Has(input.alarm, CodeMask(c.code)))
  {
    hide Has, Detect, CodeMask, ZoneMask;
    if reset {
      ResetLogsNothing(p, input);
    } else {
      CallKeepsAgreement(l, p, input, c);
    }
  }

  /** Once broken, a replay stays broken. */
  lemma {:induction false} PrefixUnbroken(l: Level, log: seq<Cid>, n: nat, c: Channel)
    requires Known(c) && n <= |log| && Replay(l, log, c) != Broken
    ensures Replay(l, log[..n], c) != Broken
    decreases |log|
  {
    if n == |log| {
      assert log[..n] == log;
    } else {
      PrefixUnbroken(l, log[..|log| - 1], n, c);
      assert log[..|log| - 1][..n] == log[..n];
    }
  }

  lemma ReadAt(l: Level, log: seq<Cid>, i: nat, c: Channel)
    requires Known(c) && i < |log|
    ensures Replay(l, log[..i + 1], c) == Read(Replay(l, log[..i], c), c, log[i])
  {
    assert log[..i + 1][..i] == log[..i];
  }

  /** Across entries that do not concern `c`, its level stays. */
  lemma {:induction false} Untouched(l: Level, log: seq<Cid>, m: nat, n: nat, c: Channel)
    requires Known(c) && m <= n <= |log| && forall k | m <= k < n :: !Matches(c, log[k])
    ensures Replay(l, log[..n], c) == Replay(l, log[..m], c)
    decreases n - m
  {
    hide Known, Matches, Replay;
    if m < n {
      Untouched(l, log, m, n - 1, c);
      ReadAt(l, log, n - 1, c);
    }
  }

  /** An entry of an unbroken log turns the level of its channel over. */
  lemma Turns(l: Level, log: seq<Cid>, i: nat, c: Channel)
    requires Known(c) && i < |log| && Matches(c, log[i]) && Replay(l, log, c) != Broken
    ensures Replay(l, log[..i], c) == Is(log[i].qualifier == RESTORE)
    ensures Replay(l, log[..i + 1], c) == Is(log[i].qualifier == EVENT)
    ensures log[i].qualifier == EVENT || log[i].qualifier == RESTORE
  {
    hide Known, Matches, Replay;
    PrefixUnbroken(l, log, i + 1, c);
    ReadAt(l, log, i, c);
  }

  /** Entries `i` and `j` concern `c`, and none between them does. */
  ghost predicate Neighbours(log: seq<Cid>, i: int, j: int, c: Channel)
    requires Known(c)
  {
    0 <= i < j < |log| && Matches(c, log[i]) && Matches(c, log[j]) && forall k | i < k < j :: !Matches(c, log[k])
  }

  /** The events of one channel alternate strictly: of two with none between them, one is an event and one a restore. */
  ghost predicate Alternates(log: seq<Cid>, c: Channel)
    requires Known(c)
  {
    forall i, j | Neighbours(log, i, j, c) ::
      || (log[i].qualifier == EVENT && log[j].qualifier == RESTORE)
      || (log[i].qualifier == RESTORE && log[j].qualifier == EVENT)
  }

  lemma UnbrokenAlternates(l: Level, log: seq<Cid>, c: Channel)
    requires Known(c) && Replay(l, log, c) != Broken
    ensures Alternates(log, c)
  {
    hide Known, Matches, Replay;
    forall i, j | Neighbours(log, i, j, c)
      ensures || (log[i].qualifier == EVENT && log[j].qualifier == RESTORE)
              || (log[i].qualifier == RESTORE && log[j].qualifier == EVENT)
    {
      Turns(l, log, i, c);
      Turns(l, log, j, c);
      Untouched(l, log, i + 1, j, c);
    }
  }

  /** Entry `i` is the first that concerns `c`. */
  ghost predicate First(log: seq<Cid>, i: int, c: Channel)
    requires Known(c)
  {
    0 <= i < |log| && Matches(c, log[i]) && forall k | 0 <= k < i :: !Matches(c, log[k])
  }

  lemma FirstTurns(l: Level, log: seq<Cid>, i: nat, c: Channel)
    requires Known(c) && Replay(l, log, c) != Broken && First(log, i, c)
    ensures l == Is(log[i].qualifier == RESTORE) && log[i].qualifier in {EVENT, RESTORE}
  {
    hide Known, Matches;
    Turns(l, log, i, c);
    Untouched(l, log, 0, i, c);
  }

  /** From an empty log with no zone open, as long as nothing disturbs a channel, its entries alternate, and the first
      is a restore if and only if the channel was on at the start.  So every zone restore answers an earlier event of
      that zone. */
  lemma RunAlternates(p: Panel, steps: seq<Step>, c: Channel)
    requires Known(c) && p.log == [] && p.open == 0 && Undisturbed(p, steps, c)
    ensures var log := DoAll(p, steps).log;
            && Alternates(log, c)
            && forall i | First(log, i, c) :: log[i].qualifier == if Held(p, c) then RESTORE else EVENT
  {
    hide Known, Matches, CodeMask, ZoneMask, Alternates, DoAll, Undisturbed;
    NothingChanged(0);
    var log := DoAll(p, steps).log;
    LogReplaysToPanel(Is(Held(p, c)), p, steps, c);
    UnbrokenAlternates(Is(Held(p, c)), log, c);
    forall i | First(log, i, c)
      ensures log[i].qualifier == if Held(p, c) then RESTORE else EVENT
    {
      FirstTurns(Is(Held(p, c)), log, i, c);
    }
  }
}
