/** What resets and the entries of other tasks do to the alarm log: exactly which of them let it go on replaying, and
    runs in which it does not.
 */
module AlarmResets {
  import opened AlarmEvents
  import opened AlarmReplay

  // ----- Going on -----

  /** Calls without the flag of a reset, and nothing else. */
  predicate Calls(steps: seq<Step>) {
    forall i | 0 <= i < |steps| :: steps[i].Call? && !steps[i].reset
  }

  /** The log goes on replaying for `c`, whatever the encoder is called with from now on. */
  ghost predicate GoesOn(l: Level, p: Panel, c: Channel)
    requires Known(c)
  {
    forall steps | Calls(steps) :: Logged(l, DoAll(p, steps), c) != Broken
  }

  lemma {:induction false} CallsDisturbNothing(p: Panel, steps: seq<Step>, c: Channel)
    requires Known(c) && Calls(steps)
    ensures Undisturbed(p, steps, c)
    decreases |steps|
  {
    hide Known, Do;
    if steps != [] {
      CallsDisturbNothing(p, steps[..|steps| - 1], c);
    }
  }

  lemma DoOne(p: Panel, a: Step)
    ensures DoAll(p, [a]) == Do(p, a)
  {
    hide Do;
    assert [a][..0] == [];
  }

  lemma DoTwo(p: Panel, a: Step, b: Step)
    ensures DoAll(p, [a, b]) == Do(Do(p, a), b)
  {
    hide Do;
    DoOne(p, a);
    assert [a, b][..1] == [a];
  }

  // ----- Runs that break a log out of step -----

  /** Only the alarm byte `alarm`, with `memory` for the zones. */
  function Plain(alarm: bv8, memory: bv8): Input {
    Input(alarm, memory, false, false, false, false)
  }

  const CALM: Step := Call(Plain(0, 0), false)

  lemma PlainAfter(last: bv8, alarm: bv8, memory: bv8)
    ensures AlarmAfter(last, Plain(alarm, memory)) == alarm
  {
  }

  lemma FirstOfOne(k: nat)
    requires k < 8
    ensures FirstZone(ZoneMask(k), 0) == k && FirstZone(0, 0) == 8
  {
    hide FirstZone, Has;
    OneOfEight(k);
    NothingChanged(0);
  }

  lemma OneOfEight(k: nat)
    requires k < 8
    ensures forall j | 0 <= j < 8 :: Has(ZoneMask(k), ZoneMask(j)) <==> j == k
  {
  }

  /** The alarm of a code turned over. */
  function Flip(on: bool, code: nat): Input {
    Plain(if on then 0 else CodeMask(code), 0)
  }

  /** A code whose log is out of step breaks when its alarm turns over. */
  lemma FlipBreaks(l: Level, p: Panel, c: Channel)
    requires Known(c) && c.Code? && Logged(l, p, c) == Is(!Held(p, c))
    ensures Logged(l, Detect(p, Flip(Held(p, c), c.code), false), c) == Broken
  {
    hide Has, Replay, CodeMask, Detect, OneBit, Risen, Fallen, AlarmAfter, ZoneMask;
    var input := Flip(Held(p, c), c.code);
    CallRead(l, p, input, false, c);
    CodeMasks(c.code);
    MaskHasItself(CodeMask(c.code));
    RisenBit(p.last, input.alarm, CodeMask(c.code));
    FallenBit(p.last, input.alarm, CodeMask(c.code));
  }

  lemma MaskHasItself(m: bv8)
    requires OneBit(m)
    ensures Has(m, m) && !Has(0, m)
  {
  }

  /** What a call with no alarm does to a zone. */
  lemma CalmZone(l: Level, p: Panel, k: nat)
    requires k < 8
    ensures var p' := Do(p, CALM);
            if Has(p.last, TESO)
            then && p'.last == 0 && !Held(p', Zone(k))
                 && Logged(l, p', Zone(k))
                    == if Held(p, Zone(k)) then Turn(Logged(l, p, Zone(k)), RESTORE) else Logged(l, p, Zone(k))
            else && p'.last == 0 && Held(p', Zone(k)) == Held(p, Zone(k))
                 && Logged(l, p', Zone(k)) == Logged(l, p, Zone(k))
  {
    hide Has, Replay, Detect, OneBit, Risen, Fallen, AlarmAfter, ZoneMask, FirstZone;
    CallRead(l, p, Plain(0, 0), false, Zone(k));
    PlainAfter(p.last, 0, 0);
    NormalIsABit();
    MaskHasItself(TESO);
    RisenBit(p.last, 0, TESO);
    FallenBit(p.last, 0, TESO);
  }

  /** A treasury alarm with `memory` for its zones. */
  function Theft(memory: bv8): Step {
    Call(Plain(TESO, memory), false)
  }

  /** What a rising treasury alarm does to a zone. */
  lemma TheftZone(l: Level, p: Panel, memory: bv8, k: nat)
    requires k < 8 && !Has(p.last, TESO)
    ensures var p' := Do(p, Theft(memory));
            && p'.last == TESO && (Held(p', Zone(k)) <==> k == FirstZone(memory, 0) || Held(p, Zone(k)))
            && Logged(l, p', Zone(k))
               == if k == FirstZone(memory, 0) then Turn(Logged(l, p, Zone(k)), EVENT) else Logged(l, p, Zone(k))
  {
    hide Has, Replay, Detect, OneBit, Risen, Fallen, AlarmAfter, ZoneMask, FirstZone;
    CallRead(l, p, Plain(TESO, memory), false, Zone(k));
    PlainAfter(p.last, TESO, memory);
    NormalIsABit();
    MaskHasItself(TESO);
    RisenBit(p.last, TESO, TESO);
    FallenBit(p.last, TESO, TESO);
  }

  /** Some calls break the log of a channel that is out of step. */
  lemma Breaks(l: Level, p: Panel, c: Channel) returns (steps: seq<Step>)
    requires Known(c) && !InStep(l, p, c)
    ensures Calls(steps) && Logged(l, DoAll(p, steps), c) == Broken
  {
    hide Has, Replay, Do, ZoneMask, FirstZone;
    if Logged(l, p, c) == Broken {
      return [];
    }
    if c.Code? {
      var a := Call(Flip(Held(p, c), c.code), false);
      FlipBreaks(l, p, c);
      DoOne(p, a);
      FlipIs(p, a.input);
      return [a];
    }
    steps := ZoneBreaks(l, p, c.k);
  }

  lemma FlipIs(p: Panel, input: Input)
    ensures Do(p, Call(input, false)) == Detect(p, input, false)
  {
    hide Detect;
  }

  lemma ZoneBreaks(l: Level, p: Panel, k: nat) returns (steps: seq<Step>)
    requires k < 8 && !InStep(l, p, Zone(k)) && Logged(l, p, Zone(k)) != Broken
    ensures Calls(steps) && Logged(l, DoAll(p, steps), Zone(k)) == Broken
  {
    hide Has, Replay, Do, ZoneMask, FirstZone, DoAll;
    FirstOfOne(k);
    NothingChanged(0);
    var again := Theft(ZoneMask(k));
    CalmZone(l, p, k);
    if Logged(l, p, Zone(k)) == Is(true) {
      if Has(p.last, TESO) {
        TheftZone(l, Do(p, CALM), ZoneMask(k), k);
        DoTwo(p, CALM, again);
        return [CALM, again];
      }
      TheftZone(l, p, ZoneMask(k), k);
      DoOne(p, again);
      return [again];
    }
    if Has(p.last, TESO) {
      DoOne(p, CALM);
      return [CALM];
    }
    TheftZone(l, p, 0, k);
    CalmZone(l, Do(p, Theft(0)), k);
    MaskHasItself(TESO);
    DoTwo(p, Theft(0), CALM);
    return [Theft(0), CALM];
  }

  /** The log goes on replaying for a channel if and only if it is in step with the encoder. */
  lemma GoesOnIff(l: Level, p: Panel, c: Channel)
    requires Known(c)
    ensures GoesOn(l, p, c) <==> InStep(l, p, c)
  {
    hide InStep, Known, DoAll, Replay, Calls;
    if InStep(l, p, c) {
      forall steps | Calls(steps)
        ensures Logged(l, DoAll(p, steps), c) != Broken
      {
        CallsDisturbNothing(p, steps, c);
        LogReplaysToPanel(l, p, steps, c);
        InStepUnbroken(l, DoAll(p, steps), c);
      }
    } else {
      var steps := Breaks(l, p, c);
    }
  }

  lemma InStepUnbroken(l: Level, p: Panel, c: Channel)
    requires Known(c) && InStep(l, p, c)
    ensures Logged(l, p, c) != Broken
  {
    hide Replay;
  }

  // ----- One step, exactly -----

  /** After any step a log that went on replaying still does if and only if the step does not disturb it: a flagged call
      or an aligned byte that passes over a change of the code's bit, or over the end of the treasury alarm with the
      zone open; a reset that brings back another bit, or comes with the zone open; an entry that reads as its own. */
  lemma StepGoesOnIff(l: Level, p: Panel, step: Step, c: Channel)
    requires Known(c) && GoesOn(l, p, c)
    ensures GoesOn(l, Do(p, step), c) <==> !Disturbs(p, step, c)
  {
    hide GoesOn, InStep, Known, Do, Disturbs;
    GoesOnIff(l, p, c);
    GoesOnIff(l, Do(p, step), c);
    StepKeepsIff(l, p, step, c);
  }

  // ----- A processor reset with its flagged calls -----

  predicate Flagged(steps: seq<Step>) {
    forall i | 0 <= i < |steps| :: steps[i].Align? || (steps[i].Call? && steps[i].reset)
  }

  /** The byte that one of these steps leaves for the next comparison. */
  function ByteOf(step: Step): bv8
    requires step.Align? || step.Call?
  {
    if step.Align? then step.alarm else step.input.alarm
  }

  /** After the reset itself, the calls under its flags log nothing; what is left is the byte of the last one. */
  lemma {:induction false} FlaggedRun(p: Panel, steps: seq<Step>)
    requires Flagged(steps)
    ensures DoAll(p, steps) == p.(last := if steps == [] then p.last else ByteOf(steps[|steps| - 1]))
    decreases |steps|
  {
    hide Detect;
    if steps != [] {
      var k := |steps| - 1;
      FlaggedRun(p, steps[..k]);
      if steps[k].Call? {
        ResetLogsNothing(DoAll(p, steps[..k]), steps[k].input);
      }
    }
  }

  /** Over a whole reset, whatever its flagged calls see, the log goes on replaying for a code if and only if its bit is
      in the end as it was, and for a zone if and only if it was not open. */
  lemma ResetGoesOnIff(l: Level, p: Panel, saved: Saved, flagged: seq<Step>, c: Channel)
    requires Known(c) && GoesOn(l, p, c) && Flagged(flagged)
    ensures var last := if flagged == [] then StartUp(saved).last else ByteOf(flagged[|flagged| - 1]);
            GoesOn(l, DoAll(Do(p, Reset(saved)), flagged), c) <==>
              if c.Code? then (Has(last, CodeMask(c.code)) <==> Has(p.last, CodeMask(c.code))) else !Held(p, c)
  {
    hide GoesOn, InStep, Known, Has, CodeMask, ZoneMask, DoAll, StartUp;
    var last := if flagged == [] then StartUp(saved).last else ByteOf(flagged[|flagged| - 1]);
    FlaggedRun(Do(p, Reset(saved)), flagged);
    GoesOnIff(l, p, c);
    GoesOnIff(l, p.(last := last, open := 0), c);
    SetKeepsIff(l, p, last, c);
  }

  // ----- What the flash brings back -----

  /** The alarms of fire, assault, treasury and mains come back from the first record, that of code 393 never,
      and the break alarm from the second, or from its flag if the copy there is implausible. */
  lemma BroughtBack(s: Saved, code: nat)
    requires Known(Code(code))
    ensures Has(StartUp(s).last, CodeMask(code)) <==>
              match code
              case 393 => false
              case 380 => s.valid2 && if Implausible(s.alarm2) then s.valid && s.evo else Has(s.alarm2, ROTU)
              case _ => s.valid && Has(s.alarm, CodeMask(code))
  {
  }

  lemma BreakBits(b: bv8)
    ensures WithBreak(WithBreak(b)) == WithBreak(b) == b | 0x08
    ensures !Has(b & 0x57, 0x08) && !Has(0x80, 0x08) && (Has(b, 0x08) <==> b & 0x08 != 0)
    ensures Implausible(b) <==> b > 0x80
  {
  }

  /** The alarm byte itself starts from the first record, or from normal operation without one, and has the break
      alarm if the second record or its flag has it. */
  lemma StartsWith(s: Saved)
    ensures var base := if s.valid then s.alarm & 0x57 else 0x80;
            StartUp(s).alarm
            == if s.valid2 && (s.evo || (s.alarm2 <= 0x80 && s.alarm2 & 0x08 != 0)) then base | 0x08 else base
  {
    hide WithBreak, Has, Implausible;
    BreakBits(s.alarm);
    BreakBits(s.alarm2);
    BreakBits(if s.valid then s.alarm & 0x57 else 0x80);
  }

  /** So with both records written at the last call, a reset alone disturbs the open zones, code 393 if it was
      in alarm, and the break alarm only if the byte was implausible and its flag differs. */
  lemma WrittenReset(l: Level, p: Panel, s: Saved, c: Channel)
    requires Known(c) && GoesOn(l, p, c) && s.valid && s.valid2 && s.alarm == s.alarm2 == p.last
    ensures GoesOn(l, Do(p, Reset(s)), c) <==>
              match c
              case Zone(k) => !Held(p, c)
              case Code(code) =>
                if code == 393 then !Has(p.last, LLOP)
                else code == 380 && Implausible(p.last) ==> (s.evo <==> Has(p.last, ROTU))
  {
    hide GoesOn, Has, ZoneMask, StartUp, Implausible;
    ResetGoesOnIff(l, p, s, [], c);
    if c.Code? {
      BroughtBack(s, c.code);
    }
  }

  // ----- Runs in which it does not -----

  /** Before any alarm. */
  const REST: Panel := Panel(0, 0, [])

  lemma Alone(p: Panel, alarm: bv8, qualifier: nat, code: nat)
    requires (alarm == INCE && code == 110) || (alarm == LLOP && code == 393)
    requires if qualifier == EVENT then p.last == 0 else qualifier == RESTORE && p.last == alarm && code == 393
    ensures var now := if qualifier == EVENT then alarm else 0;
            Detect(p, Plain(now, 0), false) == p.(last := now, log := p.log + [Cid(qualifier, code, 0, 0)])
  {
    hide OpenZone, CloseZones;
  }

  /** A fire alarm that ends during a reset: two events with no restore between. */
  lemma LostRestore(s: Saved)
    ensures var fire := Call(Plain(INCE, 0), false);
            DoAll(REST, [fire] + [Reset(s)] + [Call(Plain(0, 0), true)] + [fire]).log
            == [Cid(EVENT, 110, 0, 0), Cid(EVENT, 110, 0, 0)]
  {
    hide Detect, StartUp;
    var fire, calm := Call(Plain(INCE, 0), false), Call(Plain(0, 0), true);
    var p1 := Do(REST, fire);
    var p2 := Do(p1, Reset(s));
    Alone(REST, INCE, EVENT, 110);
    ResetLogsNothing(p2, Plain(0, 0));
    Alone(Do(p2, calm), INCE, EVENT, 110);
    DoFour(REST, fire, Reset(s), calm, fire);
  }

  lemma DoFour(p: Panel, a: Step, b: Step, c: Step, d: Step)
    ensures DoAll(p, [a] + [b] + [c] + [d]) == Do(Do(Do(Do(p, a), b), c), d)
  {
    hide Do;
    DoTwo(p, a, b);
    var steps := [a] + [b] + [c] + [d];
    assert steps[..3][..2] == [a, b] && steps[..3][2] == c && steps[3] == d;
  }

  lemma TheftAlone(p: Panel)
    requires p.last == 0 && p.open == 0
    ensures Do(p, Theft(1)) == Panel(TESO, 1, p.log + [Cid(EVENT, 130, 6, 61), Cid(EVENT, 130, 0, 0)])
  {
    hide FirstZone, CloseZones;
    assert ZoneMask(0) == 1;
    FirstOfOne(0);
    assert p.log + [Cid(EVENT, 130, 6, 61)] + [Cid(EVENT, 130, 0, 0)]
        == p.log + [Cid(EVENT, 130, 6, 61), Cid(EVENT, 130, 0, 0)];
  }

  /** A zone that is open at a reset never gets its restore, and its next event is logged again. */
  lemma LostZoneRestore(s: Saved)
    ensures DoAll(REST, [Theft(1)] + [Reset(s)] + [Call(Plain(0, 0), true)] + [Theft(1)]).log
            == [Cid(EVENT, 130, 6, 61), Cid(EVENT, 130, 0, 0), Cid(EVENT, 130, 6, 61), Cid(EVENT, 130, 0, 0)]
  {
    hide Detect, StartUp;
    var calm := Call(Plain(0, 0), true);
    var p2 := Do(Do(REST, Theft(1)), Reset(s));
    TheftAlone(REST);
    ResetLogsNothing(p2, Plain(0, 0));
    TheftAlone(Do(p2, calm));
    DoFour(REST, Theft(1), Reset(s), calm, Theft(1));
  }

  /** Another task ends the alarm of code 393 and logs the restore itself: the encoder logs it again. */
  lemma RepeatedRestore()
    ensures var line, own := Call(Plain(LLOP, 0), false), Entry(Cid(RESTORE, 393, 0, 0));
            DoAll(REST, [line] + [own] + [CALM]).log
            == [Cid(EVENT, 393, 0, 0), Cid(RESTORE, 393, 0, 0), Cid(RESTORE, 393, 0, 0)]
  {
    hide Detect;
    var line, own := Call(Plain(LLOP, 0), false), Entry(Cid(RESTORE, 393, 0, 0));
    Alone(REST, LLOP, EVENT, 393);
    Alone(Do(Do(REST, line), own), LLOP, RESTORE, 393);
    DoTwo(REST, line, own);
    assert ([line] + [own] + [CALM])[..2] == [line, own];
  }
}
