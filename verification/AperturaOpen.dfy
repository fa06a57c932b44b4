/** Runs of the door-opening machine with the door open: when it rings, when it opens for a token read before, and what
    happens to an authorisation.
 */
module AperturaOpen {
  import opened Apertura
  import opened AperturaRuns

  // ----- What an open door comes to -----

  predicate OpenNoToken(input: Input) {
    input.open && forall i | 0 <= i < |input.touches| :: input.touches[i] == 0
  }

  predicate OpenRound(inputs: seq<Input>) {
    inputs != [] && forall i | 0 <= i < |inputs| :: OpenNoToken(inputs[i])
  }

  predicate Rings(a: Ap) {
    a.mode == OpPreve && a.ringing && !a.pending
  }

  predicate Closing(a: Ap) {
    a.mode == Wait15 || a.mode == Wait1
  }

  /** A pending token that the machine will still consume; `left` is the time left to the next run. */
  predicate Counts(a: Ap, left: nat) {
    a.pending && (a.mode == WaitToken || a.mode == OpPreve || (a.mode == Idle && a.ringing) || (Closing(a) && 0 < left))
  }

  /** The end of an open door: whether it rings, how many openings and alarms there will have been, and whether an
      authorisation will stand. */
  datatype End = End(rings: bool, openings: nat, alarms: nat, valid: bool)

  /** The end of `a` when the next run sees the timeout at `left`. */
  function EndOf(a: Ap, left: nat): End {
    if a.mode == OpNormal then End(false, |a.users|, a.alarms, a.valid)
    else if Counts(a, left) then End(false, |a.users| + 1, a.alarms, true)
    else
      var already := a.mode == OpPreve || (a.mode == Idle && a.ringing);
      End(true, |a.users|, if already then a.alarms else a.alarms + 1, a.valid && !(Closing(a) && left == 0))
  }

  function Now(a: Ap): End {
    EndOf(a, a.tout)
  }

  predicate EndKept(a: Ap, a': Ap) {
    && Now(a') == Now(a) && a.users <= a'.users
    && a'.mode != Wait1 && (a'.mode == Wait15 ==> a'.tout == FAST_FROM)
  }

  lemma TokenModesKeepEnd(a: Ap, input: Input)
    requires Inv(a) && input.open && (a.mode == Idle || a.mode == WaitToken || a.mode == OpPreve)
    ensures EndKept(a, Act(a, input))
  {
  }

  lemma OtherModesKeepEnd(a: Ap, input: Input)
    requires Inv(a) && input.open && (a.mode == OpNormal || a.mode == Wait15 || a.mode == Wait1)
    ensures EndKept(a, Act(a, input))
  {
  }

  lemma ObserveKeepsEnd(a: Ap, input: Input)
    requires OpenNoToken(input)
    ensures Now(Observe(a, input)) == Now(a) && Observe(a, input).users == a.users
    ensures ToEnd(Observe(a, input)) <= ToEnd(a) && (Waits(Observe(a, input)) <==> Waits(a))
    ensures ToEnd(Observe(a, input)) == 0 ==> ToEnd(a) == 0
  {
    hide Observe;
    ObserveKeeps(a, input);
  }

  /** No run with the door open and no token changes the end. */
  lemma RunKeepsEnd(a: Ap, input: Input)
    requires Inv(a) && OpenNoToken(input)
    ensures EndKept(a, Run(a, input))
  {
    hide Act, Observe, Inv, Now, ToEnd, Waits;
    var a0 := Observe(a, input);
    ObserveKeepsInv(a, input);
    ObserveKeepsEnd(a, input);
    InvModes(a0);
    if a0.mode == Idle || a0.mode == WaitToken || a0.mode == OpPreve {
      TokenModesKeepEnd(a0, input);
    } else {
      OtherModesKeepEnd(a0, input);
    }
  }

  lemma {:induction false} StepsKeepEnd(a: Ap, inputs: seq<Input>)
    requires Inv(a) && forall i | 0 <= i < |inputs| :: OpenNoToken(inputs[i])
    ensures var a' := Steps(a, inputs);
            && Inv(a') && Now(a') == Now(a) && a.users <= a'.users
            && (inputs != [] ==> a'.mode != Wait1 && (a'.mode == Wait15 ==> a'.tout == FAST_FROM))
    decreases |inputs|
  {
    hide Run, Inv, Now, OpenNoToken;
    if inputs != [] {
      var k := |inputs| - 1;
      StepsKeepEnd(a, inputs[..k]);
      RunKeepsInv(Steps(a, inputs[..k]), inputs[k]);
      RunKeepsEnd(Steps(a, inputs[..k]), inputs[k]);
    }
  }

  // ----- How long it takes -----

  /** An upper bound on the seconds until an open door rings or is open for good. */
  function ToEnd(a: Ap): nat {
    match a.mode
    case OpNormal => 0
    case OpPreve => if a.pending then 1 else 0
    case WaitToken => 1 + a.tout
    case Idle => if a.ringing then 2 else 62
    case _ => if a.slow then 64 else 63
  }

  predicate Waits(a: Ap) {
    a.mode == WaitToken && 0 < a.tout
  }

  lemma OpenActFalls(a: Ap, input: Input)
    requires Inv(a) && input.open
    ensures ToEnd(Act(a, input)) <= ToEnd(a)
    ensures 0 < ToEnd(a) && !Waits(a) ==> ToEnd(Act(a, input)) < ToEnd(a)
  {
  }

  lemma OpenRunFalls(a: Ap, input: Input)
    requires Inv(a) && OpenNoToken(input)
    ensures ToEnd(Run(a, input)) <= ToEnd(a)
    ensures 0 < ToEnd(a) && !Waits(a) ==> ToEnd(Run(a, input)) < ToEnd(a)
  {
    hide Act, Observe, Inv, ToEnd, Waits, Now;
    ObserveKeepsInv(a, input);
    ObserveKeepsEnd(a, input);
    OpenActFalls(Observe(a, input), input);
  }

  lemma {:induction false} OpenStepsFall(a: Ap, inputs: seq<Input>)
    requires Inv(a) && forall i | 0 <= i < |inputs| :: OpenNoToken(inputs[i])
    ensures Inv(Steps(a, inputs)) && ToEnd(Steps(a, inputs)) <= ToEnd(a)
    ensures inputs != [] && 0 < ToEnd(a) && !Waits(a) ==> ToEnd(Steps(a, inputs)) < ToEnd(a)
    decreases |inputs|
  {
    hide Run, Inv, ToEnd, Waits, OpenNoToken;
    if inputs != [] {
      var k := |inputs| - 1;
      OpenStepsFall(a, inputs[..k]);
      RunKeepsInv(Steps(a, inputs[..k]), inputs[k]);
      OpenRunFalls(Steps(a, inputs[..k]), inputs[k]);
    }
  }

  lemma OpenSecondFalls(a: Ap)
    requires Inv(a)
    ensures ToEnd(Second(a)) <= ToEnd(a) && (Waits(Second(a)) ==> Waits(a))
    ensures Waits(a) ==> ToEnd(Second(a)) < ToEnd(a)
  {
  }

  /** The end of `a` at the beginning of a round, which starts with a second. */
  function Soon(a: Ap): End {
    EndOf(a, if a.tout == 0 then 0 else a.tout - 1)
  }

  lemma SecondIsSoon(a: Ap)
    ensures Now(Second(a)) == Soon(a)
    ensures a.mode != Wait1 && (a.mode == Wait15 ==> a.tout == FAST_FROM) ==> Soon(a) == Now(a)
  {
  }

  lemma RoundKeepsEnd(a: Ap, inputs: seq<Input>)
    requires Inv(a) && OpenRound(inputs)
    ensures var a' := Round(a, inputs);
            && Inv(a') && Soon(a') == Now(a') == Soon(a) && a.users <= a'.users
            && (0 < ToEnd(a) ==> ToEnd(a') < ToEnd(a)) && ToEnd(a') <= ToEnd(a)
  {
    hide Run, Inv, Steps, ToEnd, Waits, Now, Soon, OpenNoToken;
    SecondKeepsInv(a);
    SecondIsSoon(a);
    OpenSecondFalls(a);
    StepsKeepEnd(Second(a), inputs);
    OpenStepsFall(Second(a), inputs);
    SecondIsSoon(Round(a, inputs));
  }

  lemma {:induction false} RoundsKeepEnd(a: Ap, rs: seq<seq<Input>>)
    requires Inv(a) && forall i | 0 <= i < |rs| :: OpenRound(rs[i])
    ensures var a' := Rounds(a, rs);
            && Inv(a') && Soon(a') == Soon(a) && (rs != [] ==> Now(a') == Soon(a)) && a.users <= a'.users
            && (ToEnd(a') == 0 || ToEnd(a') + |rs| <= ToEnd(a))
    decreases |rs|
  {
    hide Round, Inv, ToEnd, Soon, Now, OpenRound;
    if rs != [] {
      var k := |rs| - 1;
      RoundsKeepEnd(a, rs[..k]);
      RoundKeepsEnd(Rounds(a, rs[..k]), rs[k]);
    }
  }

  // ----- The end, exactly -----

  /** An open door that is never heard: it is open for good already, or a token read before will open it.  A round
      starts with a second, so a closing wait must have more than one left. */
  predicate Unheard(a: Ap) {
    a.mode == OpNormal || Granted(a)
  }

  predicate Granted(a: Ap) {
    && a.pending
    && (a.mode == WaitToken || a.mode == OpPreve || (a.mode == Idle && a.ringing) || (Closing(a) && 1 < a.tout))
  }

  lemma SoonIs(a: Ap)
    ensures Soon(a).rings <==> !Unheard(a)
    ensures Soon(a).openings == |a.users| + if Granted(a) then 1 else 0
    ensures Soon(a).alarms
            == a.alarms + if Unheard(a) || a.mode == OpPreve || (a.mode == Idle && a.ringing) then 0 else 1
    ensures Soon(a).valid <==> Granted(a) || (a.valid && !(Closing(a) && a.tout <= 1))
  {
  }

  lemma EndReached(a: Ap)
    requires Inv(a) && ToEnd(a) == 0
    ensures Now(a) == End(Rings(a), |a.users|, a.alarms, a.valid) && (Rings(a) <==> a.mode != OpNormal)
  {
  }

  lemma EndBound(a: Ap)
    requires Inv(a)
    ensures ToEnd(a) <= 64
  {
  }

  /** What every reachable state comes to with the door open and no token read, once the bound has passed: it rings if
      and only if it is not unheard; it is opened without a new token if and only if one is pending in a mode that does
      not drop it; it raises the alarm once unless it rang already; and an authorisation stands at the end if and only
      if it was given on the way, or stood before and was not about to run out. */
  lemma OpenDoorEnds(a: Ap, rs: seq<seq<Input>>)
    requires Inv(a) && ToEnd(a) <= |rs| && rs != [] && forall i | 0 <= i < |rs| :: OpenRound(rs[i])
    ensures var b := Rounds(a, rs);
            && (Rings(b) <==> !Unheard(a)) && (b.mode == OpNormal <==> Unheard(a))
            && a.users <= b.users && |b.users| == |a.users| + (if Granted(a) then 1 else 0)
            && b.alarms
               == a.alarms + (if Unheard(a) || a.mode == OpPreve || (a.mode == Idle && a.ringing) then 0 else 1)
            && (b.valid <==> Granted(a) || (a.valid && !(Closing(a) && a.tout <= 1)))
  {
    hide Rounds, ToEnd, Soon, Now, OpenRound, Inv, Unheard, Granted, Rings;
    RoundsKeepEnd(a, rs);
    EndReached(Rounds(a, rs));
    SoonIs(a);
  }

  /** After 64 seconds an open door rings if and only if it is not unheard. */
  lemma OpenDoorRingsIff(a: Ap, rs: seq<seq<Input>>)
    requires Inv(a) && 64 <= |rs| && forall i | 0 <= i < |rs| :: OpenRound(rs[i])
    ensures Rings(Rounds(a, rs)) <==> !Unheard(a)
  {
    hide Rounds, ToEnd, OpenRound, Inv, Unheard, Rings;
    EndBound(a);
    OpenDoorEnds(a, rs);
  }

  /** A door that opens at rest and stays open without a token raises the alarm, once, within 62 seconds, and the alarm
      goes on as long as the door stays open. */
  lemma OpenDoorRings(a: Ap, rs: seq<seq<Input>>)
    requires Inv(a) && AtRest(a) && 62 <= |rs| && forall i | 0 <= i < |rs| :: OpenRound(rs[i])
    ensures Rings(Rounds(a, rs)) && Rounds(a, rs).alarms == a.alarms + 1 && Rounds(a, rs).users == a.users
  {
    hide Rounds, OpenRound, Inv, Rings;
    OpenDoorEnds(a, rs);
  }

  // ----- Single runs -----

  lemma ActRaises(a: Ap, input: Input)
    requires Inv(a)
    ensures var a' := Act(a, input);
            if a.mode == WaitToken && !a.pending && a.tout == 0 then a'.alarms == a.alarms + 1 && a'.valid == a.valid
            else a'.alarms == a.alarms
  {
  }

  /** A run raises the alarm exactly when the wait for a token runs out, and leaves an authorisation as it was. */
  lemma AlarmKeepsAuthorisation(a: Ap, input: Input)
    requires Inv(a)
    ensures var a0, a' := Observe(a, input), Run(a, input);
            && (a'.alarms == a.alarms + 1 <==> a.mode == WaitToken && !a0.pending && a.tout == 0)
            && (a'.alarms == a.alarms + 1 ==> (a'.valid <==> a.valid))
  {
    hide Act, Observe, Inv;
    ObserveKeeps(a, input);
    ObserveKeepsInv(a, input);
    ActRaises(Observe(a, input), input);
  }

  /** One closed run silences the alarm, and from then on the door can stand open without a token and without any
      alarm, for any number of runs and whatever tokens are read. */
  lemma {:induction false} ReopenedDoorUnnoticed(a: Ap, closed: Input, inputs: seq<Input>)
    requires Rings(a) && !a.valid && !closed.open
    requires forall i | 0 <= i < |closed.touches| :: closed.touches[i] == 0
    requires forall i | 0 <= i < |inputs| :: inputs[i].open
    ensures var a' := Steps(Run(a, closed), inputs); a'.mode == OpNormal && !a'.valid && a'.alarms == a.alarms
    decreases |inputs|
  {
    hide Observe;
    if inputs == [] {
      ObserveKeeps(a, closed);
    } else {
      var k := |inputs| - 1;
      ReopenedDoorUnnoticed(a, closed, inputs[..k]);
      ObserveKeeps(Steps(Run(a, closed), inputs[..k]), inputs[k]);
    }
  }

  // ----- A run from power-up that rings with an authorisation -----

  const AJAR: Input := Input([], false, Untouched, true, false)
  const SHUT: Input := Input([], false, Untouched, false, false)

  lemma {:induction false} Appended(a: Ap, es: seq<Event>, more: seq<Event>)
    ensures DoAll(a, es + more) == DoAll(DoAll(a, es), more)
    decreases |more|
  {
    hide Do;
    if more == [] {
      assert es + more == es;
    } else {
      Appended(a, es, more[..|more| - 1]);
      assert (es + more)[..|es + more| - 1] == es + more[..|more| - 1];
    }
  }

  lemma {:induction false} Ticks(a: Ap, n: nat)
    requires n <= a.tout
    ensures DoAll(a, seq(n, _ => Tick)) == a.(tout := a.tout - n)
  {
    if n != 0 {
      var es := seq(n, _ => Tick);
      Ticks(a, n - 1);
      assert es[..n - 1] == seq(n - 1, _ => Tick);
    }
  }

  lemma DoLast(a: Ap, es: seq<Event>, e: Event)
    ensures DoAll(a, es + [e]) == Do(DoAll(a, es), e)
  {
    hide Do;
    assert (es + [e])[..|es|] == es;
  }

  lemma DoOne(a: Ap, e: Event)
    ensures DoAll(a, [e]) == Do(a, e)
  {
    hide Do;
    assert [e][..0] == [];
  }

  lemma NothingSeen(a: Ap)
    ensures Run(a, AJAR) == Act(a, AJAR) && Run(a, SHUT) == Act(a, SHUT)
  {
    hide Act;
  }

  lemma OneTouch(a: Ap, id: nat)
    ensures Run(a, AJAR.(touches := [id])) == Act(Touch(a, id), AJAR.(touches := [id]))
  {
    hide Act;
    assert [id][..0] == [] && TouchAll(a, []) == a;
    assert TouchAll(a, [id]) == Touch(a, id);
    assert Observe(a, AJAR.(touches := [id])) == Touch(a, id);
  }

  // The states of the run below, after each of its first four runs.
  const ASKED: Ap := PowerUp(false).(mode := WaitToken, tout := 60)
  const OPENED: Ap := Authorise(Touch(ASKED, 5))
  const SHUTTING: Ap := OPENED.(mode := Wait15, tout := CLOSING_WAIT, slow := true)
  const REOPENED: Ap := SHUTTING.(mode := WaitToken, tout := 60, slow := false)

  lemma RunStates()
    ensures Run(PowerUp(false), AJAR) == ASKED && Run(ASKED, AJAR.(touches := [5])) == OPENED
    ensures Run(OPENED, SHUT) == SHUTTING && Run(SHUTTING, AJAR) == REOPENED
  {
    hide Run;
    NothingSeen(PowerUp(false));
    OneTouch(ASKED, 5);
    NothingSeen(OPENED);
    NothingSeen(SHUTTING);
  }

  lemma LastRun()
    ensures var a := Run(REOPENED.(tout := 0), AJAR); Rings(a) && a.valid && a.users == [5]
  {
    hide Run;
    NothingSeen(REOPENED.(tout := 0));
  }

  /** An authorisation can stand while the door rings: opened with token 5, closed, reopened, and left for a minute. */
  lemma StaleAuthorisationHappens()
    ensures var es := [Step(AJAR)] + [Step(AJAR.(touches := [5]))] + [Step(SHUT)] + [Step(AJAR)];
            var a := DoAll(PowerUp(false), es + seq(60, _ => Tick) + [Step(AJAR)]);
            Rings(a) && a.valid && a.users == [5]
  {
    hide Run, DoAll, Rings;
    var p, e1 := PowerUp(false), Step(AJAR);
    var e2, e3 := Step(AJAR.(touches := [5])), Step(SHUT);
    var es, ticks := [e1] + [e2] + [e3] + [e1], seq(60, _ => Tick);
    RunStates();
    DoOne(p, e1);
    DoLast(p, [e1], e2);
    DoLast(p, [e1] + [e2], e3);
    DoLast(p, [e1] + [e2] + [e3], e1);
    Appended(p, es, ticks);
    Ticks(REOPENED, 60);
    DoLast(p, es + ticks, e1);
    LastRun();
  }

  /** A token read while the door is already authorised is kept, and opens the door again later without a new one. */
  lemma TokenKeptForLater(a: Ap, id: nat)
    requires a.mode == OpNormal && id != 0
    ensures var a' := Run(Run(Run(Run(a, AJAR.(touches := [id])), SHUT), AJAR), AJAR);
            a'.mode == OpNormal && a'.valid && a'.users == a.users + [id]
  {
    hide Run;
    OneTouch(a, id);
    var a1 := Run(a, AJAR.(touches := [id]));
    NothingSeen(a1);
    NothingSeen(Run(a1, SHUT));
    NothingSeen(Run(Run(a1, SHUT), AJAR));
  }
}
