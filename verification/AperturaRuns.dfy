/** Runs of the door-opening machine: what always holds, and what a closed door leads to. */
module AperturaRuns {
  import opened Apertura

  // ----- What every run keeps -----

  /** An authorisation stands only outside `Idle` and only after a token, and its licence is that of the last opening
      logged unless it has expired; the pre-alarm that takes the transmitter's power is never reached; the saved flag is
      set exactly while the door alarm rings, or waits to after power-up. */
  predicate Inv(a: Ap) {
    && a.mode != Unknown && a.mode != WaitPreve && !a.txOff && !a.preve
    && (a.mode == Idle ==> !a.valid)
    && (a.valid ==> a.consumed && a.users != [] && (a.licence == 0 || a.licence == a.users[|a.users| - 1]))
    && (a.mode == OpPreve ==> a.ringing && a.tout <= RINGING_WAIT)
    && (a.ringing ==> a.mode == OpPreve || a.mode == Idle)
    && (a.mode == WaitToken ==> a.tout <= TOKEN_WAIT) && (a.mode == Wait1 ==> a.tout <= SHORT_WAIT)
    && (a.mode == Wait15 ==> a.tout <= CLOSING_WAIT)
  }

  lemma {:induction false} TouchesKeep(a: Ap, ids: seq<nat>)
    ensures var a' := TouchAll(a, ids);
            a' == a.(touched := a'.touched, pending := a'.pending) && (a.pending ==> a'.pending)
    ensures TouchAll(a, ids).touched == if ids == [] then a.touched else ids[|ids| - 1]
    ensures (forall i | 0 <= i < |ids| :: ids[i] == 0) ==> TouchAll(a, ids).pending == a.pending
    decreases |ids|
  {
    if ids != [] {
      TouchesKeep(a, ids[..|ids| - 1]);
    }
  }

  /** Other tasks can read tokens, clear the licence and take the buzzer, and no more. */
  lemma ObserveKeeps(a: Ap, input: Input)
    ensures var a' := Observe(a, input);
            && a' == a.(touched := a'.touched, pending := a'.pending, licence := a'.licence, slow := a'.slow)
            && (a.pending ==> a'.pending) && (a'.licence == 0 || a'.licence == a.licence) && (a'.slow ==> a.slow)
            && a'.touched == (if input.touches == [] then a.touched else input.touches[|input.touches| - 1])
            && ((forall i | 0 <= i < |input.touches| :: input.touches[i] == 0) ==> a'.pending == a.pending)
  {
    hide TouchAll;
    TouchesKeep(a, input.touches);
  }

  lemma ObserveKeepsInv(a: Ap, input: Input)
    requires Inv(a)
    ensures Inv(Observe(a, input))
  {
    hide Observe;
    ObserveKeeps(a, input);
  }

  lemma OpenModesKeepInv(a: Ap, input: Input)
    requires Inv(a) && (a.mode == Idle || a.mode == WaitToken || a.mode == OpPreve)
    ensures Inv(Act(a, input))
  {
  }

  lemma OtherModesKeepInv(a: Ap, input: Input)
    requires Inv(a) && (a.mode == OpNormal || a.mode == Wait15 || a.mode == Wait1)
    ensures Inv(Act(a, input))
  {
  }

  lemma InvModes(a: Ap)
    requires Inv(a)
    ensures a.mode in {Idle, WaitToken, OpPreve, OpNormal, Wait15, Wait1}
  {
  }

  lemma RunKeepsInv(a: Ap, input: Input)
    requires Inv(a)
    ensures Inv(Run(a, input))
  {
    hide Act, Observe, Inv;
    var a0 := Observe(a, input);
    ObserveKeepsInv(a, input);
    InvModes(a0);
    if a0.mode == Idle || a0.mode == WaitToken || a0.mode == OpPreve {
      OpenModesKeepInv(a0, input);
    } else {
      OtherModesKeepInv(a0, input);
    }
  }

  lemma SecondKeepsInv(a: Ap)
    requires Inv(a)
    ensures Inv(Second(a))
  {
  }

  datatype Event = Tick | Step(input: Input)

  function Do(a: Ap, e: Event): Ap {
    match e
    case Tick => Second(a)
    case Step(input) => Run(a, input)
  }

  function DoAll(a: Ap, es: seq<Event>): Ap
    decreases |es|
  {
    if es == [] then a else Do(DoAll(a, es[..|es| - 1]), es[|es| - 1])
  }

  /** Over every run from power-up. */
  lemma {:induction false} AlwaysInv(ringing: bool, es: seq<Event>)
    ensures Inv(DoAll(PowerUp(ringing), es))
    decreases |es|
  {
    hide Run, Second, Inv;
    if es == [] {
      PowerUpInv(ringing);
    } else {
      var before := DoAll(PowerUp(ringing), es[..|es| - 1]);
      AlwaysInv(ringing, es[..|es| - 1]);
      match es[|es| - 1]
      case Tick => SecondKeepsInv(before);
      case Step(input) => RunKeepsInv(before, input);
    }
  }

  lemma PowerUpInv(ringing: bool)
    ensures Inv(PowerUp(ringing))
  {
  }

  lemma ActAuthorises(a: Ap, input: Input)
    requires Inv(a)
    ensures var a' := Act(a, input);
            if a.pending && (a.mode == WaitToken || a.mode == OpPreve)
            then a'.valid && a'.users == a.users + [a.touched]
            else a'.users == a.users && (a'.valid ==> a.valid)
  {
  }

  /** An opening is authorised and logged if and only if a token is pending in a mode that waits for one, and it is
      logged under the last token read.  Otherwise no authorisation begins. */
  lemma AuthorisedByToken(a: Ap, input: Input)
    requires Inv(a)
    ensures var a0, a' := Observe(a, input), Run(a, input);
            && a0.touched == (if input.touches == [] then a.touched else input.touches[|input.touches| - 1])
            && if a0.pending && (a.mode == WaitToken || a.mode == OpPreve)
               then a'.valid && a'.users == a.users + [a0.touched]
               else a'.users == a.users && (a'.valid ==> a.valid)
  {
    hide Act, Observe, Inv;
    ObserveKeeps(a, input);
    ObserveKeepsInv(a, input);
    ActAuthorises(Observe(a, input), input);
  }

  /** A token read in `Idle` is dropped, unless the door alarm was ringing before power-up. */
  lemma TokenInIdleDropped(a: Ap, input: Input)
    requires a.mode == Idle
    ensures Run(a, input).pending <==> a.ringing && Observe(a, input).pending
    ensures !Run(a, input).valid <==> !a.valid
  {
    hide Observe;
    ObserveKeeps(a, input);
  }

  /** A door alarm outlives a power cut: the first run rings again. */
  lemma AlarmSurvivesPowerCut(a: Ap, input: Input)
    requires Inv(a) && a.mode == OpPreve
    ensures Run(PowerUp(a.ringing), input).mode == OpPreve
  {
    hide Observe;
    ObserveKeeps(PowerUp(true), input);
  }

  // ----- A closed door -----

  /** An upper bound on the seconds until the machine rests, with the door closed. */
  function Rank(a: Ap): nat {
    match a.mode
    case Idle => if a.ringing then 1865 else 0
    case Wait1 => 1 + a.tout
    case Wait15 => 62 + a.tout
    case OpNormal => 1863
    case OpPreve => 1864
    case WaitToken => 1865 + a.tout
    case WaitPreve => 1865 + a.tout
    case Unknown => 1
  }

  predicate AtRest(a: Ap) {
    a.mode == Idle && !a.ringing && !a.valid
  }

  predicate Timed(a: Ap) {
    a.mode == Wait1 || a.mode == Wait15 || a.mode == WaitToken
  }

  lemma ClosedActFalls(a: Ap, input: Input)
    requires Inv(a) && !input.open
    ensures AtRest(a) ==> AtRest(Act(a, input))
    ensures Rank(Act(a, input)) <= Rank(a)
    ensures !AtRest(a) && !(Timed(a) && 0 < a.tout) ==> Rank(Act(a, input)) < Rank(a)
  {
  }

  lemma ObserveKeepsRank(a: Ap, input: Input)
    ensures var a0 := Observe(a, input);
            Rank(a0) == Rank(a) && (AtRest(a0) <==> AtRest(a)) && (Timed(a0) <==> Timed(a)) && a0.tout == a.tout
  {
    hide Observe;
    ObserveKeeps(a, input);
  }

  lemma ClosedRunFalls(a: Ap, input: Input)
    requires Inv(a) && !input.open
    ensures AtRest(a) ==> AtRest(Run(a, input))
    ensures Rank(Run(a, input)) <= Rank(a)
    ensures !AtRest(a) && !(Timed(a) && 0 < a.tout) ==> Rank(Run(a, input)) < Rank(a)
  {
    hide Act, Observe, Inv, Rank, AtRest, Timed;
    ObserveKeepsInv(a, input);
    ObserveKeepsRank(a, input);
    ClosedActFalls(Observe(a, input), input);
  }

  lemma SecondFalls(a: Ap)
    requires Inv(a)
    ensures AtRest(a) ==> AtRest(Second(a))
    ensures Rank(Second(a)) <= Rank(a)
    ensures Timed(a) && 0 < a.tout ==> Rank(Second(a)) < Rank(a)
    ensures !Timed(a) ==> !Timed(Second(a))
  {
  }

  function Steps(a: Ap, inputs: seq<Input>): Ap
    decreases |inputs|
  {
    if inputs == [] then a else Run(Steps(a, inputs[..|inputs| - 1]), inputs[|inputs| - 1])
  }

  /** One second, and then the runs in it. */
  function Round(a: Ap, inputs: seq<Input>): Ap {
    Steps(Second(a), inputs)
  }

  predicate Closed(inputs: seq<Input>) {
    inputs != [] && forall i | 0 <= i < |inputs| :: !inputs[i].open
  }

  lemma {:induction false} ClosedStepsFall(a: Ap, inputs: seq<Input>)
    requires Inv(a) && forall i | 0 <= i < |inputs| :: !inputs[i].open
    ensures var a' := Steps(a, inputs);
            && Inv(a') && (AtRest(a) ==> AtRest(a')) && Rank(a') <= Rank(a)
            && (inputs != [] && !AtRest(a) && !(Timed(a) && 0 < a.tout) ==> Rank(a') < Rank(a))
    decreases |inputs|
  {
    hide Run, Inv, AtRest, Timed, Rank;
    if inputs != [] {
      var k := |inputs| - 1;
      var before := Steps(a, inputs[..k]);
      ClosedStepsFall(a, inputs[..k]);
      RunKeepsInv(before, inputs[k]);
      ClosedRunFalls(before, inputs[k]);
    }
  }

  lemma ClosedRoundFalls(a: Ap, inputs: seq<Input>)
    requires Inv(a) && Closed(inputs)
    ensures var a' := Round(a, inputs);
            && Inv(a') && (AtRest(a) ==> AtRest(a')) && (!AtRest(a) ==> Rank(a') < Rank(a))
  {
    hide Run, Inv, Rank, Steps;
    SecondKeepsInv(a);
    SecondFalls(a);
    ClosedStepsFall(Second(a), inputs);
  }

  function Rounds(a: Ap, rs: seq<seq<Input>>): Ap
    decreases |rs|
  {
    if rs == [] then a else Round(Rounds(a, rs[..|rs| - 1]), rs[|rs| - 1])
  }

  lemma {:induction false} ClosedRoundsFall(a: Ap, rs: seq<seq<Input>>)
    requires Inv(a) && forall i | 0 <= i < |rs| :: Closed(rs[i])
    ensures var a' := Rounds(a, rs); Inv(a') && (AtRest(a') || Rank(a') + |rs| <= Rank(a))
    decreases |rs|
  {
    hide Round, Inv, AtRest, Rank, Closed;
    if rs != [] {
      var k := |rs| - 1;
      ClosedRoundsFall(a, rs[..k]);
      ClosedRoundFalls(Rounds(a, rs[..k]), rs[k]);
    }
  }

  lemma RankBound(a: Ap)
    requires Inv(a)
    ensures Rank(a) <= 1925 && (Rank(a) == 0 ==> AtRest(a))
  {
  }

  /** With the door closed, the machine rests with no authorisation after 1925 seconds, from any state it can be in,
      whatever tokens are read; and it goes on resting. */
  lemma ClosedDoorRests(a: Ap, rs: seq<seq<Input>>)
    requires Inv(a) && 1925 <= |rs| && forall i | 0 <= i < |rs| :: Closed(rs[i])
    ensures AtRest(Rounds(a, rs))
  {
    hide Rounds, Rank, AtRest, Closed, Inv;
    RankBound(a);
    ClosedRoundsFall(a, rs);
    RankBound(Rounds(a, rs));
  }

  /** Not so for a state that the machine cannot reach: from an unknown one it falls into `Idle` still authorised, and
      stays so. */
  lemma UnknownStaysAuthorised(a: Ap, input: Input, rs: seq<seq<Input>>)
    requires a.mode == Unknown && a.valid && !a.ringing && forall i | 0 <= i < |rs| :: Closed(rs[i])
    ensures Rounds(Run(a, input), rs).mode == Idle && Rounds(Run(a, input), rs).valid
  {
    hide Observe, Rounds;
    ObserveKeeps(a, input);
    IdleRoundsStay(Run(a, input), rs);
  }

  lemma {:induction false} IdleRoundsStay(a: Ap, rs: seq<seq<Input>>)
    requires a.mode == Idle && !a.ringing && forall i | 0 <= i < |rs| :: Closed(rs[i])
    ensures var a' := Rounds(a, rs); a'.mode == Idle && a'.valid == a.valid && !a'.ringing
    decreases |rs|
  {
    hide Round, Steps;
    if rs != [] {
      var k := |rs| - 1;
      IdleRoundsStay(a, rs[..k]);
      IdleStepsStay(Second(Rounds(a, rs[..k])), rs[k]);
      RoundIs(Rounds(a, rs[..k]), rs[k]);
    }
  }

  lemma RoundIs(a: Ap, inputs: seq<Input>)
    ensures Round(a, inputs) == Steps(Second(a), inputs)
  {
  }

  lemma {:induction false} IdleStepsStay(a: Ap, inputs: seq<Input>)
    requires a.mode == Idle && !a.ringing && forall i | 0 <= i < |inputs| :: !inputs[i].open
    ensures var a' := Steps(a, inputs); a'.mode == Idle && a'.valid == a.valid && !a'.ringing
    decreases |inputs|
  {
    hide Observe;
    if inputs != [] {
      var k := |inputs| - 1;
      IdleStepsStay(a, inputs[..k]);
      ObserveKeeps(Steps(a, inputs[..k]), inputs[k]);
    }
  }
}
