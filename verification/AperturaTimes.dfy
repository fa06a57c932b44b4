/** What one run of the door machine shows, and how long it waits: exactly, in seconds. */
module AperturaTimes {
  import opened Apertura
  import opened AperturaRuns

  // ----- One run, by what it shows -----

  /** A pending token is consumed. */
  predicate Consumes(a: Ap) {
    a.pending && (a.mode == WaitToken || a.mode == WaitPreve || a.mode == OpPreve)
  }

  /** A wait has run out without a token. */
  predicate RunsOut(a: Ap) {
    !a.pending && a.tout == 0
  }

  /** The authorisation begins with a token that is consumed, and ends when a closing wait or the wait of the pre-alarm
      runs out; the licence is that of the token, and cleared at rest. */
  predicate ShowsValid(a: Ap, a': Ap) {
    && (a'.valid <==> || Consumes(a)
                      || (&& a.valid && !((a.mode == Wait15 || a.mode == Wait1) && a.tout == 0)
                          && !(a.mode == WaitPreve && RunsOut(a))))
    && a'.licence == (if Consumes(a) then a.touched else if a.mode == Idle && !a.ringing then 0 else a.licence)
    && a'.users == (if Consumes(a) then a.users + [a.touched] else a.users)
    && (a'.pending <==> a.pending && !Consumes(a) && !(a.mode == Idle && !a.ringing))
  }

  /** The alarm begins when the wait for a token runs out, and its saved flag is cleared by a token or a closed door. */
  predicate ShowsRinging(a: Ap, open: bool, a': Ap) {
    && (a'.ringing <==> || (a.mode == WaitToken && RunsOut(a))
                        || (a.ringing && !(a.mode == OpPreve && (a.pending || !open))))
    && a'.alarms == (if a.mode == WaitToken && RunsOut(a) then a.alarms + 1 else a.alarms)
  }

  /** The pre-alarm takes the transmitter's power when its wait runs out. The power comes back at rest, while
      waiting for a token, while open, and when the pre-alarm ends. */
  predicate ShowsPower(a: Ap, open: bool, a': Ap) {
    && (a'.txOff <==> || (a.mode == WaitPreve && RunsOut(a))
                      || (&& a.txOff && !(a.mode == Idle && !a.ringing) && a.mode != WaitToken
                          && a.mode != OpNormal && !(a.mode == OpPreve && (a.pending || a.tout == 0))))
    && (a'.preve <==> || (a.mode == WaitPreve && RunsOut(a))
                      || (a.preve && !(a.mode == OpPreve && (a.pending || !open))))
  }

  /** With ten minutes of closing left a slow buzzer is made fast, and nothing else happens. */
  predicate OnlyFaster(a: Ap, buzzer: Buzzer) {
    a.mode == Wait15 && a.tout == 600 && a.slow && buzzer != Silent
  }

  /** Where the machine goes. */
  predicate ShowsMode(a: Ap, input: Input, a': Ap) {
    var closing := (a.mode == Wait15 || a.mode == Wait1) && 0 < a.tout && !OnlyFaster(a, input.buzzer);
    && (a'.mode == OpNormal <==> || Consumes(a) || (a.mode == OpPreve && !input.open)
                                 || (a.mode == OpNormal && input.open))
    && (a'.mode == WaitToken <==> || (a.mode == Idle && !a.ringing && input.open)
                                  || (a.mode == WaitToken && !a.pending && 0 < a.tout)
                                  || (closing && input.open))
    && (a'.mode == OpPreve <==> || (a.mode == Idle && a.ringing)
                                || ((a.mode == WaitToken || a.mode == WaitPreve) && RunsOut(a))
                                || (a.mode == OpPreve && !a.pending && input.open))
    && (a'.mode == WaitPreve <==> a.mode == WaitPreve && !a.pending && 0 < a.tout)
    && (a'.mode == Wait15 <==> || (a.mode == OpNormal && !input.open) || OnlyFaster(a, input.buzzer)
                               || (a.mode == Wait15 && closing && !input.open && !input.quiet))
    && (a'.mode == Wait1 <==> closing && !input.open && (a.mode == Wait1 || input.quiet))
    && a'.mode != Unknown
  }

  /** The waits that begin: a minute for a token, six minutes of alarm, twenty of pre-alarm, half an hour and one minute
      of closing. */
  predicate ShowsWait(a: Ap, a': Ap) {
    a'.tout == if a'.mode == WaitToken && a.mode != WaitToken then 60
               else if a'.mode == OpPreve && (a.mode == Idle || a.mode == WaitToken) then 360
               else if a'.mode == OpPreve && a.mode == WaitPreve then 1200
               else if a'.mode == Wait15 && a.mode != Wait15 then 1800
               else if a'.mode == Wait1 && a.mode != Wait1 then 60
               else a.tout
  }

  predicate Shows(a: Ap, input: Input, a': Ap) {
    && ShowsValid(a, a') && ShowsRinging(a, input.open, a') && ShowsPower(a, input.open, a')
    && ShowsMode(a, input, a') && ShowsWait(a, a')
  }

  lemma IdleShows(a: Ap, input: Input)
    requires a.mode == Idle
    ensures Shows(a, input, Act(a, input))
  {
  }

  lemma WaitTokenShows(a: Ap, input: Input)
    requires a.mode == WaitToken
    ensures Shows(a, input, Act(a, input))
  {
  }

  lemma OpNormalShows(a: Ap, input: Input)
    requires a.mode == OpNormal
    ensures Shows(a, input, Act(a, input))
  {
  }

  lemma WaitPreveShows(a: Ap, input: Input)
    requires a.mode == WaitPreve
    ensures Shows(a, input, Act(a, input))
  {
  }

  lemma OpPreveShows(a: Ap, input: Input)
    requires a.mode == OpPreve
    ensures Shows(a, input, Act(a, input))
  {
  }

  lemma ResoundIs(a: Ap, buzzer: Buzzer, slow: bool)
    ensures var b := Resound(a, buzzer, slow); b == a.(slow := b.slow)
    ensures Resound(a, buzzer, slow).slow == if buzzer == Silent then slow else a.slow
  {
  }

  lemma ClosingEnds(a: Ap, input: Input)
    requires (a.mode == Wait15 || a.mode == Wait1) && a.tout == 0
    ensures Shows(a, input, a.(valid := false, mode := Idle, slow := false))
  {
  }

  lemma ClosingOpens(a: Ap, input: Input)
    requires (a.mode == Wait15 || a.mode == Wait1) && 0 < a.tout && input.open && !OnlyFaster(a, input.buzzer)
    ensures Shows(a, input, a.(tout := 60, mode := WaitToken, slow := false))
  {
  }

  lemma ClosingStays(a: Ap, input: Input, slow: bool)
    requires (a.mode == Wait15 || a.mode == Wait1) && 0 < a.tout
    requires OnlyFaster(a, input.buzzer) || (!input.open && (a.mode == Wait15 ==> !input.quiet))
    ensures Shows(a, input, a.(slow := slow))
  {
  }

  lemma ClosingQuiet(a: Ap, input: Input)
    requires a.mode == Wait15 && 0 < a.tout && !input.open && input.quiet && !OnlyFaster(a, input.buzzer)
    ensures Shows(a, input, a.(mode := Wait1, tout := 60, slow := true))
  {
  }

  lemma Wait15Act(a: Ap, input: Input)
    requires a.mode == Wait15
    ensures var slow := Resound(a, input.buzzer, a.tout > 600).slow;
            Act(a, input) == if a.tout == 0 then a.(valid := false, mode := Idle, slow := false)
                             else if OnlyFaster(a, input.buzzer) then a.(slow := false)
                             else if input.open then a.(tout := 60, mode := WaitToken, slow := false)
                             else if input.quiet then a.(mode := Wait1, tout := 60, slow := true)
                             else a.(slow := slow)
  {
    hide Resound;
    ResoundIs(a, input.buzzer, a.tout > 600);
  }

  lemma Wait15Shows(a: Ap, input: Input)
    requires a.mode == Wait15
    ensures Shows(a, input, Act(a, input))
  {
    hide Shows, Resound, Act, OnlyFaster;
    Wait15Act(a, input);
    if a.tout == 0 {
      ClosingEnds(a, input);
    } else if OnlyFaster(a, input.buzzer) {
      ClosingStays(a, input, false);
    } else if input.open {
      ClosingOpens(a, input);
    } else if input.quiet {
      ClosingQuiet(a, input);
    } else {
      ClosingStays(a, input, Resound(a, input.buzzer, a.tout > 600).slow);
    }
  }

  lemma Wait1Shows(a: Ap, input: Input)
    requires a.mode == Wait1
    ensures Shows(a, input, Act(a, input))
  {
    hide Shows, Resound;
    ResoundIs(a, input.buzzer, true);
    if a.tout == 0 {
      ClosingEnds(a, input);
    } else if input.open {
      ClosingOpens(a, input);
    } else {
      ClosingStays(a, input, Resound(a, input.buzzer, true).slow);
    }
  }

  lemma UnknownShows(a: Ap, input: Input)
    requires a.mode == Unknown
    ensures Shows(a, input, Act(a, input))
  {
  }

  /** Every run of the machine, in every state, reachable or not, shows exactly this. */
  lemma ActShows(a: Ap, input: Input)
    ensures Shows(a, input, Act(a, input))
  {
    hide Act, Shows;
    match a.mode
    case Idle => IdleShows(a, input);
    case WaitToken => WaitTokenShows(a, input);
    case OpNormal => OpNormalShows(a, input);
    case WaitPreve => WaitPreveShows(a, input);
    case OpPreve => OpPreveShows(a, input);
    case Wait15 => Wait15Shows(a, input);
    case Wait1 => Wait1Shows(a, input);
    case Unknown => UnknownShows(a, input);
  }

  /** With ten minutes of closing left and the buzzer still slow, a run does nothing but make it fast. A buzzer
      that fell silent sounds again, slowly before that and fast from then on. */
  lemma TenMinutes(a: Ap, input: Input)
    requires a.mode == Wait15
    ensures a.tout == 600 && a.slow && input.buzzer != Silent ==> Act(a, input) == a.(slow := false)
    ensures var a' := Act(a, input);
            a'.mode == Wait15 && input.buzzer == Silent ==> (a'.slow <==> 600 < a.tout)
    ensures a.tout == 600 && input.buzzer == Silent ==> Act(a, input) == Act(a.(slow := false), input)
  {
  }

  lemma {:induction false} TouchesShow(a: Ap, ids: seq<nat>)
    ensures TouchAll(a, ids).pending <==> a.pending || exists i | 0 <= i < |ids| :: ids[i] != 0
    decreases |ids|
  {
    if ids != [] {
      var k := |ids| - 1;
      TouchesShow(a, ids[..k]);
      if i :| 0 <= i < k && ids[..k][i] != 0 {
        assert ids[i] != 0;
      }
      if ids[k] == 0 && exists i | 0 <= i < |ids| :: ids[i] != 0 {
        var i :| 0 <= i < |ids| && ids[i] != 0;
        assert ids[..k][i] != 0;
      }
    }
  }

  /** What other tasks do between two runs: a token is pending if one that is known was read, the last one read is
      remembered, an expired licence is cleared, and a buzzer that another task took is slow no more. */
  lemma OthersShow(a: Ap, input: Input)
    ensures var b := Observe(a, input);
            && (b.pending <==> a.pending || exists i | 0 <= i < |input.touches| :: input.touches[i] != 0)
            && b.touched == (if input.touches == [] then a.touched else input.touches[|input.touches| - 1])
            && b.licence == (if input.expired then 0 else a.licence)
            && (b.slow <==> a.slow && input.buzzer == Untouched)
            && b == a.(pending := b.pending, touched := b.touched, licence := b.licence, slow := b.slow)
  {
    hide TouchAll;
    TouchesShow(a, input.touches);
    TouchesKeep(a, input.touches);
  }

  // ----- Waiting for a token -----

  predicate NoToken(inputs: seq<Input>) {
    forall i | 0 <= i < |inputs| :: forall k | 0 <= k < |inputs[i].touches| :: inputs[i].touches[k] == 0
  }

  predicate Tokenless(rs: seq<seq<Input>>) {
    forall i | 0 <= i < |rs| :: rs[i] != [] && NoToken(rs[i])
  }

  lemma WaitRun(a: Ap, input: Input)
    requires a.mode == WaitToken && !a.pending && 0 < a.tout && NoToken([input])
    ensures var a' := Run(a, input);
            a'.mode == WaitToken && !a'.pending && a'.tout == a.tout && a'.alarms == a.alarms && a'.users == a.users
            && (a'.valid <==> a.valid)
  {
    hide Observe;
    assert [input][0] == input;
    ObserveKeeps(a, input);
  }

  lemma {:induction false} WaitSteps(a: Ap, inputs: seq<Input>)
    requires a.mode == WaitToken && !a.pending && 0 < a.tout && NoToken(inputs)
    ensures var a' := Steps(a, inputs);
            a'.mode == WaitToken && !a'.pending && a'.tout == a.tout && a'.alarms == a.alarms && a'.users == a.users
            && (a'.valid <==> a.valid)
    decreases |inputs|
  {
    hide Run;
    if inputs != [] {
      var k := |inputs| - 1;
      WaitSteps(a, inputs[..k]);
      WaitRun(Steps(a, inputs[..k]), inputs[k]);
    }
  }

  lemma {:induction false} WaitRounds(a: Ap, rs: seq<seq<Input>>)
    requires a.mode == WaitToken && !a.pending && Tokenless(rs) && |rs| < a.tout
    ensures var a' := Rounds(a, rs);
            a'.mode == WaitToken && !a'.pending && a'.tout == a.tout - |rs| && a'.alarms == a.alarms
            && a'.users == a.users && (a'.valid <==> a.valid)
    decreases |rs|
  {
    hide Steps, NoToken;
    if rs != [] {
      var k := |rs| - 1;
      WaitRounds(a, rs[..k]);
      WaitSteps(Second(Rounds(a, rs[..k])), rs[k]);
    }
  }

  /** A wait for a token lasts, whether the door is open or closed, for exactly 60 seconds: the first run in the
      sixtieth raises the alarm. */
  lemma TokenWaitExactly(a: Ap, rs: seq<seq<Input>>, next: Input)
    requires a.mode == WaitToken && !a.pending && a.tout == 60 && Tokenless(rs) && NoToken([next])
    ensures |rs| < 60 ==> var a' := Rounds(a, rs); a'.mode == WaitToken && a'.alarms == a.alarms
    ensures |rs| == 59 ==>
              var a' := Run(Second(Rounds(a, rs)), next);
              && a'.mode == OpPreve && a'.ringing && a'.tout == 360 && a'.alarms == a.alarms + 1 && a'.users == a.users
              && (a'.valid <==> a.valid)
  {
    hide Rounds, Observe;
    if |rs| < 60 {
      WaitRounds(a, rs);
    }
    if |rs| == 59 {
      assert [next][0] == next;
      ObserveKeeps(Second(Rounds(a, rs)), next);
    }
  }

  // ----- Closing down -----

  /** The door is closed; `quiet` tells whether the alarm byte shows normal operation in some run. */
  predicate ClosedRuns(inputs: seq<Input>, quiet: bool) {
    forall i | 0 <= i < |inputs| :: !inputs[i].open && (!quiet ==> !inputs[i].quiet)
  }

  predicate ClosedRounds(rs: seq<seq<Input>>, quiet: bool) {
    forall i | 0 <= i < |rs| :: rs[i] != [] && ClosedRuns(rs[i], quiet)
  }

  /** A closing wait: of half an hour while the panel is not quiet, or of a minute in any case. */
  predicate ClosingWait(mode: Mode, quiet: bool) {
    (mode == Wait15 && !quiet) || (mode == Wait1 && quiet)
  }

  lemma ClosingRun(a: Ap, input: Input, quiet: bool)
    requires ClosingWait(a.mode, quiet) && 0 < a.tout && ClosedRuns([input], quiet)
    ensures var a' := Run(a, input);
            a'.mode == a.mode && a'.tout == a.tout && (a'.valid <==> a.valid) && a'.alarms == a.alarms
  {
    hide Observe, Act;
    assert [input][0] == input;
    ObserveKeeps(a, input);
    ClosingAct(Observe(a, input), input, quiet);
  }

  lemma ClosingAct(a: Ap, input: Input, quiet: bool)
    requires ClosingWait(a.mode, quiet) && 0 < a.tout && !input.open && (!quiet ==> !input.quiet)
    ensures var a' := Act(a, input);
            a'.mode == a.mode && a'.tout == a.tout && (a'.valid <==> a.valid) && a'.alarms == a.alarms
  {
    hide Act;
    ActShows(a, input);
  }

  lemma {:induction false} ClosingSteps(a: Ap, inputs: seq<Input>, quiet: bool)
    requires ClosingWait(a.mode, quiet) && 0 < a.tout && ClosedRuns(inputs, quiet)
    ensures var a' := Steps(a, inputs);
            a'.mode == a.mode && a'.tout == a.tout && (a'.valid <==> a.valid) && a'.alarms == a.alarms
    decreases |inputs|
  {
    hide Run;
    if inputs != [] {
      var k := |inputs| - 1;
      ClosingSteps(a, inputs[..k], quiet);
      ClosingRun(Steps(a, inputs[..k]), inputs[k], quiet);
    }
  }

  lemma {:induction false} ClosingRounds(a: Ap, rs: seq<seq<Input>>, quiet: bool)
    requires ClosingWait(a.mode, quiet) && |rs| < a.tout && ClosedRounds(rs, quiet)
    ensures var a' := Rounds(a, rs);
            a'.mode == a.mode && a'.tout == a.tout - |rs| && (a'.valid <==> a.valid) && a'.alarms == a.alarms
    decreases |rs|
  {
    hide Steps, ClosedRuns;
    if rs != [] {
      var k := |rs| - 1;
      ClosingRounds(a, rs[..k], quiet);
      ClosingSteps(Second(Rounds(a, rs[..k])), rs[k], quiet);
    }
  }

  /** After an authorised door closes, the authorisation stands for exactly half an hour, or, once the panel is
      quiet, for exactly a minute: the first run in its last second ends it. */
  lemma ClosingExactly(a: Ap, rs: seq<seq<Input>>, next: Input, quiet: bool)
    requires ClosingWait(a.mode, quiet) && a.tout == (if quiet then 60 else 1800) && ClosedRounds(rs, quiet)
    ensures |rs| < (if quiet then 60 else 1800) ==>
              var a' := Rounds(a, rs); a'.mode == a.mode && (a'.valid <==> a.valid)
    ensures |rs| == (if quiet then 59 else 1799) ==>
              var a' := Run(Second(Rounds(a, rs)), next); a'.mode == Idle && !a'.valid
  {
    hide Rounds, Observe, Act;
    if |rs| < a.tout {
      ClosingRounds(a, rs, quiet);
    }
    if |rs| == a.tout - 1 {
      var b := Second(Rounds(a, rs));
      ObserveKeeps(b, next);
      LastClosing(Observe(b, next), next);
    }
  }

  lemma LastClosing(a: Ap, input: Input)
    requires (a.mode == Wait15 || a.mode == Wait1) && a.tout == 0
    ensures Act(a, input).mode == Idle && !Act(a, input).valid
  {
  }
}
