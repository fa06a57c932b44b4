/** The door-opening authorisation machine.

    It runs every 50 ms on the state of the door line, the tokens presented since the last run, and a timeout that a
    one-second handler counts down.  `valid` is the authorisation that the rest of the panel looks at.
 */
module Apertura {

  datatype Mode = Idle | WaitToken | OpNormal | WaitPreve | OpPreve | Wait15 | Wait1 | Unknown

  /** `tout` is the timeout in seconds; `pending` an accepted token not yet consumed, `touched` the last token
      read, zero if it was unknown; `licence` the token in force; `ringing` the saved door-alarm flag; `preve`
      and `txOff` the pre-alarm that takes the transmitter's power; `alarms` counts the alarms raised and
      `users` lists the openings logged. `slow` says that the buzzer sounds the slow cadence of a door closing
      down, and `consumed` that a token was consumed since the machine last ran in `Idle`. */
  datatype Ap = Ap(
    mode: Mode, tout: nat, valid: bool, pending: bool, touched: nat, licence: nat, ringing: bool,
    preve: bool, txOff: bool, slow: bool, alarms: nat, users: seq<nat>, consumed: bool)

  const TOKEN_WAIT: nat := 60
  const RINGING_WAIT: nat := 60 * 6
  const PREVE_WAIT: nat := 60 * 20
  const CLOSING_WAIT: nat := 60 * 30
  const SHORT_WAIT: nat := 60
  const FAST_FROM: nat := 60 * 10

  /** What other tasks did to the buzzer since the run before: nothing, sounded it, or sounded it until it fell
      silent. */
  datatype Buzzer = Untouched | Taken | Silent

  /** What one run sees: the tokens read since the run before, whether the main task found the licence expired since
      then, what became of the buzzer, whether the door line is open, and whether the alarm byte shows normal operation
      with no opening. */
  datatype Input = Input(touches: seq<nat>, expired: bool, buzzer: Buzzer, open: bool, quiet: bool)

  // ----- The steps on values -----

  function Touch(a: Ap, id: nat): Ap {
    a.(touched := id, pending := a.pending || id != 0)
  }

  function TouchAll(a: Ap, ids: seq<nat>): Ap
    decreases |ids|
  {
    if ids == [] then a else Touch(TouchAll(a, ids[..|ids| - 1]), ids[|ids| - 1])
  }

  /** What other tasks did since the run before. */
  function Observe(a: Ap, input: Input): Ap {
    var a' := TouchAll(a, input.touches);
    a'.(licence := if input.expired then 0 else a'.licence, slow := a'.slow && input.buzzer == Untouched)
  }

  /** A token is consumed: the opening is authorised and logged. */
  function Authorise(a: Ap): Ap {
    a.(pending := false, valid := true, mode := OpNormal, consumed := true,
       licence := a.touched, users := a.users + [a.touched])
  }

  function RunIdle(a: Ap, open: bool): Ap {
    var a0 := a.(consumed := false);
    if a.ringing then a0.(tout := RINGING_WAIT, mode := OpPreve)
    else
      var a1 := a0.(txOff := false, pending := false, licence := 0);
      if open then a1.(tout := TOKEN_WAIT, mode := WaitToken) else a1
  }

  function RunWaitToken(a: Ap): Ap {
    var a1 := a.(txOff := false);
    if a.pending then Authorise(a1)
    else if a.tout == 0 then a1.(tout := RINGING_WAIT, alarms := a.alarms + 1, mode := OpPreve, ringing := true)
    else a1
  }

  function RunOpNormal(a: Ap, open: bool): Ap {
    var a1 := a.(txOff := false);
    if !open then a1.(tout := CLOSING_WAIT, mode := Wait15, slow := true) else a1
  }

  function RunWaitPreve(a: Ap): Ap {
    if a.pending then Authorise(a)
    else if a.tout == 0 then a.(tout := PREVE_WAIT, txOff := true, preve := true, mode := OpPreve, valid := false)
    else a
  }

  function RunOpPreve(a: Ap, open: bool): Ap {
    if a.pending then Authorise(a).(txOff := false, preve := false, ringing := false)
    else
      var a1 := if a.tout == 0 then a.(txOff := false) else a;
      if !open then a1.(mode := OpNormal, preve := false, ringing := false) else a1
  }

  /** A buzzer that fell silent sounds again. */
  function Resound(a: Ap, buzzer: Buzzer, slow: bool): Ap {
    if buzzer == Silent then a.(slow := slow) else a
  }

  /** With ten minutes left a slow buzzer turns fast, and that is all that this run does. */
  function RunWait15(a: Ap, open: bool, quiet: bool): Ap {
    if a.tout == 0 then a.(valid := false, mode := Idle, slow := false)
    else if a.tout == FAST_FROM && a.slow then a.(slow := false)
    else if open then a.(tout := TOKEN_WAIT, mode := WaitToken, slow := false)
    else if quiet then a.(mode := Wait1, tout := SHORT_WAIT, slow := true)
    else a
  }

  function RunWait1(a: Ap, open: bool): Ap {
    if a.tout == 0 then a.(valid := false, mode := Idle, slow := false)
    else if open then a.(tout := TOKEN_WAIT, mode := WaitToken, slow := false)
    else a
  }

  function Act(a: Ap, input: Input): Ap {
    match a.mode
    case Idle => RunIdle(a, input.open)
    case WaitToken => RunWaitToken(a)
    case OpNormal => RunOpNormal(a, input.open)
    case WaitPreve => RunWaitPreve(a)
    case OpPreve => RunOpPreve(a, input.open)
    case Wait15 => RunWait15(Resound(a, input.buzzer, a.tout > FAST_FROM), input.open, input.quiet)
    case Wait1 => RunWait1(Resound(a, input.buzzer, true), input.open)
    case Unknown => a.(mode := Idle, slow := false)
  }

  /** One run of the machine, after what other tasks did. */
  function Run(a: Ap, input: Input): Ap {
    Act(Observe(a, input), input)
  }

  function Second(a: Ap): Ap {
    a.(tout := if a.tout == 0 then 0 else a.tout - 1)
  }

  /** After power-up only the saved door-alarm flag is left. */
  function PowerUp(ringing: bool): Ap {
    Ap(Idle, 0, false, false, 0, 0, ringing, false, false, false, 0, [], false)
  }

  // ----- The machine itself -----

  class Machine {
    var mode: Mode
    var tout: nat
    var valid: bool
    var pending: bool
    var touched: nat
    var licence: nat
    var ringing: bool
    var preve: bool
    var txOff: bool
    var slow: bool
    ghost var alarms: nat
    ghost var users: seq<nat>
    ghost var consumed: bool

    ghost function View(): Ap
      reads this
    {
      Ap(mode, tout, valid, pending, touched, licence, ringing, preve, txOff, slow, alarms, users, consumed)
    }

    method IButtonRead(id: nat)
      modifies this
      ensures View() == Touch(old(View()), id)
    {
      touched := id;
      if id != 0 {
        pending := true;
      }
    }

    method IButtonsRead(ids: seq<nat>)
      modifies this
      ensures View() == TouchAll(old(View()), ids)
    {
      hide Touch;
      for i := 0 to |ids|
        invariant View() == TouchAll(old(View()), ids[..i])
      {
        IButtonRead(ids[i]);
        assert ids[..i + 1][..i] == ids[..i];
      }
      assert ids[..|ids|] == ids;
    }

    method CountSecond()
      modifies this`tout
      ensures View() == Second(old(View()))
    {
      if tout != 0 {
        tout := tout - 1;
      }
    }

    method ConsumeToken()
      modifies this
      ensures View() == Authorise(old(View()))
    {
      pending := false;
      valid := true;
      mode := OpNormal;
      licence := touched;
      users := users + [touched];
      consumed := true;
    }

    method IdleStep(open: bool)
      modifies this
      ensures View() == RunIdle(old(View()), open)
    {
      consumed := false;
      if ringing {
        tout := RINGING_WAIT;
        mode := OpPreve;
      } else {
        txOff := false;
        pending := false;
        licence := 0;
        if open {
          tout := TOKEN_WAIT;
          mode := WaitToken;
          pending := false;
        }
      }
    }

    method WaitTokenStep()
      modifies this
      ensures View() == RunWaitToken(old(View()))
    {
      txOff := false;
      if pending {
        ConsumeToken();
      } else if tout == 0 {
        tout := RINGING_WAIT;
        alarms := alarms + 1;
        mode := OpPreve;
        ringing := true;
      }
    }

    method WaitPreveStep()
      modifies this
      ensures View() == RunWaitPreve(old(View()))
    {
      if pending {
        ConsumeToken();
      } else if tout == 0 {
        tout := PREVE_WAIT;
        txOff := true;
        preve := true;
        mode := OpPreve;
        valid := false;
      }
    }

    method OpPreveStep(open: bool)
      modifies this
      ensures View() == RunOpPreve(old(View()), open)
    {
      if pending {
        ConsumeToken();
        txOff := false;
        preve := false;
        ringing := false;
      } else if tout == 0 {
        txOff := false;
        if !open {
          mode := OpNormal;
          preve := false;
          ringing := false;
        }
      } else if !open {
        mode := OpNormal;
        preve := false;
        ringing := false;
      }
    }

    method ResoundBuzzer(buzzer: Buzzer, slowly: bool)
      modifies this`slow
      ensures View() == Resound(old(View()), buzzer, slowly)
    {
      if buzzer == Silent {
        slow := slowly;
      }
    }

    method ClosingStep(open: bool, quiet: bool)
      modifies this
      ensures View() == RunWait15(old(View()), open, quiet)
    {
      if tout == 0 {
        valid := false;
        mode := Idle;
        slow := false;
      } else if tout == FAST_FROM && slow {
        slow := false;
      } else if open {
        tout := TOKEN_WAIT;
        mode := WaitToken;
        slow := false;
      } else if quiet {
        mode := Wait1;
        tout := SHORT_WAIT;
        slow := true;
      }
    }

    method ShortStep(open: bool)
      modifies this
      ensures View() == RunWait1(old(View()), open)
    {
      if tout == 0 {
        valid := false;
        mode := Idle;
        slow := false;
      } else if open {
        tout := TOKEN_WAIT;
        mode := WaitToken;
        slow := false;
      }
    }

    /** The main task finds the licence expired. */
    method LicenceExpires()
      modifies this`licence
      ensures View() == old(View()).(licence := 0)
    {
      licence := 0;
    }

    /** Another task sounds the buzzer. */
    method TakeBuzzer()
      modifies this`slow
      ensures View() == old(View()).(slow := false)
    {
      slow := false;
    }

    /** What other tasks do between two runs. */
    method OtherTasks(input: Input)
      modifies this
      ensures View() == Observe(old(View()), input)
    {
      hide TouchAll;
      IButtonsRead(input.touches);
      if input.expired {
        LicenceExpires();
      }
      if input.buzzer != Untouched {
        TakeBuzzer();
      }
    }

    method FsmApApertura(input: Input)
      modifies this
      ensures View() == Act(old(View()), input)
    {
      hide RunIdle, RunWaitToken, RunWaitPreve, RunOpPreve, RunWait15, RunWait1, Resound;
      match mode {
        case Idle => IdleStep(input.open);
        case WaitToken => WaitTokenStep();
        case OpNormal =>
          txOff := false;
          if !input.open {
            tout := CLOSING_WAIT;
            mode := Wait15;
            slow := true;
          }
        case WaitPreve => WaitPreveStep();
        case OpPreve => OpPreveStep(input.open);
        case Wait15 =>
          ResoundBuzzer(input.buzzer, tout > FAST_FROM);
          ClosingStep(input.open, input.quiet);
        case Wait1 =>
          ResoundBuzzer(input.buzzer, true);
          ShortStep(input.open);
        case Unknown =>
          mode := Idle;
          slow := false;
      }
    }

    /** What other tasks did since the last run, and then the machine. */
    method Turn(input: Input)
      modifies this
      ensures View() == Run(old(View()), input)
    {
      hide Act, Observe;
      OtherTasks(input);
      FsmApApertura(input);
    }
  }
}
