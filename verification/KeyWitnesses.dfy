/** Runs that show how far the key watchdog can be driven: its bounds are attained, and one limit can be evaded. */
module KeyWitnesses {
  import opened KeyWatchdog
  import opened KeyRuns

  const QUIET: Round := Round([], [])
  const TURN_ON: Round := Round([On], [])
  const TURN_OFF: Round := Round([Off], [])

  function Quiet(n: nat): seq<Round> {
    seq(n, _ => QUIET)
  }

  predicate FarFromWrap(w: Wd, n: nat) {
    w.tOn + n < 0x1_0000_0000 && w.tPoll + n < 0x1_0000_0000 && w.tOff + n < 0x1_0000_0000 && w.tInh + n < 0x1_0000_0000
  }

  /** The same state `n` milliseconds later. */
  function Later(w: Wd, n: nat): Wd
    requires FarFromWrap(w, n)
  {
    w.(tOn := w.tOn + n, tPoll := w.tPoll + n, tOff := w.tOff + n, tInh := w.tInh + n)
  }

  // ----- Long quiet stretches -----

  /** Nothing but the counters moves during the next `n` quiet rounds. */
  predicate Calm(w: Wd, n: nat) {
    && FarFromWrap(w, n)
    && match w.mode
       case Idle => !w.key && !w.inhibit
       case TxOn =>
         && w.key && w.tOn + n <= KEY_LIMIT && w.tPoll + n <= POLL_LIMIT_ON
         && (w.polled ==> w.count < 10 && w.tInh + n <= INH_LIMIT)
       case TxOff =>
         && !w.key && w.tOff + n <= OFF_LIMIT && w.tPoll + n <= POLL_LIMIT_OFF
         && (w.polled ==> w.count < 10 && w.tInh + n <= INH_LIMIT)
       case CpollOff => !w.key && w.inhibit && w.tOff + n <= OFF_LIMIT
       case _ => false
  }

  lemma CalmStep(w: Wd, n: nat)
    requires Calm(w, n) && 0 < n
    ensures Tick(w, QUIET) == Later(w, 1) && Calm(Later(w, 1), n - 1)
  {
    assert Count(w) == Later(w, 1);
  }

  lemma {:induction false} QuietStretch(w: Wd, n: nat)
    requires Calm(w, n)
    ensures Run(w, Quiet(n)) == Later(w, n)
    ensures w.pin ==> AlwaysHigh(w, Quiet(n))
    decreases n
  {
    hide Watch, Calm, Count;
    if n == 0 {
      assert Quiet(0) == [];
    } else {
      CalmStep(w, n);
      assert Quiet(n)[0] == QUIET && Quiet(n)[1..] == Quiet(n - 1);
      QuietStretch(Later(w, 1), n - 1);
    }
  }

  lemma {:induction false} RunConcat(w: Wd, a: seq<Round>, b: seq<Round>)
    ensures Run(w, a + b) == Run(Run(w, a), b)
    ensures AlwaysHigh(w, a + b) <==> AlwaysHigh(w, a) && AlwaysHigh(Run(w, a), b)
    decreases |a|
  {
    hide Watch;
    if a == [] {
      assert a + b == b;
    } else {
      assert (a + b)[0] == a[0] && (a + b)[1..] == a[1..] + b;
      RunConcat(Tick(w, a[0]), a[1..], b);
    }
  }

  // ----- The bound on the pin is attained -----

  /** Idle in all but name: the key was off long enough, an inhibition is remembered and about to expire. */
  predicate Ready(w: Wd) {
    && w.mode == TxOff && !w.pin && !w.key && !w.inhibit && w.polled
    && w.tOff == OFF_LIMIT && w.tInh == INH_LIMIT - KEY_LIMIT - 1
    && w.tPoll <= POLL_LIMIT_OFF && w.tOn <= POLL_LIMIT_OFF
  }

  lemma Step(w: Wd, r: Round, w': Wd)
    requires Tick(w, r) == w'
    ensures Run(w, [r]) == w' && (w'.pin ==> AlwaysHigh(w, [r]))
  {
    hide Watch;
    assert Run(w', []) == w' && [r][1..] == [];
  }

  /** The first two rounds: the key comes on, and the watchdog starts a window. */
  lemma WindowOpens(w: Wd) returns (b: Wd)
    requires Ready(w)
    ensures AlwaysHigh(w, [TURN_ON, QUIET]) && Run(w, [TURN_ON, QUIET]) == b
    ensures b.mode == TxOn && b.pin && b.key && !b.inhibit && b.polled && b.count == 0
    ensures b.tOn == 0 && b.tPoll == 0 && b.tOff == OFF_LIMIT + 2 && b.tInh == INH_LIMIT - KEY_LIMIT + 1
  {
    assert Apply(w, [On]) == KeyOn(w);
    var a := Tick(w, TURN_ON);
    assert a.mode == Idle && a.pin && a.key && !a.inhibit && a.polled
           && a.tInh == INH_LIMIT - KEY_LIMIT && a.tOff == OFF_LIMIT + 1;
    b := Tick(a, QUIET);
    Step(a, QUIET, b);
    assert [TURN_ON, QUIET][1..] == [QUIET];
  }

  /** The round in which the remembered inhibition expires. */
  lemma WindowExpires(c: Wd)
    requires c.mode == TxOn && c.pin && c.key && !c.inhibit && c.polled && c.count == 0
    requires c.tOn == KEY_LIMIT - 1 && c.tPoll == KEY_LIMIT - 1 && c.tInh == INH_LIMIT && c.tOff <= 90000
    ensures var w1 := Tick(c, QUIET);
            && w1.mode == Idle && w1.pin && w1.key && !w1.inhibit && !w1.polled
            && w1.tOff <= 100000 && w1.tInh == INH_LIMIT + 1
  {
  }

  lemma FirstWindow(w: Wd) returns (w1: Wd, rounds: seq<Round>)
    requires Ready(w)
    ensures |rounds| == KEY_LIMIT + 2 && AlwaysHigh(w, rounds) && Run(w, rounds) == w1
    ensures w1.mode == Idle && w1.pin && w1.key && !w1.inhibit && !w1.polled
    ensures w1.tOff <= 100000 && w1.tInh == INH_LIMIT + 1
  {
    hide Watch, Count;
    var b := WindowOpens(w);
    var n := KEY_LIMIT - 1;
    QuietStretch(b, n);
    var c := Later(b, n);
    WindowExpires(c);
    w1 := Tick(c, QUIET);
    Step(c, QUIET, w1);
    RunConcat(w, [TURN_ON, QUIET], Quiet(n));
    RunConcat(w, [TURN_ON, QUIET] + Quiet(n), [QUIET]);
    rounds := [TURN_ON, QUIET] + Quiet(n) + [QUIET];
  }

  lemma SecondWindow(w: Wd) returns (rounds: seq<Round>)
    requires w.mode == Idle && w.pin && w.key && !w.inhibit && !w.polled
    requires w.tOff <= 100000 && w.tInh == INH_LIMIT + 1
    ensures |rounds| == KEY_LIMIT + 1 && AlwaysHigh(w, rounds)
  {
    var a := Tick(w, QUIET);
    assert a == w.(mode := TxOn, tOn := 0, tPoll := 0, count := 0, tOff := w.tOff + 1, tInh := w.tInh + 1);
    Step(w, QUIET, a);
    QuietStretch(a, KEY_LIMIT);
    RunConcat(w, [QUIET], Quiet(KEY_LIMIT));
    rounds := [QUIET] + Quiet(KEY_LIMIT);
  }

  /** From a ready state the pin stays high for exactly the bound of lemma PinBound. */
  lemma BoundAttained(w: Wd) returns (rounds: seq<Round>)
    requires Ready(w)
    ensures |rounds| == 2 * KEY_LIMIT + 3 && AlwaysHigh(w, rounds)
  {
    hide Watch;
    var w1, first := FirstWindow(w);
    var second := SecondWindow(w1);
    RunConcat(w, first, second);
    rounds := first + second;
  }

  // ----- A ready state is reached from power-up -----

  // The states of the run at the ends of its stretches, in order, and after the first two rounds of each stretch.
  const STARTED: Wd := Wd(Idle, false, false, false, false, true, 0, 1, 1, 1, 1, [])
  const WINDOW: Wd := Wd(TxOn, true, true, false, false, true, 0, 0, 0, 2, 2, [])
  const HALF_WINDOW: Wd := Wd(TxOn, true, true, false, false, true, 0, 30000, 30000, 30002, 30002, [])
  const FULL_POLL: Wd := Wd(TxOn, true, true, false, false, true, 1, 29998, 60000, 29999, 60002, [])
  const BLOCKED: Wd := Wd(CpollOff, false, false, true, false, true, 2, 35000, 65002, 5000, 5001, [])
  const REMEMBERED: Wd := Wd(Idle, false, false, false, true, true, 2, 264996, 294998, 234996, 234997, [])
  const READY: Wd := Wd(TxOff, false, false, false, true, true, 1, 5001, 5001, 5000, 239999, [])

  /** Two rounds with calls, given tick by tick, and then a quiet stretch. */
  lemma TwoAndQuiet(w: Wd, r1: Round, w1: Wd, r2: Round, w2: Wd, n: nat)
    requires Tick(w, r1) == w1 && Tick(w1, r2) == w2 && Calm(w2, n)
    ensures Run(w, [r1, r2] + Quiet(n)) == Later(w2, n)
  {
    hide Watch, Count, Calm, Seen, Tick;
    assert [r1, r2][1..] == [r2] && [r2][1..] == [];
    assert Run(w, [r1, r2]) == Run(w1, [r2]) && Run(w1, [r2]) == Run(w2, []);
    QuietStretch(w2, n);
    RunConcat(w, [r1, r2], Quiet(n));
  }

  lemma QuietSeen(w: Wd)
    ensures Seen(w, QUIET) == Count(w)
  {
  }

  lemma OnSeen(w: Wd)
    ensures Seen(w, TURN_ON) == Count(KeyOn(w))
  {
    assert [On][1..] == [];
  }

  lemma OffSeen(w: Wd)
    ensures Seen(w, TURN_OFF) == Count(KeyOff(w))
  {
    assert [Off][1..] == [];
  }

  lemma PowerUpTicks()
    ensures Tick(POWER_UP, QUIET) == STARTED && Tick(STARTED, TURN_ON) == WINDOW
  {
    hide Seen;
    QuietSeen(POWER_UP);
    OnSeen(STARTED);
  }

  lemma KeyOnFromPowerUp()
    ensures Run(POWER_UP, [QUIET, TURN_ON] + Quiet(30000)) == HALF_WINDOW
  {
    hide Watch, Seen, Tick, Run;
    PowerUpTicks();
    TwoAndQuiet(POWER_UP, QUIET, STARTED, TURN_ON, WINDOW, 30000);
  }

  const PAUSED: Wd := Wd(TxOff, false, false, false, false, true, 1, 30001, 30001, 0, 30003, [])
  const RESUMED: Wd := Wd(TxOn, true, true, false, false, true, 1, 0, 30002, 1, 30004, [])

  lemma KeyOffTick()
    ensures Tick(HALF_WINDOW, TURN_OFF) == PAUSED
  {
    hide Seen;
    OffSeen(HALF_WINDOW);
  }

  lemma KeyOnTick()
    ensures Tick(PAUSED, TURN_ON) == RESUMED
  {
    hide Seen;
    OnSeen(PAUSED);
  }

  lemma KeyOffAndOn()
    ensures Run(HALF_WINDOW, [TURN_OFF, TURN_ON] + Quiet(29998)) == FULL_POLL
  {
    hide Watch, Seen, Tick, Run;
    KeyOffTick();
    KeyOnTick();
    TwoAndQuiet(HALF_WINDOW, TURN_OFF, PAUSED, TURN_ON, RESUMED, 29998);
  }

  const STOPPED: Wd := Wd(CpollOn, false, false, true, false, true, 1, 29999, 60001, 30000, 0, [])
  const COUNTING: Wd := Wd(CpollOff, false, false, true, false, true, 2, 30000, 60002, 0, 1, [])

  lemma BlockTicks()
    ensures Tick(FULL_POLL, QUIET) == STOPPED && Tick(STOPPED, QUIET) == COUNTING
  {
    hide Seen;
    QuietSeen(FULL_POLL);
    QuietSeen(STOPPED);
  }

  lemma PollingBlocked()
    ensures Run(FULL_POLL, [QUIET, QUIET] + Quiet(5000)) == BLOCKED
  {
    hide Watch, Seen, Tick, Run;
    BlockTicks();
    TwoAndQuiet(FULL_POLL, QUIET, STOPPED, QUIET, COUNTING, 5000);
  }

  const FREED: Wd := Wd(Idle, false, false, false, true, true, 2, 35001, 65003, 5001, 5002, [])

  lemma FreeTicks()
    ensures Tick(BLOCKED, QUIET) == FREED && Tick(FREED, QUIET) == Later(FREED, 1)
  {
    hide Seen;
    QuietSeen(BLOCKED);
    QuietSeen(FREED);
  }

  lemma BlockRemembered()
    ensures Run(BLOCKED, [QUIET, QUIET] + Quiet(229994)) == REMEMBERED
  {
    hide Watch, Seen, Tick, Run;
    FreeTicks();
    TwoAndQuiet(BLOCKED, QUIET, FREED, QUIET, Later(FREED, 1), 229994);
  }

  const PRESSED: Wd := Wd(TxOn, true, true, false, true, true, 0, 0, 0, 234997, 234998, [])
  const RELEASED: Wd := Wd(TxOff, false, false, false, true, true, 1, 1, 1, 0, 234999, [])

  lemma PressTicks()
    ensures Tick(REMEMBERED, TURN_ON) == PRESSED && Tick(PRESSED, TURN_OFF) == RELEASED
  {
    hide Seen;
    OnSeen(REMEMBERED);
    OffSeen(PRESSED);
  }

  lemma AlmostExpired()
    ensures Run(REMEMBERED, [TURN_ON, TURN_OFF] + Quiet(5000)) == READY
  {
    hide Watch, Seen, Tick, Run;
    PressTicks();
    TwoAndQuiet(REMEMBERED, TURN_ON, PRESSED, TURN_OFF, RELEASED, 5000);
  }

  /** Some run from power-up keeps the pin high for the full bound at its end. */
  lemma BoundAttainedFromPowerUp() returns (lead: seq<Round>, high: seq<Round>)
    ensures |high| == 2 * KEY_LIMIT + 3 && AlwaysHigh(Run(POWER_UP, lead), high)
  {
    hide Watch, Run, Quiet;
    KeyOnFromPowerUp();
    KeyOffAndOn();
    PollingBlocked();
    BlockRemembered();
    AlmostExpired();
    var l1 := [QUIET, TURN_ON] + Quiet(30000);
    var l2 := l1 + ([TURN_OFF, TURN_ON] + Quiet(29998));
    RunConcat(POWER_UP, l1, [TURN_OFF, TURN_ON] + Quiet(29998));
    var l3 := l2 + ([QUIET, QUIET] + Quiet(5000));
    RunConcat(POWER_UP, l2, [QUIET, QUIET] + Quiet(5000));
    var l4 := l3 + ([QUIET, QUIET] + Quiet(229994));
    RunConcat(POWER_UP, l3, [QUIET, QUIET] + Quiet(229994));
    lead := l4 + ([TURN_ON, TURN_OFF] + Quiet(5000));
    RunConcat(POWER_UP, l4, [TURN_ON, TURN_OFF] + Quiet(5000));
    high := BoundAttained(READY);
  }

  // ----- The polling limit can be evaded -----

  /** The key has just changed, nothing is remembered, and the polling counter will not wrap for `n` rounds. */
  predicate Toggling(w: Wd, n: nat) {
    && Inv(w) && !w.polled && w.tPoll + n < 0x1_0000_0000
    && (w.mode == TxOn || (w.mode == TxOff && w.tOff == 0))
  }

  lemma ToggleFromTxOn(w: Wd, n: nat)
    requires Toggling(w, n) && 0 < n && w.mode == TxOn
    ensures var v, w' := Seen(w, TURN_OFF), Tick(w, TURN_OFF);
            v.mode == TxOn && v.tPoll == w'.tPoll == w.tPoll + 1 && w'.mode == TxOff && Toggling(w', n - 1)
  {
    hide Seen;
    OffSeen(w);
  }

  lemma ToggleFromTxOff(w: Wd, n: nat)
    requires Toggling(w, n) && 0 < n && w.mode == TxOff
    ensures var v, w' := Seen(w, TURN_ON), Tick(w, TURN_ON);
            v.mode == TxOff && v.tPoll == w'.tPoll == w.tPoll + 1 && w'.mode == TxOn && Toggling(w', n - 1)
  {
    hide Seen;
    OnSeen(w);
  }

  /** The call that changes the key. */
  function Toggle(w: Wd): Round {
    if w.mode == TxOn then TURN_OFF else TURN_ON
  }

  lemma ToggleStep(w: Wd, n: nat)
    requires Toggling(w, n) && 0 < n
    ensures var v, w' := Seen(w, Toggle(w)), Tick(w, Toggle(w));
            && v.mode in {TxOn, TxOff} && v.tPoll == w'.tPoll == w.tPoll + 1 && w'.mode in {TxOn, TxOff}
            && Toggling(w', n - 1)
  {
    hide Watch, Seen, Tick, Inv;
    if w.mode == TxOn {
      ToggleFromTxOn(w, n);
    } else {
      ToggleFromTxOff(w, n);
    }
  }

  /** A key that changes in every round, for `n` rounds. */
  function Toggles(w: Wd, n: nat): (rounds: seq<Round>)
    ensures |rounds| == n
    decreases n
  {
    if n == 0 then [] else [Toggle(w)] + Toggles(Tick(w, Toggle(w)), n - 1)
  }

  /** It is never blocked while the polling counter runs up, past its limit and on to its last value. */
  lemma {:induction false} TogglesRun(w: Wd, n: nat, more: nat)
    requires Toggling(w, n + more)
    ensures var w' := Run(w, Toggles(w, n)); Toggling(w', more) && w'.tPoll == w.tPoll + n
    decreases n
  {
    hide Watch, Seen, Tick, Toggling, Toggle;
    if n != 0 {
      ToggleStep(w, n + more);
      assert Toggles(w, n)[1..] == Toggles(Tick(w, Toggle(w)), n - 1);
      TogglesRun(Tick(w, Toggle(w)), n - 1, more);
    } else {
      TogglingLess(w, n + more, more);
    }
  }

  lemma TogglingLess(w: Wd, n: nat, m: nat)
    requires Toggling(w, n) && m <= n
    ensures Toggling(w, m)
  {
  }

  lemma {:induction false} TogglesLinger(w: Wd, n: nat)
    requires Toggling(w, n) && POLL_LIMIT_OFF <= w.tPoll
    ensures Lingers(w, Toggles(w, n))
    decreases n
  {
    hide Watch, Seen, Tick, Toggling, Toggle;
    if n != 0 {
      ToggleStep(w, n);
      assert Toggles(w, n)[1..] == Toggles(Tick(w, Toggle(w)), n - 1);
      TogglesLinger(Tick(w, Toggle(w)), n - 1);
    }
  }

  lemma WindowToggles()
    ensures Toggling(WINDOW, 0x1_0000_0000 - 1)
  {
  }

  /** From power-up, a key that changes in every round reaches the polling limit and then keeps the watchdog
      transmitting past it for exactly the bound of lemma LingerBound, until the 32-bit counter wraps. */
  lemma PollingLimitEvaded() returns (lead: seq<Round>, rounds: seq<Round>)
    ensures |rounds| == 0x1_0000_0000 - 1 - POLL_LIMIT_OFF && Lingers(Run(POWER_UP, lead), rounds)
  {
    hide Watch, Seen, Tick, Toggling, Toggles, Lingers;
    var n := 0x1_0000_0000 - 1 - POLL_LIMIT_OFF;
    PowerUpTicks();
    WindowToggles();
    TogglesRun(WINDOW, POLL_LIMIT_OFF, n);
    lead := [QUIET, TURN_ON] + Toggles(WINDOW, POLL_LIMIT_OFF);
    assert [QUIET, TURN_ON][1..] == [TURN_ON] && [TURN_ON][1..] == [];
    RunConcat(POWER_UP, [QUIET, TURN_ON], Toggles(WINDOW, POLL_LIMIT_OFF));
    assert Run(POWER_UP, [QUIET, TURN_ON]) == Run(STARTED, [TURN_ON]) && Run(STARTED, [TURN_ON]) == Run(WINDOW, []);
    var w := Run(POWER_UP, lead);
    TogglesLinger(w, n);
    rounds := Toggles(w, n);
  }

  // ----- A stuck key that leaves the transmitter without power -----

  /** A key on for too long ends in TxDisp, where the power comes back, exactly when no remembered inhibition
      overrides it.  If one does because it expires, the watchdog is Idle with the power off. */
  lemma StuckKey(v: Wd)
    requires v.mode == TxOn && v.key && v.tOn > KEY_LIMIT
    ensures var w := Watch(v);
            && !w.power && !w.pin && !w.key && w.inhibit && w.log == v.log + [STUCK_KEY]
            && (w.mode == TxDisp <==> !v.polled || (v.count < 10 && v.tInh <= INH_LIMIT))
            && (w.mode == Idle <==> v.polled && v.count < 10 && v.tInh > INH_LIMIT)
  {
    var w1 := TxOnLimits(v);
    assert w1 == Disable(v);
  }

  /** Of the states of the watchdog, only TxDisp restores the power. */
  lemma PowerReturnsFromTxDisp(v: Wd)
    requires !v.power && Watch(v).power
    ensures v.mode == TxDisp && v.tOff > DISP_LIMIT && Watch(v).mode == Idle
  {
  }

  lemma LimitsLog(v: Wd)
    ensures v.log <= TxOnLimits(v).log && TxOnPolled(v).log == v.log
    ensures TxOnLimits(v).mode == TxDisp ==> v.mode == TxDisp || |v.log| < |TxOnLimits(v).log|
    ensures TxOnPolled(v).mode == TxDisp ==> v.mode == TxDisp
  {
  }

  lemma TxOffLog(v: Wd)
    ensures WatchTxOff(v).log == v.log && (WatchTxOff(v).mode == TxDisp ==> v.mode == TxDisp)
  {
  }

  lemma TxModesLog(v: Wd)
    requires v.mode == TxOn || v.mode == TxOff
    ensures |v.log| <= |Watch(v).log| && (Watch(v).mode == TxDisp ==> |v.log| < |Watch(v).log|)
  {
    hide TxOnLimits, TxOnPolled, WatchTxOff;
    LimitsLog(v);
    LimitsLog(TxOnLimits(v));
    TxOffLog(v);
  }

  lemma OtherModesLog(v: Wd)
    requires v.mode != TxOn && v.mode != TxOff
    ensures |v.log| <= |Watch(v).log|
    ensures Watch(v).mode == TxDisp ==> v.mode == TxDisp || |v.log| < |Watch(v).log|
  {
    hide TxOnLimits, TxOnPolled, WatchTxOff;
  }

  lemma LogGrows(v: Wd)
    ensures |v.log| <= |Watch(v).log|
    ensures Watch(v).mode == TxDisp ==> v.mode == TxDisp || |v.log| < |Watch(v).log|
  {
    hide Watch;
    if v.mode == TxOn || v.mode == TxOff {
      TxModesLog(v);
    } else {
      OtherModesLog(v);
    }
  }

  /** Without power, and not on the way to it. */
  predicate Dark(w: Wd) {
    !w.power && w.mode != TxDisp
  }

  lemma DarkTick(w: Wd, r: Round)
    ensures |w.log| <= |Tick(w, r).log|
    ensures Dark(w) ==> Dark(Tick(w, r)) || |w.log| < |Tick(w, r).log|
  {
    hide Watch;
    SeenKeeps(w, r);
    LogGrows(Seen(w, r));
    if !w.power && Tick(w, r).power {
      PowerReturnsFromTxDisp(Seen(w, r));
    }
  }

  /** Whatever the other tasks ask of the key, the watchdog restores the power only after it has blocked and logged
      another key that was on for too long. */
  lemma {:induction false} StaysDark(w: Wd, rounds: seq<Round>)
    ensures |w.log| <= |Run(w, rounds).log|
    ensures Dark(w) && |Run(w, rounds).log| == |w.log| ==> Dark(Run(w, rounds))
    decreases |rounds|
  {
    hide Tick, Dark;
    if rounds != [] {
      DarkTick(w, rounds[0]);
      StaysDark(Tick(w, rounds[0]), rounds[1..]);
    }
  }

  // A run from power-up: as in lemma BoundAttainedFromPowerUp up to FREED, then quiet, then a key that is on when the
  // remembered inhibition expires.
  const WAITING: Wd := Wd(Idle, false, false, false, true, true, 2, 269998, 300000, 239998, 239999, [])
  const HELD: Wd := Wd(TxOn, true, true, false, true, true, 0, 0, 0, 239999, 240000, [])
  const LAST: Wd := Wd(TxOn, true, true, false, true, true, 0, 60000, 60000, 299999, 300000, [])
  const LOST: Wd := Wd(Idle, false, false, true, false, false, 0, 60001, 60001, 0, 300001, [STUCK_KEY])

  lemma WaitingReached()
    ensures Run(BLOCKED, [QUIET, QUIET] + Quiet(234996)) == WAITING
  {
    hide Watch, Seen, Tick, Run;
    FreeTicks();
    TwoAndQuiet(BLOCKED, QUIET, FREED, QUIET, Later(FREED, 1), 234996);
  }

  lemma HoldTicks()
    ensures Tick(WAITING, TURN_ON) == HELD && Tick(LAST, QUIET) == LOST
  {
    hide Seen;
    OnSeen(WAITING);
    QuietSeen(LAST);
  }

  lemma RunOne(w: Wd, r: Round)
    ensures Run(w, [r]) == Tick(w, r)
  {
    hide Tick;
    assert Run(Tick(w, r), []) == Tick(w, r);
    assert [r][1..] == [];
  }

  lemma HeldTooLong()
    ensures Run(WAITING, [TURN_ON] + (Quiet(60000) + [QUIET])) == LOST
  {
    hide Watch, Seen, Tick, Run, Calm, Count, Quiet;
    HoldTicks();
    HeldIsCalm();
    QuietStretch(HELD, 60000);
    RunOne(WAITING, TURN_ON);
    RunOne(LAST, QUIET);
    RunConcat(HELD, Quiet(60000), [QUIET]);
    RunConcat(WAITING, [TURN_ON], Quiet(60000) + [QUIET]);
  }

  lemma HeldIsCalm()
    ensures Calm(HELD, 60000)
  {
  }

  /** From power-up, a key held until the remembered inhibition expires leaves the watchdog Idle with the power off, and
      no calls make it restore the power before another key has been on for too long. */
  lemma PowerLost() returns (lead: seq<Round>)
    ensures var w := Run(POWER_UP, lead);
            && w.mode == Idle && !w.power && w.log == [STUCK_KEY]
            && forall rounds :: Run(w, rounds).power ==> 1 < |Run(w, rounds).log|
  {
    hide Watch, Run, Quiet, Tick;
    KeyOnFromPowerUp();
    KeyOffAndOn();
    PollingBlocked();
    WaitingReached();
    HeldTooLong();
    var l1 := [QUIET, TURN_ON] + Quiet(30000);
    var l2 := l1 + ([TURN_OFF, TURN_ON] + Quiet(29998));
    RunConcat(POWER_UP, l1, [TURN_OFF, TURN_ON] + Quiet(29998));
    var l3 := l2 + ([QUIET, QUIET] + Quiet(5000));
    RunConcat(POWER_UP, l2, [QUIET, QUIET] + Quiet(5000));
    var l4 := l3 + ([QUIET, QUIET] + Quiet(234996));
    RunConcat(POWER_UP, l3, [QUIET, QUIET] + Quiet(234996));
    lead := l4 + ([TURN_ON] + (Quiet(60000) + [QUIET]));
    RunConcat(POWER_UP, l4, [TURN_ON] + (Quiet(60000) + [QUIET]));
    forall rounds
      ensures Run(LOST, rounds).power ==> 1 < |Run(LOST, rounds).log|
    {
      StaysDark(LOST, rounds);
    }
  }
}
