/** What the key watchdog guarantees over every run, whatever the other tasks ask of the key. */
module KeyRuns {
  import opened KeyWatchdog

  // ----- Runs -----

  /** The calls of other tasks around one handler: before it, and between its counters and the watchdog. */
  datatype Round = Round(before: seq<Call>, between: seq<Call>)

  /** The state that the watchdog sees in round `r`. */
  function Seen(w: Wd, r: Round): Wd {
    Apply(Count(Apply(w, r.before)), r.between)
  }

  function Tick(w: Wd, r: Round): Wd {
    Watch(Seen(w, r))
  }

  function Run(w: Wd, rounds: seq<Round>): Wd
    decreases |rounds|
  {
    if rounds == [] then w else Run(Tick(w, rounds[0]), rounds[1..])
  }

  /** Calls change only the key and the pin. */
  lemma {:induction false} ApplyKeeps(w: Wd, calls: seq<Call>)
    ensures Apply(w, calls) == w.(key := Apply(w, calls).key, pin := Apply(w, calls).pin)
    decreases |calls|
  {
    if calls != [] {
      ApplyKeeps(if calls[0] == On then KeyOn(w) else KeyOff(w), calls[1..]);
    }
  }

  lemma SeenKeeps(w: Wd, r: Round)
    ensures var v := Seen(w, r); v == Count(w).(key := v.key, pin := v.pin)
  {
    ApplyKeeps(w, r.before);
    ApplyKeeps(Count(Apply(w, r.before)), r.between);
  }

  // ----- The invariant -----

  predicate PinSafe(w: Wd) {
    && (w.inhibit ==> !w.pin)
    && (w.pin ==> w.key)
    && (w.mode in {CpollOn, CpollOff, TxDisp} ==> w.inhibit)
  }

  /** Between rounds; inside a round the on-counter may have gone one past the limit. */
  predicate Inv(w: Wd) {
    PinSafe(w) && (w.mode == TxOn ==> w.tOn <= KEY_LIMIT)
  }

  /** The watchdog as it starts, from cleared memory and with the transmitter powered. */
  const POWER_UP: Wd := Wd(Unknown, false, false, false, false, true, 0, 0, 0, 0, 0, [])

  /** Calls change only the key and the pin, and cannot break the link between pin, key and inhibition. */
  lemma {:induction false} ApplyKeepsPinSafe(w: Wd, calls: seq<Call>)
    requires PinSafe(w)
    ensures PinSafe(Apply(w, calls))
    ensures Apply(w, calls) == w.(key := Apply(w, calls).key, pin := Apply(w, calls).pin)
    decreases |calls|
  {
    if calls != [] {
      ApplyKeepsPinSafe(if calls[0] == On then KeyOn(w) else KeyOff(w), calls[1..]);
    }
  }

  lemma SeenKeepsPinSafe(w: Wd, r: Round)
    requires PinSafe(w)
    ensures var v := Seen(w, r);
            PinSafe(v) && v == Count(w).(key := v.key, pin := v.pin)
  {
    ApplyKeepsPinSafe(w, r.before);
    ApplyKeepsPinSafe(Count(Apply(w, r.before)), r.between);
  }

  /** What the watchdog makes of a safe state whose on-counter is at most one past the limit. */
  predicate GoodStep(v: Wd, w: Wd) {
    && Inv(w)
    && (w.pin ==> w.mode in {Idle, TxOn} && (w.polled ==> v.polled))
  }

  lemma TxOnGoodStep(v: Wd)
    requires PinSafe(v) && v.mode == TxOn && v.tOn <= KEY_LIMIT + 1
    ensures GoodStep(v, Watch(v))
  {
    var w1 := TxOnLimits(v);
    assert PinSafe(w1) && (w1.mode == TxOn ==> w1.tOn <= KEY_LIMIT) && w1.polled == v.polled;
    assert w1.pin ==> w1.mode == TxOn;
  }

  lemma TxOffGoodStep(v: Wd)
    requires PinSafe(v) && v.mode == TxOff
    ensures GoodStep(v, Watch(v))
  {
  }

  lemma OtherGoodStep(v: Wd)
    requires PinSafe(v) && v.mode !in {TxOn, TxOff}
    ensures GoodStep(v, Watch(v))
  {
  }

  lemma TickKeepsInv(w: Wd, r: Round)
    requires Inv(w)
    ensures Inv(Tick(w, r))
    ensures Tick(w, r).pin ==> Tick(w, r).mode in {Idle, TxOn} && (Tick(w, r).polled ==> w.polled)
  {
    hide Watch;
    var v := Seen(w, r);
    SeenKeepsPinSafe(w, r);
    if v.mode == TxOn {
      TxOnGoodStep(v);
    } else if v.mode == TxOff {
      TxOffGoodStep(v);
    } else {
      OtherGoodStep(v);
    }
  }

  lemma {:induction false} RunKeepsInv(w: Wd, rounds: seq<Round>)
    requires Inv(w)
    ensures Inv(Run(w, rounds))
    decreases |rounds|
  {
    if rounds != [] {
      TickKeepsInv(w, rounds[0]);
      RunKeepsInv(Tick(w, rounds[0]), rounds[1..]);
    }
  }

  // ----- How long the pin can stay high -----

  /** The pin is high at the end of every round. */
  predicate AlwaysHigh(w: Wd, rounds: seq<Round>)
    decreases |rounds|
  {
    rounds == [] || (Tick(w, rounds[0]).pin && AlwaysHigh(Tick(w, rounds[0]), rounds[1..]))
  }

  /** How many more rounds the pin can stay high after a round that left it high. */
  function Left(w: Wd): int {
    var again := if w.polled then KEY_LIMIT + 1 else 0;
    if w.mode == Idle then KEY_LIMIT + 1 + again else KEY_LIMIT - w.tOn + again
  }

  lemma LeftFalls(w: Wd, r: Round)
    requires Inv(w) && w.mode in {Idle, TxOn} && Tick(w, r).pin
    ensures Left(Tick(w, r)) < Left(w)
  {
    hide Seen, TxOnLimits, TxOnPolled, WatchTxOff;
    SeenKeepsPinSafe(w, r);
    if w.mode == TxOn {
      TxOnLeftFalls(w, Seen(w, r));
    }
  }

  lemma TxOnLeftFalls(w: Wd, v: Wd)
    requires Inv(w) && w.mode == TxOn && v == Count(w).(key := v.key, pin := v.pin) && PinSafe(v) && Watch(v).pin
    ensures Left(Watch(v)) < Left(w)
  {
  }

  lemma {:induction false} HighAtMostLeft(w: Wd, rounds: seq<Round>)
    requires Inv(w) && w.mode in {Idle, TxOn} && AlwaysHigh(w, rounds)
    ensures |rounds| <= Left(w)
    decreases |rounds|
  {
    hide Watch;
    if rounds != [] {
      TickKeepsInv(w, rounds[0]);
      LeftFalls(w, rounds[0]);
      HighAtMostLeft(Tick(w, rounds[0]), rounds[1..]);
    }
  }

  /** The pin is never high for more than one key window plus two rounds, or, when an inhibition for continuous
      polling is still remembered, two key windows plus three rounds. */
  lemma PinBound(w: Wd, rounds: seq<Round>)
    requires Inv(w) && AlwaysHigh(w, rounds)
    ensures |rounds| <= if w.polled then 2 * KEY_LIMIT + 3 else KEY_LIMIT + 2
  {
    hide Watch;
    if rounds != [] {
      TickKeepsInv(w, rounds[0]);
      HighAtMostLeft(Tick(w, rounds[0]), rounds[1..]);
    }
  }

  // ----- Continuous polling -----

  /** The watchdog sees the polling counter past both limits while it is in TxOn or TxOff. */
  predicate Overdue(v: Wd) {
    v.mode in {TxOn, TxOff} && v.tPoll > POLL_LIMIT_OFF
  }

  /** An overdue watchdog stays in TxOn or TxOff exactly when the key has just changed and no other limit is
      reached, and then it changes mode; otherwise the key ends up blocked or the watchdog returns to Idle. */
  lemma OverdueStays(v: Wd)
    requires Overdue(v)
    ensures Watch(v).mode in {TxOn, TxOff} <==> KeepsLingering(v)
    ensures Watch(v).mode in {TxOn, TxOff} ==> Watch(v).mode != v.mode
    ensures Watch(v).mode !in {TxOn, TxOff} ==>
              Watch(v).mode == Idle || (Watch(v).inhibit && !Watch(v).pin && !Watch(v).key)
  {
    if v.mode == TxOn {
      OverdueTxOn(v);
    } else {
      OverdueTxOff(v);
    }
  }

  /** The key has just changed and no other limit is reached. */
  predicate KeepsLingering(v: Wd) {
    if v.mode == TxOn then !v.key && !(v.polled && (v.count + 1 >= 10 || v.tInh > INH_LIMIT))
    else v.key && v.tOff <= OFF_LIMIT
  }

  lemma OverdueTxOn(v: Wd)
    requires Overdue(v) && v.mode == TxOn
    ensures var w := Watch(v);
            if KeepsLingering(v) then w.mode == TxOff
            else w.mode == Idle || (w.mode in {CpollOn, TxDisp} && w.inhibit && !w.pin && !w.key)
  {
    var w1 := TxOnLimits(v);
    assert if v.key then w1.mode in {CpollOn, TxDisp} && w1.inhibit && !w1.pin && !w1.key
           else w1 == v.(mode := TxOff, count := v.count + 1, tOff := 0);
  }

  lemma OverdueTxOff(v: Wd)
    requires Overdue(v) && v.mode == TxOff
    ensures var w := Watch(v);
            if KeepsLingering(v) then w.mode == TxOn
            else w.mode == Idle || (w.mode == CpollOff && w.inhibit && !w.pin && !w.key)
  {
  }

  /** Every round of the run is overdue and leaves the watchdog in TxOn or TxOff. */
  predicate Lingers(w: Wd, rounds: seq<Round>)
    decreases |rounds|
  {
    rounds == [] ||
    (&& Overdue(Seen(w, rounds[0]))
     && Tick(w, rounds[0]).mode in {TxOn, TxOff}
     && Lingers(Tick(w, rounds[0]), rounds[1..]))
  }

  /** The key level that the watchdog sees in each round. */
  function Levels(w: Wd, rounds: seq<Round>): (levels: seq<bool>)
    ensures |levels| == |rounds|
    decreases |rounds|
  {
    if rounds == [] then [] else [Seen(w, rounds[0]).key] + Levels(Tick(w, rounds[0]), rounds[1..])
  }

  /** Lingering past the polling limit needs a key that changes in every round, so a key that keeps a level
      for two rounds ends it. */
  lemma {:induction false} LingeringAlternates(w: Wd, rounds: seq<Round>)
    requires Inv(w) && Lingers(w, rounds)
    ensures forall i | 0 <= i < |rounds| - 1 :: Levels(w, rounds)[i] != Levels(w, rounds)[i + 1]
    decreases |rounds|
  {
    hide Watch;
    if rounds != [] {
      var v, w1 := Seen(w, rounds[0]), Tick(w, rounds[0]);
      SeenKeepsPinSafe(w, rounds[0]);
      OverdueStays(v);
      TickKeepsInv(w, rounds[0]);
      LingeringAlternates(w1, rounds[1..]);
      if 2 <= |rounds| {
        SeenKeepsPinSafe(w1, rounds[1]);
        OverdueStays(Seen(w1, rounds[1]));
        assert Lingers(w1, rounds[1..]) && rounds[1..][0] == rounds[1];
        assert Levels(w1, rounds[1..])[0] == Seen(w1, rounds[1]).key;
      }
    }
  }

  /** A press that the watchdog sees in one round only: off before, off after. */
  predicate ShortPress(levels: seq<bool>, i: int)
    requires 0 < i < |levels| - 1
  {
    !levels[i - 1] && levels[i] && !levels[i + 1]
  }

  lemma AlternationHasPress(levels: seq<bool>)
    requires 4 <= |levels| && forall i | 0 <= i < |levels| - 1 :: levels[i] != levels[i + 1]
    ensures ShortPress(levels, 1) || ShortPress(levels, 2)
  {
    assert levels[0] != levels[1] && levels[1] != levels[2] && levels[2] != levels[3];
  }

  /** So if every press lasts two rounds or more, lingering past the polling limit ends within three rounds. */
  lemma LongPressesEndPolling(w: Wd, rounds: seq<Round>)
    requires Inv(w) && Lingers(w, rounds)
    requires forall i | 0 < i < |rounds| - 1 :: !ShortPress(Levels(w, rounds), i)
    ensures |rounds| <= 3
  {
    hide Lingers, Levels, Inv;
    LingeringAlternates(w, rounds);
    if 4 <= |rounds| {
      AlternationHasPress(Levels(w, rounds));
    }
  }

  lemma LingerStep(w: Wd, r: Round)
    requires Inv(w) && Overdue(Seen(w, r)) && Tick(w, r).mode in {TxOn, TxOff}
    ensures Tick(w, r).tPoll == w.tPoll + 1 && Inv(Tick(w, r))
  {
    hide Watch;
    SeenKeepsPinSafe(w, r);
    TickKeepsInv(w, r);
    OverdueKeepsPoll(Seen(w, r));
  }

  lemma OverdueKeepsPoll(v: Wd)
    requires Overdue(v)
    ensures Watch(v).tPoll == v.tPoll
  {
    hide TxOnLimits, TxOnPolled, WatchTxOff;
    TxOnKeepsPoll(v);
    TxOnKeepsPoll(TxOnLimits(v));
    TxOffKeepsPoll(v);
  }

  lemma TxOnKeepsPoll(v: Wd)
    ensures TxOnLimits(v).tPoll == v.tPoll && TxOnPolled(v).tPoll == v.tPoll
  {
  }

  lemma TxOffKeepsPoll(v: Wd)
    ensures WatchTxOff(v).tPoll == v.tPoll
  {
  }

  lemma {:induction false} LingerCounts(w: Wd, rounds: seq<Round>)
    requires Inv(w) && Lingers(w, rounds)
    ensures w.tPoll + |rounds| < 0x1_0000_0000
    decreases |rounds|
  {
    hide Watch, Seen, Tick, Inv;
    if rounds != [] {
      LingerStep(w, rounds[0]);
      LingerCounts(Tick(w, rounds[0]), rounds[1..]);
    }
  }

  lemma OverdueCounted(w: Wd, r: Round)
    requires Inv(w) && Overdue(Seen(w, r))
    ensures POLL_LIMIT_OFF <= w.tPoll
  {
    hide Watch;
    SeenKeepsPinSafe(w, r);
  }

  /** However the key is changed, lingering ends when the 32-bit polling counter wraps. */
  lemma LingerBound(w: Wd, rounds: seq<Round>)
    requires Inv(w) && Lingers(w, rounds)
    ensures |rounds| <= 0x1_0000_0000 - 1 - POLL_LIMIT_OFF
  {
    hide Watch, Inv, Seen, Tick, Overdue;
    if rounds != [] {
      LingerCounts(w, rounds);
      OverdueCounted(w, rounds[0]);
    }
  }
}
