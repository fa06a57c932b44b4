/** When the key watchdog takes the transmitter's power and when it gives it back, when it blocks the key and for how
    long: exactly, whatever the other tasks ask of the key.
 */
module KeyPower {
  import opened KeyWatchdog
  import opened KeyRuns

  // ----- One run of the watchdog, by what it shows -----

  /** The key has been on for too long, before or under a block. */
  predicate Stuck(v: Wd) {
    (v.mode == TxOn || v.mode == CpollOn) && v.key && v.tOn > 60000
  }

  lemma LimitsPower(v: Wd)
    ensures var w := TxOnLimits(v);
            && w.log == (if v.key && v.tOn > 60000 then v.log + [816] else v.log)
            && (w.power <==> v.power && !(v.key && v.tOn > 60000))
            && (v.key && v.tOn > 60000 ==> !w.pin && !w.key && w.inhibit)
  {
  }

  lemma PolledPower(v: Wd)
    ensures var w := TxOnPolled(v);
            && w.log == v.log && w.power == v.power
            && (!v.pin && !v.key && v.inhibit ==> !w.pin && !w.key && w.inhibit)
  {
  }

  lemma TxOffPower(v: Wd)
    ensures WatchTxOff(v).log == v.log && WatchTxOff(v).power == v.power
  {
  }

  lemma TxModesPower(v: Wd)
    requires v.mode == TxOn || v.mode == TxOff
    ensures var w := Watch(v);
            && w.log == (if Stuck(v) then v.log + [816] else v.log) && (w.power <==> v.power && !Stuck(v))
            && (Stuck(v) ==> !w.pin && !w.key && w.inhibit)
  {
    hide TxOnLimits, TxOnPolled, WatchTxOff;
    LimitsPower(v);
    PolledPower(TxOnLimits(v));
    TxOffPower(v);
  }

  lemma OtherModesPower(v: Wd)
    requires v.mode != TxOn && v.mode != TxOff
    ensures var w := Watch(v);
            && w.log == (if Stuck(v) then v.log + [816] else v.log)
            && (w.power <==> !Stuck(v) && (v.power || (v.mode == TxDisp && v.tOff > 60000)))
            && (Stuck(v) ==> !w.pin && !w.key && w.inhibit)
  {
    hide TxOnLimits, TxOnPolled, WatchTxOff;
  }

  /** In every mode: event 816 is logged, and the power taken, exactly when the key is stuck; the power is given back
      exactly when a disabled transmitter has waited for more than a minute. */
  lemma PowerIff(v: Wd)
    ensures var w := Watch(v);
            && w.log == (if Stuck(v) then v.log + [816] else v.log)
            && (w.power <==> !Stuck(v) && (v.power || (v.mode == TxDisp && v.tOff > 60000)))
            && (Stuck(v) ==> !w.pin && !w.key && w.inhibit)
  {
    hide Watch;
    if v.mode == TxOn || v.mode == TxOff {
      TxModesPower(v);
    } else {
      OtherModesPower(v);
    }
  }

  /** Continuous polling: the key on when the polling counter is past a minute, or off when it is past 65
      seconds and the pause has not been long enough; or ten changes since an earlier block that is still
      remembered. */
  predicate PolledTooLong(v: Wd) {
    || (v.mode == TxOn && v.key && v.tOn <= 60000 && v.tPoll > 60000)
    || (v.mode == TxOff && !v.key && v.tOff <= 5000 && v.tPoll > 65000)
  }

  predicate PolledTooOften(v: Wd) {
    && v.polled
    && (|| (v.mode == TxOn && (if v.key then v.count else v.count + 1) >= 10)
        || (v.mode == TxOff && !v.key && v.tOff <= 5000 && v.count >= 10))
  }

  predicate IsBlocked(mode: Mode) {
    mode == CpollOn || mode == CpollOff
  }

  /** A block begins exactly then: the key goes off and inhibited, and the time since the block starts. */
  lemma BlockBeginsIff(v: Wd)
    requires !IsBlocked(v.mode)
    ensures var w := Watch(v);
            && (IsBlocked(w.mode) <==> PolledTooLong(v) || PolledTooOften(v))
            && (IsBlocked(w.mode) ==> w.mode == (if v.mode == TxOn then CpollOn else CpollOff)
                                      && w.inhibit && !w.pin && !w.key && w.tInh == 0)
  {
    hide TxOnLimits, TxOnPolled, WatchTxOff;
    if v.mode == TxOn {
      TxOnBlocks(v);
    } else if v.mode == TxOff {
      TxOffBlocks(v);
    }
  }

  lemma TxOnBlocks(v: Wd)
    requires v.mode == TxOn
    ensures var w := TxOnPolled(TxOnLimits(v));
            && (IsBlocked(w.mode) <==> PolledTooLong(v) || PolledTooOften(v))
            && (IsBlocked(w.mode) ==> w.mode == CpollOn && w.inhibit && !w.pin && !w.key && w.tInh == 0)
  {
    var w1 := TxOnLimits(v);
    assert w1.polled == v.polled && w1.count == if v.key then v.count else v.count + 1;
  }

  lemma TxOffBlocks(v: Wd)
    requires v.mode == TxOff
    ensures var w := WatchTxOff(v);
            && (IsBlocked(w.mode) <==> PolledTooLong(v) || PolledTooOften(v))
            && (IsBlocked(w.mode) ==> w.mode == CpollOff && w.inhibit && !w.pin && !w.key && w.tInh == 0)
  {
  }

  /** An earlier block has been remembered for five minutes, and the watchdog neither blocks the key for another one nor
      has seen a pause. */
  predicate Outlasted(v: Wd) {
    && v.polled && v.tInh > 300000 && !PolledTooLong(v) && !PolledTooOften(v)
    && (v.mode == TxOn || (v.mode == TxOff && !v.key && v.tOff <= 5000))
  }

  /** A block is remembered exactly from its end, a pause of more than five seconds, until it is outlasted. */
  lemma RememberedIff(v: Wd)
    ensures Watch(v).polled <==>
              (v.polled && !Outlasted(v)) || (v.mode == CpollOff && !v.key && v.tOff > 5000)
    ensures Outlasted(v) ==> Watch(v).mode == Idle
  {
    hide TxOnLimits, TxOnPolled, WatchTxOff;
    if v.mode == TxOn {
      TxOnRemembers(v);
    } else if v.mode == TxOff {
      TxOffRemembers(v);
    }
  }

  lemma TxOnRemembers(v: Wd)
    requires v.mode == TxOn
    ensures var w := TxOnPolled(TxOnLimits(v));
            (w.polled <==> v.polled && !Outlasted(v)) && (Outlasted(v) ==> w.mode == Idle)
  {
    var w1 := TxOnLimits(v);
    assert w1.polled == v.polled && w1.count == if v.key then v.count else v.count + 1;
    assert w1.tInh == if v.key && v.tOn <= 60000 && v.tPoll > 60000 then 0 else v.tInh;
  }

  lemma TxOffRemembers(v: Wd)
    requires v.mode == TxOff
    ensures (WatchTxOff(v).polled <==> v.polled && !Outlasted(v)) && (Outlasted(v) ==> WatchTxOff(v).mode == Idle)
  {
  }

  // ----- A disabled transmitter, over rounds -----

  lemma DisabledRound(w: Wd, r: Round)
    requires w.mode == TxDisp && w.tOff <= 60000 && !w.power
    ensures var w' := Tick(w, r);
            if w.tOff < 60000 then w'.mode == TxDisp && w'.tOff == w.tOff + 1 && !w'.power && w'.inhibit
            else w'.mode == Idle && w'.power && !w'.inhibit
  {
    hide Seen, TxOnLimits, TxOnPolled, WatchTxOff;
    SeenKeeps(w, r);
  }

  lemma {:induction false} DisabledRounds(w: Wd, rounds: seq<Round>)
    requires w.mode == TxDisp && !w.power && w.tOff + |rounds| <= 60000
    ensures var w' := Run(w, rounds);
            w'.mode == TxDisp && w'.tOff == w.tOff + |rounds| && !w'.power && (rounds != [] ==> w'.inhibit)
    decreases |rounds|
  {
    hide Tick;
    if rounds != [] {
      DisabledRound(w, rounds[0]);
      DisabledRounds(Tick(w, rounds[0]), rounds[1..]);
    }
  }

  lemma {:induction false} RunLast(w: Wd, rounds: seq<Round>, last: Round)
    ensures Run(w, rounds + [last]) == Tick(Run(w, rounds), last)
    decreases |rounds|
  {
    hide Tick;
    if rounds == [] {
      assert rounds + [last] == [last] && [last][1..] == [];
      assert Run(Tick(w, last), []) == Tick(w, last);
    } else {
      RunLast(Tick(w, rounds[0]), rounds[1..], last);
      assert (rounds + [last])[1..] == rounds[1..] + [last];
    }
  }

  /** After a stuck key the transmitter stays without power, and the key inhibited, for exactly 60 000 rounds,
      whatever is asked of the key; the round after them gives the power back and ends the inhibition. */
  lemma PowerReturns(w: Wd, rounds: seq<Round>, last: Round)
    requires w.mode == TxDisp && w.tOff == 0 && !w.power && |rounds| <= 60000
    ensures var w' := Run(w, rounds); w'.mode == TxDisp && !w'.power && (rounds != [] ==> w'.inhibit)
    ensures |rounds| == 60000 ==>
              var w' := Run(w, rounds + [last]); w'.mode == Idle && w'.power && !w'.inhibit
  {
    hide Tick, Run;
    DisabledRounds(w, rounds);
    RunLast(w, rounds, last);
    if |rounds| == 60000 {
      DisabledRound(Run(w, rounds), last);
    }
  }

  /** A stuck key without a remembered block leads there. */
  lemma StuckDisables(v: Wd)
    requires Stuck(v) && (v.mode == TxOn ==> !v.polled)
    ensures var w := Watch(v); w.mode == TxDisp && w.tOff == 0 && !w.power && w.inhibit && !w.pin && !w.key
  {
    if v.mode == TxOn {
      assert TxOnLimits(v) == Disable(v);
    }
  }

  // ----- Blocks and pauses, over rounds -----

  /** The watchdog sees the key at the same level in every round. */
  predicate Sees(w: Wd, rounds: seq<Round>, on: bool)
    decreases |rounds|
  {
    rounds == [] || (Seen(w, rounds[0]).key == on && Sees(Tick(w, rounds[0]), rounds[1..], on))
  }

  lemma {:induction false} SeesMore(w: Wd, rounds: seq<Round>, last: Round, on: bool)
    ensures Sees(w, rounds + [last], on) <==> Sees(w, rounds, on) && Seen(Run(w, rounds), last).key == on
    decreases |rounds|
  {
    hide Tick, Seen;
    if rounds == [] {
      assert rounds + [last] == [last] && [last][1..] == [];
      assert Sees(Tick(w, last), [], on);
    } else {
      SeesMore(Tick(w, rounds[0]), rounds[1..], last, on);
      assert (rounds + [last])[1..] == rounds[1..] + [last];
    }
  }

  lemma PauseRound(w: Wd, r: Round)
    requires w.mode == CpollOff && w.tOff <= 5000 && !Seen(w, r).key
    ensures var w' := Tick(w, r);
            if w.tOff < 5000 then w'.mode == CpollOff && w'.tOff == w.tOff + 1 && w'.inhibit
            else w'.mode == Idle && w'.polled && !w'.inhibit
  {
    hide Seen, TxOnLimits, TxOnPolled, WatchTxOff;
    SeenKeeps(w, r);
  }

  lemma {:induction false} PauseRounds(w: Wd, rounds: seq<Round>)
    requires w.mode == CpollOff && Sees(w, rounds, false) && w.tOff + |rounds| <= 5000
    ensures var w' := Run(w, rounds);
            w'.mode == CpollOff && w'.tOff == w.tOff + |rounds| && (rounds != [] ==> w'.inhibit)
    decreases |rounds|
  {
    hide Tick, Seen;
    if rounds != [] {
      PauseRound(w, rounds[0]);
      PauseRounds(Tick(w, rounds[0]), rounds[1..]);
    }
  }

  /** A block for continuous polling ends after the key has been off for exactly 5001 rounds, and is then remembered. */
  lemma BlockEnds(w: Wd, rounds: seq<Round>, last: Round)
    requires w.mode == CpollOff && w.tOff == 0 && |rounds| <= 5000 && Sees(w, rounds + [last], false)
    ensures Run(w, rounds).mode == CpollOff && (rounds != [] ==> Run(w, rounds).inhibit)
    ensures |rounds| == 5000 ==>
              var w' := Run(w, rounds + [last]); w'.mode == Idle && w'.polled && !w'.inhibit
  {
    hide Tick, Run, Sees, Seen;
    SeesMore(w, rounds, last, false);
    PauseRounds(w, rounds);
    RunLast(w, rounds, last);
    if |rounds| == 5000 {
      PauseRound(Run(w, rounds), last);
    }
  }

  /** A key that goes on under a block starts its own time, and going off starts the pause again. */
  lemma BlockRenewed(w: Wd, r: Round)
    requires IsBlocked(w.mode) && w.tOff < 0xFFFF_FFFF && w.tOn < 0xFFFF_FFFF
    ensures var on, w' := Seen(w, r).key, Tick(w, r);
            && (w.mode == CpollOff && on ==> w'.mode == CpollOn && w'.tOn == 0 && w'.inhibit && w'.key)
            && (w.mode == CpollOn && !on ==> w'.mode == CpollOff && w'.tOff == 0 && w'.inhibit)
  {
    hide Seen, TxOnLimits, TxOnPolled, WatchTxOff;
    SeenKeeps(w, r);
  }

  lemma HeldRound(w: Wd, r: Round)
    requires w.mode == CpollOn && w.tOn <= 60000 && Seen(w, r).key
    ensures var w' := Tick(w, r);
            if w.tOn < 60000 then w'.mode == CpollOn && w'.tOn == w.tOn + 1 && w'.inhibit && w'.log == w.log
            else w'.mode == TxDisp && w'.tOff == 0 && !w'.power && w'.inhibit && !w'.key && w'.log == w.log + [816]
  {
    hide Seen, TxOnLimits, TxOnPolled, WatchTxOff;
    SeenKeeps(w, r);
  }

  lemma {:induction false} HeldRounds(w: Wd, rounds: seq<Round>)
    requires w.mode == CpollOn && Sees(w, rounds, true) && w.tOn + |rounds| <= 60000
    ensures var w' := Run(w, rounds); w'.mode == CpollOn && w'.tOn == w.tOn + |rounds| && w'.log == w.log
    decreases |rounds|
  {
    hide Tick, Seen;
    if rounds != [] {
      HeldRound(w, rounds[0]);
      HeldRounds(Tick(w, rounds[0]), rounds[1..]);
    }
  }

  /** A key held under a block keeps it blocked for exactly 60 000 rounds, and is then stuck: the power goes off. */
  lemma HeldUnderBlock(w: Wd, rounds: seq<Round>, last: Round)
    requires w.mode == CpollOn && w.tOn == 0 && |rounds| <= 60000 && Sees(w, rounds + [last], true)
    ensures Run(w, rounds).mode == CpollOn && Run(w, rounds).log == w.log
    ensures |rounds| == 60000 ==>
              var w' := Run(w, rounds + [last]);
              w'.mode == TxDisp && w'.tOff == 0 && !w'.power && w'.inhibit && w'.log == w.log + [816]
  {
    hide Tick, Run, Sees, Seen;
    SeesMore(w, rounds, last, true);
    HeldRounds(w, rounds);
    RunLast(w, rounds, last);
    if |rounds| == 60000 {
      HeldRound(Run(w, rounds), last);
    }
  }

  lemma IdleRound(w: Wd, r: Round)
    requires w.mode == TxOff && !w.polled && w.tOff <= 5000 && w.tPoll < 65000 && !Seen(w, r).key
    ensures var w' := Tick(w, r);
            && w'.tPoll == w.tPoll + 1 && !w'.polled
            && if w.tOff < 5000 then w'.mode == TxOff && w'.tOff == w.tOff + 1 else w'.mode == Idle && !w'.inhibit
  {
    hide Seen, TxOnLimits, TxOnPolled;
    SeenKeeps(w, r);
  }

  lemma {:induction false} IdleRounds(w: Wd, rounds: seq<Round>)
    requires w.mode == TxOff && !w.polled && Sees(w, rounds, false)
    requires w.tOff + |rounds| <= 5000 && w.tPoll + |rounds| <= 65000
    ensures var w' := Run(w, rounds);
            w'.mode == TxOff && !w'.polled && w'.tOff == w.tOff + |rounds| && w'.tPoll == w.tPoll + |rounds|
    decreases |rounds|
  {
    hide Tick, Seen;
    if rounds != [] {
      IdleRound(w, rounds[0]);
      IdleRounds(Tick(w, rounds[0]), rounds[1..]);
    }
  }

  /** Polling without a block ends after a pause of exactly 5001 rounds. */
  lemma PauseEnds(w: Wd, rounds: seq<Round>, last: Round)
    requires w.mode == TxOff && !w.polled && w.tOff == 0 && w.tPoll + 5001 <= 65000
    requires |rounds| <= 5000 && Sees(w, rounds + [last], false)
    ensures Run(w, rounds).mode == TxOff
    ensures |rounds| == 5000 ==> var w' := Run(w, rounds + [last]); w'.mode == Idle && !w'.inhibit
  {
    hide Tick, Run, Sees, Seen;
    SeesMore(w, rounds, last, false);
    IdleRounds(w, rounds);
    RunLast(w, rounds, last);
    if |rounds| == 5000 {
      IdleRound(Run(w, rounds), last);
    }
  }
}
