/** Which standing treasury alarms are reset by time: those that can still be armed, and no others. */
module TesoTime {
  import opened TesoAutoReset

  // ----- Standing alarms -----

  /** The alarm bit is set and no timer runs for it. */
  predicate Standing(t: Teso) {
    t.alarm && (t.phase == Normal || t.phase == Memory)
  }

  /** A check without a reset request arms a standing alarm if and only if the count has not passed its maximum. */
  lemma CheckArmsIff(t: Teso, env: Env, now: int)
    requires Standing(t)
    ensures var w := AutoReset(t, env, now, false);
            && (w.phase == Alarmed <==> t.n <= t.nmax)
            && (w.phase != Alarmed ==> Standing(w) && t.nmax < w.n && w.log == t.log)
  {
  }

  /** The recharges of a fixed time arm any standing alarm, and leave it no rearms. */
  lemma FixedArms(t: Teso, e: Event)
    requires Standing(t) && (e.Fixed25? || e.Fixed5?)
    ensures var w := Happen(t, e); w.phase == Alarmed && w.nmax < w.n && Measure(w, w.nmax) == t.norm
  {
  }

  /** Everything but the recharges of a fixed time, a reset request and the console. */
  predicate Ordinary(e: Event) {
    ProgrammedEvent(e) && (e.Trigger? || (e.Check? && !e.police) || e.Polled? || e.Raise?)
  }

  predicate AllOrdinary(events: seq<Event>) {
    forall e | e in events :: Ordinary(e)
  }

  // ----- One event at a time -----

  /** Standing with the count past its maximum. */
  predicate Stuck(t: Teso) {
    Standing(t) && t.nmax < t.n
  }

  /** Standing with a rearm left, and a maximum that the count can pass. */
  predicate Ready(t: Teso) {
    Standing(t) && t.n <= t.nmax < MAX_COUNT
  }

  lemma StuckStep(t: Teso, e: Event)
    requires Stuck(t) && Ordinary(e)
    ensures Stuck(Happen(t, e)) && Happen(t, e).log == t.log
  {
  }

  lemma ReadyStep(t: Teso, e: Event)
    requires Ready(t) && Ordinary(e)
    ensures var w := Happen(t, e);
            w.log == t.log && w.nmax == t.nmax && if e.Trigger? || e.Check? then w.phase == Alarmed else Ready(w)
  {
  }

  lemma ArmedStep(t: Teso, e: Event)
    requires t.phase == Alarmed && Ordinary(e)
    ensures var w := Happen(t, e);
            w.nmax == t.nmax && ((w.phase == Alarmed && w.log == t.log) || w.log == t.log + [t.n])
  {
  }

  lemma LogGrows(t: Teso, e: Event)
    ensures t.log <= Happen(t, e).log
  {
  }

  // ----- Events between two seconds -----

  lemma {:induction false} LogGrowsAfter(t: Teso, events: seq<Event>)
    ensures t.log <= After(t, events).log
    decreases |events|
  {
    hide Happen;
    if events != [] {
      LogGrows(t, events[0]);
      LogGrowsAfter(Happen(t, events[0]), events[1..]);
    }
  }

  lemma {:induction false} StuckAfter(t: Teso, events: seq<Event>)
    requires Stuck(t) && AllOrdinary(events)
    ensures Stuck(After(t, events)) && After(t, events).log == t.log
    decreases |events|
  {
    hide Happen, Stuck, Ordinary;
    if events != [] {
      assert events[0] in events;
      StuckStep(t, events[0]);
      StuckAfter(Happen(t, events[0]), events[1..]);
    }
  }

  /** An armed alarm stays armed through the events, or is reset by time. */
  lemma {:induction false} ArmedAfter(t: Teso, events: seq<Event>)
    requires t.phase == Alarmed && AllOrdinary(events)
    ensures || |t.log| < |After(t, events).log|
            || (&& Episode(t, Steady(t.nmax), events)
                && After(t, events).phase == Alarmed && After(t, events).nmax == t.nmax)
    decreases |events|
  {
    hide Happen;
    if events != [] {
      assert events[0] in events;
      var w := Happen(t, events[0]);
      ArmedStep(t, events[0]);
      LogGrowsAfter(w, events[1..]);
      if w.phase == Alarmed && w.log == t.log {
        ArmedAfter(w, events[1..]);
      }
    }
  }

  /** A ready alarm is armed by the first check or trigger. */
  lemma {:induction false} ReadyAfter(t: Teso, events: seq<Event>)
    requires Ready(t) && AllOrdinary(events)
    ensures var w := After(t, events);
            || |t.log| < |w.log| || (w.log == t.log && w.phase == Alarmed && w.nmax == t.nmax)
            || (w.log == t.log && Ready(w) && w.nmax == t.nmax && forall e | e in events :: !e.Check?)
    decreases |events|
  {
    hide Happen, Ready, Ordinary;
    if events != [] {
      assert events[0] in events;
      var w := Happen(t, events[0]);
      ReadyStep(t, events[0]);
      assert events == [events[0]] + events[1..];
      if w.phase == Alarmed && !Ready(w) {
        ArmedAfter(w, events[1..]);
        LogGrowsAfter(w, events[1..]);
      } else {
        ReadyIsNotArmed(t, events[0]);
        ReadyAfter(w, events[1..]);
      }
    }
  }

  lemma ReadyIsNotArmed(t: Teso, e: Event)
    requires Ready(t) && Ordinary(e)
    ensures Ready(Happen(t, e)) ==> !e.Check?
    ensures Happen(t, e).phase != Alarmed ==> Ready(Happen(t, e))
  {
  }

  // ----- Seconds -----

  function Seconds(t: Teso, blocks: seq<Block>): Teso
    decreases |blocks|
  {
    if blocks == [] then t else Seconds(After(Second(t), Events(blocks[0])), blocks[1..])
  }

  predicate OrdinaryBlocks(blocks: seq<Block>) {
    forall b | b in blocks :: AllOrdinary(Events(b))
  }

  lemma {:induction false} LogGrowsSeconds(t: Teso, blocks: seq<Block>)
    ensures t.log <= Seconds(t, blocks).log
    decreases |blocks|
  {
    hide After, Events;
    if blocks != [] {
      LogGrowsAfter(Second(t), Events(blocks[0]));
      LogGrowsSeconds(After(Second(t), Events(blocks[0])), blocks[1..]);
    }
  }

  /** With the count past its maximum, no number of seconds, triggers and checks arms the alarm or resets it. */
  lemma {:induction false} StuckSeconds(t: Teso, blocks: seq<Block>)
    requires Stuck(t) && OrdinaryBlocks(blocks)
    ensures Stuck(Seconds(t, blocks)) && Seconds(t, blocks).log == t.log
    decreases |blocks|
  {
    hide After, Events, AllOrdinary;
    if blocks != [] {
      assert blocks[0] in blocks;
      StuckAfter(Second(t), Events(blocks[0]));
      StuckSeconds(After(Second(t), Events(blocks[0])), blocks[1..]);
    }
  }

  lemma {:induction false} ArmedLasts(t: Teso, blocks: seq<Block>)
    requires t.phase == Alarmed && OrdinaryBlocks(blocks)
    ensures |t.log| < |Seconds(t, blocks).log| || EpisodeSeconds(t, Steady(t.nmax), blocks)
    decreases |blocks|
  {
    hide After, Events, AllOrdinary, Episode;
    if blocks != [] {
      assert blocks[0] in blocks;
      var w := After(Second(t), Events(blocks[0]));
      ArmedAfter(Second(t), Events(blocks[0]));
      LogGrowsAfter(Second(t), Events(blocks[0]));
      LogGrowsSeconds(w, blocks[1..]);
      if w.phase == Alarmed {
        ArmedLasts(w, blocks[1..]);
      }
    }
  }

  // ----- Reset by time -----

  /** The seconds after which a standing alarm that can be armed has been reset. */
  function Patience(t: Teso): nat {
    (t.nmax + 1) * (MAX_NORM + 1) + MAX_NORM + 2
  }

  lemma {:induction false} NormBounded(t: Teso, events: seq<Event>)
    requires t.norm <= MAX_NORM && AllOrdinary(events)
    ensures After(t, events).norm <= MAX_NORM
    decreases |events|
  {
    hide Happen;
    if events != [] {
      assert events[0] in events;
      NormStaysBounded(t, events[0]);
      NormBounded(Happen(t, events[0]), events[1..]);
    }
  }

  lemma ReadyIsReset(t: Teso, blocks: seq<Block>)
    requires Ready(t) && t.norm <= MAX_NORM && OrdinaryBlocks(blocks) && Patience(t) <= |blocks|
    ensures |t.log| < |Seconds(t, blocks).log|
  {
    hide After, Happen, AllOrdinary, Episode, EpisodeSeconds, Measure;
    var b, rest := blocks[0], blocks[1..];
    assert b in blocks && Check(b.env, b.now, b.police) in Events(b);
    var w := After(Second(t), Events(b));
    ReadyAfter(Second(t), Events(b));
    LogGrowsSeconds(w, rest);
    if |w.log| == |t.log| {
      NormBounded(Second(t), Events(b));
      MeasureBound(w, w.nmax);
      ArmedLasts(w, rest);
      if EpisodeSeconds(w, Steady(w.nmax), rest) {
        EpisodeBound(w, Steady(w.nmax), rest);
      }
    }
  }

  /** A standing alarm is reset by time, in ordinary operation, if and only if its count has not passed its maximum. */
  lemma ResetByTimeIff(t: Teso, blocks: seq<Block>)
    requires Standing(t) && CanPass(t) && t.norm <= MAX_NORM && OrdinaryBlocks(blocks) && Patience(t) <= |blocks|
    ensures Seconds(t, blocks).log != t.log <==> t.n <= t.nmax
  {
    hide Seconds, OrdinaryBlocks, Patience;
    if t.n <= t.nmax {
      ReadyIsReset(t, blocks);
    } else {
      StuckSeconds(t, blocks);
    }
  }

  /** A recharge of a fixed time is the one way back: it arms the alarm, which is then reset within the time left. */
  lemma FixedIsReset(t: Teso, e: Event, blocks: seq<Block>)
    requires Standing(t) && (e.Fixed25? || e.Fixed5?) && OrdinaryBlocks(blocks) && t.norm < |blocks|
    ensures |t.log| < |Seconds(Happen(t, e), blocks).log|
  {
    hide Happen, EpisodeSeconds, Measure, Seconds;
    var w := Happen(t, e);
    FixedArms(t, e);
    FixedLogsNothing(t, e);
    ArmedLasts(w, blocks);
    if EpisodeSeconds(w, Steady(w.nmax), blocks) {
      EpisodeBound(w, Steady(w.nmax), blocks);
    }
  }

  lemma FixedLogsNothing(t: Teso, e: Event)
    requires e.Fixed25? || e.Fixed5?
    ensures Happen(t, e).log == t.log
  {
  }

  // ----- How a standing alarm gets stuck -----

  const COLD: Env := Env(true, false, false, false, 0, 0)

  const TRIGGER: Event := Trigger(COLD, 0)

  /** After power-up. */
  function PowerUp(nmax: nat): Teso {
    Teso(Normal, 0, nmax, 0, 0, 0, 0, false, true, [])
  }

  lemma {:induction false} AfterMore(t: Teso, events: seq<Event>, more: seq<Event>)
    ensures After(t, events + more) == After(After(t, events), more)
    decreases |events|
  {
    hide Happen;
    if events == [] {
      assert events + more == more;
    } else {
      AfterMore(Happen(t, events[0]), events[1..], more);
      assert (events + more)[1..] == events[1..] + more;
    }
  }

  lemma {:induction false} Triggered(t: Teso, k: nat)
    requires t.n + k <= t.nmax + 1 <= MAX_COUNT && t.counter == 0
    ensures var w := After(t, seq(k, _ => TRIGGER));
            w.n == t.n + k && w.nmax == t.nmax && w.counter == 0 && w.alarm == t.alarm && w.log == t.log
    decreases k
  {
    if k != 0 {
      var events := seq(k, _ => TRIGGER);
      assert events[0] == TRIGGER && events[1..] == seq(k - 1, _ => TRIGGER);
      Triggered(Happen(t, TRIGGER), k - 1);
    }
  }

  lemma ResetAndRaised(t: Teso)
    requires t.counter == 0 && t.nmax < t.n
    ensures var w := After(t, [Check(COLD, 0, true), Raise]);
            Stuck(w) && w.phase == Normal && w.n == t.n && w.nmax == t.nmax && w.log == t.log
  {
    assert [Check(COLD, 0, true), Raise][1..] == [Raise] && [Raise][1..] == [];
    assert After(Happen(Happen(t, Check(COLD, 0, true)), Raise), []) == Happen(Happen(t, Check(COLD, 0, true)), Raise);
  }

  /** From power-up: triggered once more often than the maximum, reset on request, and raised again, the alarm
      stands and no longer obeys the time, whatever the maximum below 200. */
  lemma StuckHappens(nmax: nat)
    requires nmax < MAX_COUNT
    ensures var events := seq(nmax + 1, _ => TRIGGER) + [Check(COLD, 0, true), Raise];
            Stuck(After(PowerUp(nmax), events))
  {
    hide After, Happen, Stuck;
    var triggers := seq(nmax + 1, _ => TRIGGER);
    Triggered(PowerUp(nmax), nmax + 1);
    AfterMore(PowerUp(nmax), triggers, [Check(COLD, 0, true), Raise]);
    ResetAndRaised(After(PowerUp(nmax), triggers));
  }
}
