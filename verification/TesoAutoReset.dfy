/** Rearming and automatic reset of the treasury alarm ("tesoro").

    An episode is a stretch of time spent in `Alarmed`.  Each retrigger may restart its timer, but only while
    the trigger count does not exceed its maximum.
 */
module TesoAutoReset {

  datatype Phase = Normal | Alarmed | Memory | Unknown

  /** What other modules decide and this one reads: whether an opening is authorised (`valid`), the polling slot
      (`pap`), why the alarm was raised, and the two programmed times in minutes. */
  datatype Env = Env(valid: bool, pap: bool, byOpening: bool, byConsole: bool, autorst: nat, paparst: nat) {
    /** The widths of the programmed times: a byte in flash and a 16-bit word in the EEPROM. */
    predicate Programmed() {
      autorst < 0x100 && paparst < 0x1_0000
    }
  }

  /** The alarm bit and the flag for normal operation, and everything the machine counts. */
  datatype Teso = Teso(
    phase: Phase, n: nat, nmax: nat, norm: nat, counter: nat, since: int, minimum: nat,
    alarm: bool, quiet: bool, log: seq<nat>)

  const MAX_COUNT: nat := 200
  const POLL_COUNT: nat := 1

  /** The longest time that a rearm can program, in seconds. */
  const MAX_NORM: nat := 0xFF * 60

  function Low16(x: nat): nat {
    x % 0x1_0000
  }

  // ----- The steps on values -----

  /** The timers that a rearm programs. */
  function Program(t: Teso, env: Env): Teso {
    if env.valid then
      t.(counter := 0, minimum := if env.pap then 60 else 120, norm := env.autorst * 60)
    else if env.pap then
      t.(counter := 0, minimum := Low16(env.paparst * 60))
    else
      var seconds := if env.byOpening then 75 * 60 else if env.byConsole then 120 * 60 else env.autorst * 60;
      t.(counter := POLL_COUNT, minimum := Low16(seconds), norm := seconds)
  }

  /** A trigger: rearms unless there were too many, and counts. */
  function Recharge(t: Teso, env: Env, now: int): Teso {
    var t1 := if t.n <= t.nmax then Program(t.(quiet := false, phase := Alarmed, since := now), env) else t;
    if t1.n < MAX_COUNT then t1.(n := t1.n + 1) else t1
  }

  /** A running alarm is given a fixed time and no more rearms.  The timer `norm` is left as it is. */
  function Recharge25(t: Teso, env: Env, now: int): Teso
  {
    if !t.alarm then t
    else
      t.(n := t.nmax + 1, quiet := false, phase := Alarmed, since := now,
         counter := if env.valid || env.pap then 0 else POLL_COUNT,
         minimum := if env.valid then (if env.pap then 60 else 120)
                    else if env.pap then Low16(env.paparst * 60) else 25 * 60)
  }

  function Recharge5(t: Teso, now: int): Teso
  {
    if !t.alarm then t
    else t.(n := t.nmax + 1, quiet := false, phase := Alarmed, since := now, counter := 0, minimum := 5 * 60)
  }

  /** The part of the automatic reset that obeys a reset request. */
  function PoliceReset(t: Teso): Teso {
    if t.counter < POLL_COUNT then t.(phase := Normal, alarm := false, counter := 0) else t
  }

  predicate Expired(t: Teso, now: int) {
    (t.counter == 0 && now > t.since + t.minimum) || t.norm == 0
  }

  function AutoReset(t: Teso, env: Env, now: int, police: bool): Teso {
    var t1 := if police then PoliceReset(t) else t;
    match t1.phase
    case Normal => if t1.alarm then Recharge(t1, env, now) else t1
    case Alarmed =>
      if Expired(t1, now) then t1.(counter := 0, phase := Memory, n := 0, alarm := false, log := t1.log + [t1.n])
      else t1
    case Memory => if t1.alarm then Recharge(t1, env, now) else t1
    case Unknown => t1.(phase := Normal)
  }

  function Second(t: Teso): Teso {
    if t.norm != 0 then t.(norm := t.norm - 1) else t
  }

  /** A poll of the panel takes one off the poll counter. */
  function Poll(t: Teso): Teso {
    if t.counter != 0 then t.(counter := t.counter - 1) else t
  }

  // ----- The machine itself -----

  class Machine {
    var phase: Phase
    var n: nat
    var nmax: nat
    var norm: nat
    var counter: nat
    var since: int
    var minimum: nat
    var alarm: bool
    var quiet: bool
    ghost var log: seq<nat>

    ghost function View(): Teso
      reads this
    {
      Teso(phase, n, nmax, norm, counter, since, minimum, alarm, quiet, log)
    }

    method ProgramTimers(env: Env)
      modifies this
      ensures View() == Program(old(View()), env)
    {
      if env.valid {
        counter := 0;
        minimum := if env.pap then 60 else 120;
        norm := env.autorst * 60;
      } else if !env.pap {
        if env.byOpening {
          minimum := 75 * 60;
          norm := 75 * 60;
        } else if env.byConsole {
          minimum := 120 * 60;
          norm := 120 * 60;
        } else {
          minimum := Low16(env.autorst * 60);
          norm := env.autorst * 60;
        }
        counter := POLL_COUNT;
      } else {
        counter := 0;
        minimum := Low16(env.paparst * 60);
      }
    }

    method RechargeAlarm(env: Env, now: int)
      modifies this
      ensures View() == Recharge(old(View()), env, now)
    {
      if n <= nmax {
        quiet := false;
        phase := Alarmed;
        since := now;
        ProgramTimers(env);
      }
      if n < MAX_COUNT {
        n := n + 1;
      }
    }

    method Recharge25MinAlarm(env: Env, now: int)
      modifies this
      ensures View() == Recharge25(old(View()), env, now)
    {
      if alarm {
        n := nmax + 1;
        quiet := false;
        phase := Alarmed;
        since := now;
        if env.valid {
          counter := 0;
          minimum := if env.pap then 60 else 120;
        } else if !env.pap {
          counter := POLL_COUNT;
          minimum := 25 * 60;
        } else {
          counter := 0;
          minimum := Low16(env.paparst * 60);
        }
      }
    }

    method Recharge5MinAlarm(now: int)
      modifies this
      ensures View() == Recharge5(old(View()), now)
    {
      if alarm {
        n := nmax + 1;
        quiet := false;
        phase := Alarmed;
        since := now;
        counter := 0;
        minimum := 5 * 60;
      }
    }

    method AutoresetLogo3d(env: Env, now: int, police: bool)
      modifies this
      ensures View() == AutoReset(old(View()), env, now, police)
    {
      if police && counter < POLL_COUNT {
        phase := Normal;
        alarm := false;
        counter := 0;
      }
      match phase {
        case Normal =>
          if alarm {
            RechargeAlarm(env, now);
          }
        case Alarmed =>
          if (counter == 0 && now > since + minimum) || norm == 0 {
            counter := 0;
            phase := Memory;
            log := log + [n];
            n := 0;
            alarm := false;
          }
        case Memory =>
          if alarm {
            RechargeAlarm(env, now);
          }
        case Unknown =>
          phase := Normal;
      }
    }

    /** The part of the one-second interrupt that belongs to this alarm. */
    method RtcSecond()
      modifies this
      ensures View() == Second(old(View()))
    {
      if norm != 0 {
        norm := norm - 1;
      }
    }

    method RfPoll()
      modifies this
      ensures View() == Poll(old(View()))
    {
      if counter != 0 {
        counter := counter - 1;
      }
    }
  }

  // ----- Runs -----

  /** Everything that can happen to the alarm.  `Raise` and `Clear` are the detection machines and the console
      setting and clearing the alarm bit; `Forget` is the console clearing the timers as well, and `SetMax` the console
      setting the maximum. */
  datatype Event =
    | Trigger(env: Env, now: int)
    | Fixed25(env: Env, now: int)
    | Fixed5(now: int)
    | Check(env: Env, now: int, police: bool)
    | Polled
    | Raise
    | Clear
    | Forget
    | SetMax(maximum: nat)

  function Happen(t: Teso, e: Event): Teso
  {
    match e
    case Trigger(env, now) => Recharge(t, env, now)
    case Fixed25(env, now) => Recharge25(t, env, now)
    case Fixed5(now) => Recharge5(t, now)
    case Check(env, now, police) => AutoReset(t, env, now, police)
    case Polled => Poll(t)
    case Raise => t.(alarm := true)
    case Clear => t.(alarm := false)
    case Forget => t.(alarm := false, counter := 0, since := 0)
    case SetMax(maximum) => t.(nmax := maximum)
  }

  /** The values that an event brings are among those that can be programmed. */
  predicate ProgrammedEvent(e: Event) {
    && ((e.Trigger? || e.Fixed25? || e.Check?) ==> e.env.Programmed())
    && (e.SetMax? ==> 3 <= e.maximum <= MAX_COUNT)
  }

  /** What a stretch of time is like: either the maximum stays at `top`, or it changes below `top` while no
      recharge of a fixed time sets the count back. */
  datatype Regime = Steady(top: nat) | Changing(top: nat)

  predicate Admits(g: Regime, e: Event) {
    && ProgrammedEvent(e)
    && if g.Steady? then !e.SetMax? else !e.Fixed25? && !e.Fixed5? && (e.SetMax? ==> e.maximum <= g.top)
  }

  /** The events keep the episode going: the phase is `Alarmed` before the first and after each of them. */
  predicate Episode(t: Teso, g: Regime, events: seq<Event>)
    decreases |events|
  {
    && t.phase == Alarmed
    && (events != [] ==> Admits(g, events[0]) && Episode(Happen(t, events[0]), g, events[1..]))
  }

  function After(t: Teso, events: seq<Event>): Teso
    decreases |events|
  {
    if events == [] then t else After(Happen(t, events[0]), events[1..])
  }

  // ----- The measure -----

  function Rearms(t: Teso, top: nat): nat {
    if t.n <= top then top + 1 - t.n else 0
  }

  /** An upper bound on the seconds left in the episode, while the maximum does not exceed `top`. */
  function Measure(t: Teso, top: nat): nat {
    Rearms(t, top) * (MAX_NORM + 1) + t.norm
  }

  /** The trigger count, which stops at 200, can pass its maximum or has passed it. */
  predicate CanPass(t: Teso) {
    t.nmax < MAX_COUNT || t.nmax < t.n
  }

  /** The maximum is within the regime, and the count can pass every maximum that the regime allows. */
  predicate Under(t: Teso, g: Regime) {
    match g
    case Steady(top) => t.nmax == top && CanPass(t)
    case Changing(top) => t.nmax <= top < MAX_COUNT
  }

  /** A trigger spends one rearm for the time it programs. */
  lemma RechargeKeepsMeasure(t: Teso, g: Regime, env: Env, now: int)
    requires Under(t, g) && env.Programmed()
    ensures var w := Recharge(t, env, now);
            && Under(w, g) && Measure(w, g.top) <= Measure(t, g.top)
            && (t.norm == 0 && w.norm != 0 ==> Measure(w, g.top) < Measure(t, g.top))
  {
    var w := Recharge(t, env, now);
    if t.n <= t.nmax {
      assert Rearms(w, g.top) == Rearms(t, g.top) - 1 && (w.norm == t.norm || w.norm <= MAX_NORM);
    } else {
      assert Rearms(w, g.top) <= Rearms(t, g.top) && w.norm == t.norm;
    }
  }

  lemma OtherEventKeepsMeasure(t: Teso, g: Regime, e: Event)
    requires Under(t, g) && t.phase == Alarmed && Admits(g, e) && Happen(t, e).phase == Alarmed && !e.Trigger?
    ensures Under(Happen(t, e), g)
    ensures Rearms(Happen(t, e), g.top) <= Rearms(t, g.top) && Happen(t, e).norm == t.norm
  {
    hide Recharge;
  }

  /** No event of an episode raises the measure.  If the timer has run out and still starts again, the measure falls. */
  lemma EventKeepsMeasure(t: Teso, g: Regime, e: Event)
    requires Under(t, g) && t.phase == Alarmed && Admits(g, e) && Happen(t, e).phase == Alarmed
    ensures Under(Happen(t, e), g) && Measure(Happen(t, e), g.top) <= Measure(t, g.top)
    ensures t.norm == 0 && Happen(t, e).norm != 0 ==> Measure(Happen(t, e), g.top) < Measure(t, g.top)
  {
    hide Recharge, Under, Rearms;
    if e.Trigger? {
      RechargeKeepsMeasure(t, g, e.env, e.now);
    } else {
      OtherEventKeepsMeasure(t, g, e);
    }
  }

  lemma {:induction false} EventsKeepMeasure(t: Teso, g: Regime, events: seq<Event>)
    requires Under(t, g) && Episode(t, g, events)
    ensures var w := After(t, events);
            && Under(w, g) && Measure(w, g.top) <= Measure(t, g.top) && w.phase == Alarmed
            && (t.norm == 0 && w.norm != 0 ==> Measure(w, g.top) < Measure(t, g.top))
    decreases |events|
  {
    hide Happen, Under, Measure, Admits;
    if events != [] {
      EpisodeGoesOn(t, g, events);
      EventKeepsMeasure(t, g, events[0]);
      EventsKeepMeasure(Happen(t, events[0]), g, events[1..]);
    }
  }

  lemma EpisodeGoesOn(t: Teso, g: Regime, events: seq<Event>)
    requires Episode(t, g, events) && events != []
    ensures Admits(g, events[0]) && Happen(t, events[0]).phase == Alarmed
  {
    hide Happen, Admits;
  }

  // ----- Seconds -----

  /** One second of an episode: the interrupt, and then the events up to the next one, with at least one check. */
  datatype Block = Block(before: seq<Event>, env: Env, now: int, police: bool, after: seq<Event>)

  function Events(b: Block): seq<Event> {
    b.before + [Check(b.env, b.now, b.police)] + b.after
  }

  /** The episode lasts through all the blocks. */
  predicate EpisodeSeconds(t: Teso, g: Regime, blocks: seq<Block>)
    decreases |blocks|
  {
    && t.phase == Alarmed
    && (blocks != [] ==>
          && Episode(Second(t), g, Events(blocks[0]))
          && EpisodeSeconds(After(Second(t), Events(blocks[0])), g, blocks[1..]))
  }

  lemma {:induction false} EpisodeSplits(t: Teso, g: Regime, a: seq<Event>, b: seq<Event>)
    requires Episode(t, g, a + b)
    ensures Episode(t, g, a) && Episode(After(t, a), g, b) && After(t, a + b) == After(After(t, a), b)
    decreases |a|
  {
    hide Happen, Admits;
    if a == [] {
      assert a + b == b;
    } else {
      assert (a + b)[1..] == a[1..] + b;
      EpisodeSplits(Happen(t, a[0]), g, a[1..], b);
    }
  }

  /** A check that does not end the episode finds the timer running. */
  lemma CheckNeedsTimer(t: Teso, env: Env, now: int, police: bool)
    requires t.phase == Alarmed && AutoReset(t, env, now, police).phase == Alarmed
    ensures t.norm != 0 && AutoReset(t, env, now, police) == t
  {
  }

  lemma SecondKeepsMeasure(t: Teso, g: Regime)
    requires Under(t, g)
    ensures Under(Second(t), g) && Measure(Second(t), g.top) <= Measure(t, g.top)
    ensures t.norm != 0 ==> Measure(Second(t), g.top) < Measure(t, g.top)
  {
  }

  lemma BlockLowersMeasure(t: Teso, g: Regime, b: Block)
    requires Under(t, g) && Episode(Second(t), g, Events(b))
    ensures var w := After(Second(t), Events(b)); Under(w, g) && Measure(w, g.top) < Measure(t, g.top)
  {
    hide AutoReset, Recharge, Under, Measure, Admits, Happen;
    var t1, check := Second(t), Check(b.env, b.now, b.police);
    SecondKeepsMeasure(t, g);
    EventsKeepMeasure(t1, g, Events(b));
    if t.norm == 0 {
      assert Events(b) == b.before + ([check] + b.after);
      EpisodeSplits(t1, g, b.before, [check] + b.after);
      var t2 := After(t1, b.before);
      EventsKeepMeasure(t1, g, b.before);
      EpisodeGoesOn(t2, g, [check] + b.after);
      CheckHappens(t2, b.env, b.now, b.police);
      CheckNeedsTimer(t2, b.env, b.now, b.police);
      EventsKeepMeasure(t2, g, [check] + b.after);
    }
  }

  lemma CheckHappens(t: Teso, env: Env, now: int, police: bool)
    ensures Happen(t, Check(env, now, police)) == AutoReset(t, env, now, police)
  {
  }

  /** While the maximum stays and the count can pass it, or the maximum changes below 200 with no recharge of a fixed
      time, an episode ends within the measure, however often it is retriggered. */
  lemma {:induction false} EpisodeBound(t: Teso, g: Regime, blocks: seq<Block>)
    requires Under(t, g) && EpisodeSeconds(t, g, blocks)
    ensures |blocks| <= Measure(t, g.top)
    decreases |blocks|
  {
    hide Events, Episode, Under, Measure;
    if blocks != [] {
      BlockLowersMeasure(t, g, blocks[0]);
      EpisodeBound(After(Second(t), Events(blocks[0])), g, blocks[1..]);
    }
  }

  /** The timer never holds more than the longest programmable time. */
  lemma NormStaysBounded(t: Teso, e: Event)
    requires t.norm <= MAX_NORM && ProgrammedEvent(e)
    ensures Happen(t, e).norm <= MAX_NORM && Second(t).norm <= MAX_NORM
  {
  }

  lemma MeasureBound(t: Teso, top: nat)
    requires t.norm <= MAX_NORM
    ensures Measure(t, top) <= (top + 1) * (MAX_NORM + 1) + MAX_NORM
  {
    assert Rearms(t, top) * (MAX_NORM + 1) <= (top + 1) * (MAX_NORM + 1);
  }

  // ----- The bound fails exactly when the count cannot pass its maximum -----

  const ONE_MINUTE: Env := Env(false, false, false, false, 1, 0)

  /** Retriggered once a second. */
  const RETRIGGER: Block := Block([Trigger(ONE_MINUTE, 0)], ONE_MINUTE, 0, false, [])

  lemma RetriggeredSecond(t: Teso)
    requires !CanPass(t) && t.phase == Alarmed
    ensures Episode(Second(t), Steady(t.nmax), Events(RETRIGGER))
    ensures var w := After(Second(t), Events(RETRIGGER)); w.phase == Alarmed && !CanPass(w) && w.nmax == t.nmax
  {
    var t1 := Second(t);
    var t2 := Recharge(t1, ONE_MINUTE, 0);
    var check := Check(ONE_MINUTE, 0, false);
    assert t2.phase == Alarmed && t2.norm == 60 && t2.counter == 1;
    assert AutoReset(t2, ONE_MINUTE, 0, false) == t2;
    assert Events(RETRIGGER) == [Trigger(ONE_MINUTE, 0), check];
    assert Events(RETRIGGER)[1..] == [check] && [check][1..] == [];
    assert Episode(t2, Steady(t.nmax), []) && Episode(t2, Steady(t.nmax), [check]);
    assert After(t2, [check]) == After(t2, []);
  }

  /** If it cannot, which the console allows with a maximum of 200, some episodes last as long as one likes. */
  lemma {:induction false} EpisodeWithoutBound(t: Teso, k: nat) returns (blocks: seq<Block>)
    requires !CanPass(t) && t.phase == Alarmed
    ensures |blocks| == k && EpisodeSeconds(t, Steady(t.nmax), blocks)
    decreases k
  {
    hide AutoReset, Recharge, Episode, After, CanPass;
    if k == 0 {
      blocks := [];
    } else {
      RetriggeredSecond(t);
      var rest := EpisodeWithoutBound(After(Second(t), Events(RETRIGGER)), k - 1);
      blocks := [RETRIGGER] + rest;
      assert blocks[1..] == rest;
    }
  }

  /** No episode from `t` under its maximum is longer. */
  ghost predicate Bounds(t: Teso, seconds: nat) {
    forall blocks: seq<Block> | EpisodeSeconds(t, Steady(t.nmax), blocks) :: |blocks| <= seconds
  }

  /** The episodes under one maximum are bounded if and only if the count can pass it. */
  lemma EpisodesBoundedIff(t: Teso)
    requires t.phase == Alarmed
    ensures (exists seconds: nat :: Bounds(t, seconds)) <==> CanPass(t)
  {
    hide EpisodeSeconds, Measure, CanPass;
    if CanPass(t) {
      forall blocks: seq<Block> | EpisodeSeconds(t, Steady(t.nmax), blocks)
        ensures |blocks| <= Measure(t, t.nmax)
      {
        EpisodeBound(t, Steady(t.nmax), blocks);
      }
      assert Bounds(t, Measure(t, t.nmax));
    } else {
      forall seconds: nat
        ensures !Bounds(t, seconds)
      {
        var blocks := EpisodeWithoutBound(t, seconds + 1);
      }
    }
  }

  // ----- A changing maximum together with fixed-time recharges -----

  /** In one second: the maximum down to its least, a fixed time that sets the count just above it, the maximum up
      again, and a trigger. */
  const SET_BACK: Block := Block([SetMax(3), Fixed5(0), SetMax(199), Trigger(ONE_MINUTE, 0)], ONE_MINUTE, 0, false, [])

  /** The events of one block, each programmed, keep the alarm armed. */
  predicate StaysArmed(t: Teso, events: seq<Event>)
    decreases |events|
  {
    && t.phase == Alarmed && t.alarm
    && (events != [] ==> ProgrammedEvent(events[0]) && StaysArmed(Happen(t, events[0]), events[1..]))
  }

  predicate ArmedSeconds(t: Teso, blocks: seq<Block>)
    decreases |blocks|
  {
    && t.phase == Alarmed
    && (blocks != [] ==>
          && StaysArmed(Second(t), Events(blocks[0]))
          && ArmedSeconds(After(Second(t), Events(blocks[0])), blocks[1..]))
  }

  lemma SetBackSecond(t: Teso)
    requires t.phase == Alarmed && t.alarm
    ensures StaysArmed(Second(t), Events(SET_BACK))
    ensures After(Second(t), Events(SET_BACK)).phase == Alarmed && After(Second(t), Events(SET_BACK)).alarm
  {
    var t1 := Happen(Second(t), SetMax(3));
    var t2 := Happen(t1, Fixed5(0));
    var t3 := Happen(t2, SetMax(199));
    var t4 := Happen(t3, Trigger(ONE_MINUTE, 0));
    var e1, e2, e3, e4 := SetMax(3), Fixed5(0), SetMax(199), Trigger(ONE_MINUTE, 0);
    var check := Check(ONE_MINUTE, 0, false);
    assert t2.n == 4 && t2.alarm && t2.phase == Alarmed;
    assert t4.norm == 60 && t4.counter == 1 && t4.phase == Alarmed && t4.alarm;
    assert Happen(t4, check) == t4;
    assert Events(SET_BACK) == [e1, e2, e3, e4, check];
    assert [e1, e2, e3, e4, check][1..] == [e2, e3, e4, check] && [e2, e3, e4, check][1..] == [e3, e4, check];
    assert [e3, e4, check][1..] == [e4, check] && [e4, check][1..] == [check] && [check][1..] == [];
    assert StaysArmed(t4, []) && StaysArmed(t4, [check]) && StaysArmed(t3, [e4, check]);
    assert StaysArmed(t2, [e3, e4, check]) && StaysArmed(t1, [e2, e3, e4, check]);
    assert After(t4, []) == t4 && After(t4, [check]) == t4 && After(t3, [e4, check]) == t4;
    assert After(t2, [e3, e4, check]) == t4 && After(t1, [e2, e3, e4, check]) == t4;
  }

  /** With both, an alarm can stay armed for as long as one likes, even with every maximum below 200. */
  lemma {:induction false} SetBackWithoutBound(t: Teso, k: nat) returns (blocks: seq<Block>)
    requires t.phase == Alarmed && t.alarm
    ensures |blocks| == k && ArmedSeconds(t, blocks)
    decreases k
  {
    hide Events, StaysArmed, After;
    if k == 0 {
      blocks := [];
    } else {
      SetBackSecond(t);
      var rest := SetBackWithoutBound(After(Second(t), Events(SET_BACK)), k - 1);
      blocks := [SET_BACK] + rest;
      assert blocks[1..] == rest;
    }
  }
}
