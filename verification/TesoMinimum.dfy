/** How long a triggered treasury alarm lasts: the first check at which its time is up resets it, and none before. */
module TesoMinimum {
  import opened TesoAutoReset

  // ----- The programmed times -----

  /** The polls that must come in, and the seconds after which a check resets the alarm: more than `minimum` of
      them once the polls are in, or `norm` of them in any case. */
  datatype Times = Times(polls: nat, minimum: nat, norm: nat)

  /** What a trigger programs, in seconds, with `left` on the timer before. */
  function TriggerTimes(env: Env, left: nat): Times {
    if env.valid && env.pap then Times(0, 60, 60 * env.autorst)
    else if env.valid then Times(0, 120, 60 * env.autorst)
    else if env.pap then Times(0, 60 * env.paparst % 65536, left)
    else if env.byOpening then Times(1, 4500, 4500)
    else if env.byConsole then Times(1, 7200, 7200)
    else Times(1, 60 * env.autorst, 60 * env.autorst)
  }

  /** What a recharge of 25 minutes programs. */
  function LongTimes(env: Env, left: nat): Times {
    if env.valid && env.pap then Times(0, 60, left)
    else if env.valid then Times(0, 120, left)
    else if env.pap then Times(0, 60 * env.paparst % 65536, left)
    else Times(1, 1500, left)
  }

  /** The alarm runs since `now` with the times `m`. */
  predicate Running(t: Teso, now: int, m: Times) {
    t.phase == Alarmed && t.since == now && t.counter == m.polls && t.minimum == m.minimum && t.norm == m.norm
  }

  /** A trigger that may still rearm starts the alarm with these times; every trigger counts, up to 200. */
  lemma TriggerRuns(t: Teso, env: Env, now: int)
    requires env.Programmed()
    ensures var w := Recharge(t, env, now);
            && w.n == (if t.n < 200 then t.n + 1 else t.n) && w.nmax == t.nmax && w.alarm == t.alarm && w.log == t.log
            && if t.n <= t.nmax then Running(w, now, TriggerTimes(env, t.norm)) && !w.quiet
               else w == t.(n := w.n)
  {
    Fits(env.autorst);
  }

  lemma Fits(minutes: nat)
    requires minutes < 256
    ensures 60 * minutes % 65536 == 60 * minutes
  {
  }

  /** A recharge of a fixed time starts a standing or running alarm, and leaves it no rearms. */
  lemma FixedRuns(t: Teso, env: Env, now: int)
    requires t.alarm
    ensures var w := Recharge25(t, env, now);
            Running(w, now, LongTimes(env, t.norm)) && w.n == t.nmax + 1 && !w.quiet && w.alarm && w.log == t.log
    ensures var w := Recharge5(t, now);
            Running(w, now, Times(0, 300, t.norm)) && w.n == t.nmax + 1 && !w.quiet && w.alarm && w.log == t.log
  {
  }

  // ----- Seconds, polls and checks -----

  datatype Beat = Tick | Asked | Checked(env: Env)

  function Seconds(beats: seq<Beat>): nat {
    if beats == [] then 0 else Seconds(beats[..|beats| - 1]) + if beats[|beats| - 1].Tick? then 1 else 0
  }

  function Polls(beats: seq<Beat>): nat {
    if beats == [] then 0 else Polls(beats[..|beats| - 1]) + if beats[|beats| - 1].Asked? then 1 else 0
  }

  /** The alarm after the beats, which begin at time `now`. */
  function Play(t: Teso, now: int, beats: seq<Beat>): Teso {
    if beats == [] then t
    else
      var before, w := beats[..|beats| - 1], Play(t, now, beats[..|beats| - 1]);
      match beats[|beats| - 1]
      case Tick => Second(w)
      case Asked => Poll(w)
      case Checked(env) => AutoReset(w, env, now + Seconds(before), false)
  }

  /** The time is up. */
  predicate Due(m: Times, seconds: nat, polls: nat) {
    m.norm <= seconds || (m.polls <= polls && m.minimum < seconds)
  }

  /** No check among the beats comes when the time is up. */
  predicate NoneDue(m: Times, beats: seq<Beat>) {
    beats == [] ||
    (&& NoneDue(m, beats[..|beats| - 1])
     && (beats[|beats| - 1].Checked? ==> !Due(m, Seconds(beats[..|beats| - 1]), Polls(beats[..|beats| - 1]))))
  }

  function Minus(x: nat, y: nat): nat {
    if x < y then 0 else x - y
  }

  /** What is left of the times. */
  function Elapsed(t: Teso, m: Times, seconds: nat, polls: nat): Teso {
    t.(norm := Minus(m.norm, seconds), counter := Minus(m.polls, polls))
  }

  lemma OneBeat(t: Teso, now: int, m: Times, seconds: nat, polls: nat, b: Beat)
    requires Running(t, now, m) && (b.Checked? ==> !Due(m, seconds, polls))
    ensures var w := Elapsed(t, m, seconds, polls);
            match b
            case Tick => Second(w) == Elapsed(t, m, seconds + 1, polls)
            case Asked => Poll(w) == Elapsed(t, m, seconds, polls + 1)
            case Checked(env) => AutoReset(w, env, now + seconds, false) == w
  {
  }

  lemma {:induction false} LastsWhileNoneDue(t: Teso, now: int, m: Times, beats: seq<Beat>)
    requires Running(t, now, m) && NoneDue(m, beats)
    ensures Play(t, now, beats) == Elapsed(t, m, Seconds(beats), Polls(beats))
  {
    hide Running, Elapsed, AutoReset, Due, Second, Poll;
    if beats == [] {
      NothingElapsed(t, now, m);
    } else {
      var before := beats[..|beats| - 1];
      LastsWhileNoneDue(t, now, m, before);
      OneBeat(t, now, m, Seconds(before), Polls(before), beats[|beats| - 1]);
    }
  }

  lemma NothingElapsed(t: Teso, now: int, m: Times)
    requires Running(t, now, m)
    ensures Elapsed(t, m, 0, 0) == t
  {
  }

  /** A running alarm keeps its bit and its count, and logs nothing, through any seconds, polls and checks until a check
      comes when the time is up.  That check resets it: into memory, the bit off, and the count logged and cleared. */
  lemma ResetExactly(t: Teso, now: int, m: Times, beats: seq<Beat>, env: Env)
    requires Running(t, now, m) && NoneDue(m, beats)
    ensures var w := Play(t, now, beats);
            w.phase == Alarmed && w.alarm == t.alarm && w.n == t.n && w.log == t.log
    ensures var w, v := Play(t, now, beats), Play(t, now, beats + [Checked(env)]);
            if Due(m, Seconds(beats), Polls(beats))
            then v.phase == Memory && !v.alarm && v.n == 0 && v.counter == 0 && v.log == t.log + [t.n]
            else v == w
  {
    hide Play, Seconds, Polls, NoneDue, AutoReset;
    LastsWhileNoneDue(t, now, m, beats);
    LastCheck(t, now, beats, env);
    CheckWhenDue(t, now, m, Seconds(beats), Polls(beats), env);
  }

  lemma LastCheck(t: Teso, now: int, beats: seq<Beat>, env: Env)
    ensures Play(t, now, beats + [Checked(env)]) == AutoReset(Play(t, now, beats), env, now + Seconds(beats), false)
  {
    hide AutoReset;
    assert (beats + [Checked(env)])[..|beats|] == beats;
  }

  lemma CheckWhenDue(t: Teso, now: int, m: Times, seconds: nat, polls: nat, env: Env)
    requires Running(t, now, m)
    ensures var w := Elapsed(t, m, seconds, polls);
            var v := AutoReset(w, env, now + seconds, false);
            if Due(m, seconds, polls)
            then v.phase == Memory && !v.alarm && v.n == 0 && v.counter == 0 && v.log == t.log + [t.n]
            else v == w
  {
  }

  /** So does an alarm from the trigger that starts it. */
  lemma TriggerResetExactly(t: Teso, trigger: Env, now: int, beats: seq<Beat>, env: Env)
    requires t.n <= t.nmax && trigger.Programmed() && NoneDue(TriggerTimes(trigger, t.norm), beats)
    ensures var m, a := TriggerTimes(trigger, t.norm), Recharge(t, trigger, now);
            var w, v := Play(a, now, beats), Play(a, now, beats + [Checked(env)]);
            && w.phase == Alarmed && w.alarm == t.alarm && w.log == t.log
            && if Due(m, Seconds(beats), Polls(beats))
               then && v.phase == Memory && !v.alarm && v.n == 0 && v.counter == 0
                    && v.log == t.log + [if t.n < 200 then t.n + 1 else t.n]
               else v == w
  {
    hide Play, Seconds, Polls, NoneDue, Due, Running, Recharge, TriggerTimes;
    TriggerRuns(t, trigger, now);
    ResetExactly(Recharge(t, trigger, now), now, TriggerTimes(trigger, t.norm), beats, env);
  }

  // ----- Reset on request -----

  /** A request resets the alarm if and only if no poll is outstanding: into normal, the bit off, the count kept and
      nothing logged.  Otherwise the check goes on as if there were none. */
  lemma RequestObeyedIff(t: Teso, env: Env, now: int)
    ensures AutoReset(t, env, now, true)
            == if t.counter == 0 then t.(phase := Normal, alarm := false) else AutoReset(t, env, now, false)
  {
  }

  /** Without a request, a check in normal or in memory triggers an alarm whose bit is set, and does nothing
      else; from an unknown phase it falls into normal. */
  lemma RestingCheck(t: Teso, env: Env, now: int)
    requires t.phase != Alarmed
    ensures AutoReset(t, env, now, false)
            == if t.phase == Unknown then t.(phase := Normal) else if t.alarm then Recharge(t, env, now) else t
  {
  }
}
