/** The watchdog of the transmitter key.

    A 1 ms handler advances four counters and then runs the watchdog; between and inside handlers any task
    may turn the key on or off.  The key pin follows those requests only while it is not inhibited.
 */
module KeyWatchdog {

  type U32 = x: nat | x < 0x1_0000_0000

  /** The states of the watchdog.  `Unknown` is any other code, such as the zero it starts from. */
  datatype Mode = Idle | TxOn | TxOff | CpollOn | CpollOff | TxDisp | Unknown

  /** Everything the watchdog reads or writes.
      `key` is the logical key flag, `pin` the output, `inhibit` the flag that blocks the pin,
      `polled` the flag that remembers an inhibition for continuous polling. */
  datatype Wd = Wd(
    mode: Mode, pin: bool, key: bool, inhibit: bool, polled: bool, power: bool, count: nat,
    tOn: U32, tPoll: U32, tOff: U32, tInh: U32, log: seq<nat>)

  const KEY_LIMIT: nat := 60000
  const POLL_LIMIT_ON: nat := 60000
  const POLL_LIMIT_OFF: nat := 65000
  const OFF_LIMIT: nat := 5000
  const DISP_LIMIT: nat := 60000
  const INH_LIMIT: nat := 300000
  const STUCK_KEY: nat := 816

  // ----- The steps on values -----

  function KeyOn(w: Wd): Wd {
    w.(key := true, pin := w.pin || !w.inhibit)
  }

  function KeyOff(w: Wd): Wd {
    w.(key := false, pin := false)
  }

  function Next(t: U32): U32 {
    (t + 1) % 0x1_0000_0000
  }

  function Count(w: Wd): Wd {
    w.(tOn := Next(w.tOn), tPoll := Next(w.tPoll), tOff := Next(w.tOff), tInh := Next(w.tInh))
  }

  /** The key is blocked and turned off, with the watchdog in `mode`. */
  function Block(w: Wd, mode: Mode): Wd {
    KeyOff(w.(inhibit := true)).(mode := mode)
  }

  /** A key that stayed on too long: blocked, transmitter power off, and logged. */
  function Disable(w: Wd): Wd {
    Block(w, TxDisp).(tOff := 0, power := false, log := w.log + [STUCK_KEY])
  }

  function TxOnLimits(w: Wd): Wd {
    if !w.key then w.(mode := TxOff, count := w.count + 1, tOff := 0)
    else if w.tOn > KEY_LIMIT then Disable(w)
    else if w.tPoll > POLL_LIMIT_ON then Block(w, CpollOn).(tInh := 0)
    else w
  }

  /** What follows from a remembered inhibition.  It comes after the limits and can replace their outcome. */
  function TxOnPolled(w: Wd): Wd {
    if w.polled && w.count >= 10 then Block(w, CpollOn).(tInh := 0)
    else if w.polled && w.tInh > INH_LIMIT then w.(polled := false, mode := Idle)
    else w
  }

  function WatchTxOff(w: Wd): Wd {
    if w.tOff > OFF_LIMIT then w.(mode := Idle, inhibit := false)
    else if w.key then w.(tOn := 0, mode := TxOn)
    else if w.tPoll > POLL_LIMIT_OFF then Block(w, CpollOff).(tInh := 0)
    else if w.polled && w.count >= 10 then Block(w, CpollOff).(tInh := 0)
    else if w.polled && w.tInh > INH_LIMIT then w.(polled := false, mode := Idle)
    else w
  }

  /** One run of the watchdog. */
  function Watch(w: Wd): Wd {
    match w.mode
    case Idle =>
      var w1 := w.(inhibit := false);
      if w.key then w1.(tOn := 0, count := 0, tPoll := 0, mode := TxOn) else w1
    case TxOn => TxOnPolled(TxOnLimits(w))
    case TxOff => WatchTxOff(w)
    case CpollOn =>
      var w1 := w.(inhibit := true);
      if !w.key then w1.(mode := CpollOff, count := w.count + 1, tOff := 0)
      else if w.tOn > KEY_LIMIT then Disable(w1)
      else w1
    case CpollOff =>
      var w1 := w.(inhibit := true);
      if w.key then w1.(tOn := 0, mode := CpollOn)
      else if w.tOff > OFF_LIMIT then w1.(mode := Idle, inhibit := false, polled := true)
      else w1
    case TxDisp =>
      if w.tOff > DISP_LIMIT then w.(power := true, inhibit := false, mode := Idle)
      else w.(inhibit := true)
    case Unknown => w.(mode := Idle)
  }

  /** What another task may ask of the key. */
  datatype Call = On | Off

  function Apply(w: Wd, calls: seq<Call>): Wd
    decreases |calls|
  {
    if calls == [] then w
    else Apply(if calls[0] == On then KeyOn(w) else KeyOff(w), calls[1..])
  }

  // ----- The machine itself -----

  class Watchdog {
    var mode: Mode
    var pin: bool
    var key: bool
    var inhibit: bool
    var polled: bool
    var power: bool
    var count: nat
    var tOn: U32
    var tPoll: U32
    var tOff: U32
    var tInh: U32
    ghost var log: seq<nat>

    ghost function View(): Wd
      reads this
    {
      Wd(mode, pin, key, inhibit, polled, power, count, tOn, tPoll, tOff, tInh, log)
    }

    method LlaveTxOn()
      modifies this
      ensures View() == KeyOn(old(View()))
    {
      if !inhibit {
        pin := true;
      }
      key := true;
    }

    method LlaveTxOff()
      modifies this
      ensures View() == KeyOff(old(View()))
    {
      pin := false;
      key := false;
    }

    /** The counters of the 1 ms handler. */
    method CountMillisecond()
      modifies this
      ensures View() == Count(old(View()))
    {
      tOn := (tOn + 1) % 0x1_0000_0000;
      tPoll := (tPoll + 1) % 0x1_0000_0000;
      tOff := (tOff + 1) % 0x1_0000_0000;
      tInh := (tInh + 1) % 0x1_0000_0000;
    }

    method BlockKey(next: Mode)
      modifies this
      ensures View() == Block(old(View()), next)
    {
      inhibit := true;
      pin := false;
      key := false;
      mode := next;
    }

    method RunTxOnLimits()
      modifies this
      ensures View() == TxOnLimits(old(View()))
    {
      if !key {
        mode := TxOff;
        count := count + 1;
        tOff := 0;
      } else if tOn > KEY_LIMIT {
        BlockKey(TxDisp);
        tOff := 0;
        power := false;
        log := log + [STUCK_KEY];
      } else if tPoll > POLL_LIMIT_ON {
        BlockKey(CpollOn);
        tInh := 0;
      }
    }

    method RunTxOnPolled()
      modifies this
      ensures View() == TxOnPolled(old(View()))
    {
      if polled && count >= 10 {
        BlockKey(CpollOn);
        tInh := 0;
      } else if polled && tInh > INH_LIMIT {
        polled := false;
        mode := Idle;
      }
    }

    method RunTxOff()
      modifies this
      ensures View() == WatchTxOff(old(View()))
    {
      if tOff > OFF_LIMIT {
        mode := Idle;
        inhibit := false;
      } else if key {
        tOn := 0;
        mode := TxOn;
      } else if tPoll > POLL_LIMIT_OFF {
        BlockKey(CpollOff);
        tInh := 0;
      } else if polled && count >= 10 {
        BlockKey(CpollOff);
        tInh := 0;
      } else if polled && tInh > INH_LIMIT {
        polled := false;
        mode := Idle;
      }
    }

    method RunCpollOn()
      requires mode == CpollOn
      modifies this
      ensures View() == Watch(old(View()))
    {
      inhibit := true;
      if !key {
        mode := CpollOff;
        count := count + 1;
        tOff := 0;
      } else if tOn > KEY_LIMIT {
        BlockKey(TxDisp);
        tOff := 0;
        power := false;
        log := log + [STUCK_KEY];
      }
    }

    method RunCpollOff()
      requires mode == CpollOff
      modifies this
      ensures View() == Watch(old(View()))
    {
      inhibit := true;
      if key {
        tOn := 0;
        mode := CpollOn;
      } else if tOff > OFF_LIMIT {
        mode := Idle;
        inhibit := false;
        polled := true;
      }
    }

    method FsmLlaveonWdog()
      modifies this
      ensures View() == Watch(old(View()))
    {
      match mode {
        case Idle =>
          inhibit := false;
          if key {
            tOn := 0;
            count := 0;
            tPoll := 0;
            mode := TxOn;
          }
        case TxOn =>
          RunTxOnLimits();
          RunTxOnPolled();
        case TxOff =>
          RunTxOff();
        case CpollOn =>
          RunCpollOn();
        case CpollOff =>
          RunCpollOff();
        case TxDisp =>
          inhibit := true;
          if tOff > DISP_LIMIT {
            power := true;
            inhibit := false;
            mode := Idle;
          }
        case Unknown =>
          mode := Idle;
      }
    }

    method MakeCalls(calls: seq<Call>)
      modifies this
      ensures View() == Apply(old(View()), calls)
    {
      for i := 0 to |calls|
        invariant Apply(View(), calls[i..]) == Apply(old(View()), calls)
      {
        if calls[i] == On {
          LlaveTxOn();
        } else {
          LlaveTxOff();
        }
        assert calls[i..][1..] == calls[i + 1..];
      }
    }

    /** The 1 ms handler: the counters, then whatever the other machines in it ask of the key, then the watchdog. */
    method SoftwareTimersHandler(calls: seq<Call>)
      modifies this
      ensures View() == Watch(Apply(Count(old(View())), calls))
    {
      hide Watch, Count, Apply;
      CountMillisecond();
      MakeCalls(calls);
      FsmLlaveonWdog();
    }
  }
}
