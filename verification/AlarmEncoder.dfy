/** The encoder itself, working on its own fields one event at a time. */
module AlarmEncoder {
  import opened AlarmEvents

  lemma FirstZoneIs(memory: bv8, k: nat)
    requires k < 8 && Has(memory, ZoneMask(k)) && forall j | 0 <= j < k :: !Has(memory, ZoneMask(j))
    ensures FirstZone(memory, 0) == k
  {
    hide Has, ZoneMask, FirstZone;
  }

  lemma NoZoneIs(memory: bv8)
    requires forall j | 0 <= j < 8 :: !Has(memory, ZoneMask(j))
    ensures FirstZone(memory, 0) == 8
  {
    hide Has, ZoneMask, FirstZone;
  }

  class Encoder {
    var last: bv8
    var alarm: bv8
    var open: bv8
    var saved: Saved
    ghost var log: seq<Cid>

    ghost function View(): Panel
      reads this
    {
      Panel(last, open, log)
    }

    method LogCidEvent(qualifier: nat, code: nat, part: nat, zone: nat)
      modifies this`log
      ensures View() == Log(old(View()), qualifier, code, part, zone)
    {
      log := log + [Cid(qualifier, code, part, zone)];
    }

    method LogSummary(qualifier: nat, code: nat, macro: bool)
      modifies this`log
      ensures View() == Summary(old(View()), qualifier, code, macro)
    {
      if macro {
        LogCidEvent(qualifier, code, 1, 0);
      } else {
        LogCidEvent(qualifier, code, 0, 0);
      }
    }

    method LogIf(changed: bv8, m: bv8, qualifier: nat, code: nat, macro: bool)
      modifies this`log
      ensures View() == Single(old(View()), changed, m, qualifier, code, macro)
    {
      if Has(changed, m) {
        LogSummary(qualifier, code, macro);
      }
    }

    method LogRestorePair(fallen: bv8, m: bv8, code: nat, part: nat, macro: bool)
      modifies this`log
      ensures View() == RestorePair(old(View()), fallen, m, code, part, macro)
    {
      if Has(fallen, m) {
        LogSummary(RESTORE, code, macro);
        LogCidEvent(RESTORE, code, part, 0);
      }
    }

    method LogZoneRestore(k: nat)
      requires k < 8
      modifies this`log, this`open
      ensures View() == CloseZone(old(View()), k)
    {
      hide Has, ZoneMask, ZonePart, ZoneNumber;
      if Has(open, ZoneMask(k)) {
        open := open & !ZoneMask(k);
        LogCidEvent(RESTORE, 130, ZonePart(k), ZoneNumber(k));
      }
    }

    method LogTesoRestore(fallen: bv8, macro: bool)
      modifies this`log, this`open
      ensures View() == RestoreTeso(old(View()), fallen, macro)
    {
      hide CloseZone, RestorePair, Has;
      if Has(fallen, TESO) {
        LogRestorePair(fallen, TESO, 130, 4, macro);
        ghost var p := View();
        for k := 0 to 8
          invariant View() == CloseZones(p, k)
        {
          LogZoneRestore(k);
        }
      }
    }

    method LogRestores(fallen: bv8, macro: bool)
      modifies this`log, this`open
      ensures View() == Restores(old(View()), fallen, macro)
    {
      hide RestorePair, RestoreTeso, Single;
      LogRestorePair(fallen, ASAL, 120, 2, macro);
      LogTesoRestore(fallen, macro);
      LogRestorePair(fallen, INCE, 110, 3, macro);
      LogIf(fallen, ROTU, RESTORE, 380, macro);
      LogIf(fallen, F220, RESTORE, 301, macro);
      LogIf(fallen, LLOP, RESTORE, 393, macro);
    }

    method LogZoneEvent(k: nat)
      requires k < 8
      modifies this`log, this`open
      ensures View() == Log(old(View()), EVENT, 130, ZonePart(k), ZoneNumber(k)).(open := old(open) | ZoneMask(k))
    {
      LogCidEvent(EVENT, 130, ZonePart(k), ZoneNumber(k));
      open := open | ZoneMask(k);
    }

    /** The chain of tests: only the first zone in memory is logged. */
    method LogFirstZone(memory: bv8)
      modifies this`log, this`open
      ensures View() == OpenZone(old(View()), memory)
    {
      hide Has, ZoneMask, FirstZone, Log, ZonePart, ZoneNumber;
      if Has(memory, ZoneMask(0)) {
        FirstZoneIs(memory, 0);
        LogZoneEvent(0);
      } else if Has(memory, ZoneMask(1)) {
        FirstZoneIs(memory, 1);
        LogZoneEvent(1);
      } else if Has(memory, ZoneMask(2)) {
        FirstZoneIs(memory, 2);
        LogZoneEvent(2);
      } else if Has(memory, ZoneMask(3)) {
        FirstZoneIs(memory, 3);
        LogZoneEvent(3);
      } else if Has(memory, ZoneMask(4)) {
        FirstZoneIs(memory, 4);
        LogZoneEvent(4);
      } else if Has(memory, ZoneMask(5)) {
        FirstZoneIs(memory, 5);
        LogZoneEvent(5);
      } else if Has(memory, ZoneMask(6)) {
        FirstZoneIs(memory, 6);
        LogZoneEvent(6);
      } else if Has(memory, ZoneMask(7)) {
        FirstZoneIs(memory, 7);
        LogZoneEvent(7);
      } else {
        NoZoneIs(memory);
      }
    }

    method RechargeAlarm(rearm: bool)
      modifies this`alarm
      ensures alarm == Rearm(old(alarm), rearm)
    {
      if rearm {
        alarm := alarm & !NORMAL;
      }
    }

    method LogEvent(risen: bv8, m: bv8, code: nat, macro: bool, rearm: bool)
      modifies this`log, this`alarm
      ensures View() == Single(old(View()), risen, m, EVENT, code, macro)
      ensures alarm == Rearm(old(alarm), Has(risen, m) && rearm)
    {
      hide Has;
      if Has(risen, m) {
        LogSummary(EVENT, code, macro);
        RechargeAlarm(rearm);
      }
    }

    method LogTesoEvent(risen: bv8, input: Input)
      modifies this`log, this`open, this`alarm
      ensures View() == EventTeso(old(View()), risen, input.memory, input.macro)
      ensures alarm == Rearm(old(alarm), Has(risen, TESO) && input.rearmTeso)
    {
      hide Has, OpenZone;
      if Has(risen, TESO) {
        LogFirstZone(input.memory);
        LogSummary(EVENT, 130, input.macro);
        RechargeAlarm(input.rearmTeso);
      }
    }

    method LogEvents(risen: bv8, input: Input)
      modifies this`log, this`open, this`alarm
      ensures View() == Events(old(View()), risen, input.memory, input.macro)
      ensures alarm == RearmAll(old(alarm), risen, input)
    {
      hide Has, Single, EventTeso, Rearm;
      LogEvent(risen, ASAL, 120, input.macro, input.rearmAsal);
      LogTesoEvent(risen, input);
      LogEvent(risen, INCE, 110, input.macro, input.rearmInce);
      LogIf(risen, ROTU, EVENT, 380, input.macro);
      LogIf(risen, F220, EVENT, 301, input.macro);
      LogIf(risen, LLOP, EVENT, 393, input.macro);
    }

    method DeteccionEventos(input: Input, reset: bool)
      requires alarm == input.alarm
      modifies this
      ensures View() == Detect(old(View()), input, reset) && alarm == last
    {
      hide Restores, Events, Has, Diff, Risen, Fallen, RearmAll;
      if reset {
        last := alarm;
      }
      var risen, fallen := Risen(last, alarm), Fallen(last, alarm);
      LogRestores(fallen, input.macro);
      LogEvents(risen, input);
      last := alarm;
    }

    method AlarmReadHistory()
      modifies this`alarm
      ensures alarm == ReadAlarm(saved).alarm
    {
      if saved.valid {
        alarm := saved.alarm & RECOVERED;
      } else {
        alarm := NORMAL;
      }
    }

    method FsmReadHistory()
      modifies this`alarm, this`last, this`saved
      ensures Starting(alarm, last, saved) == ReadBreak(old(Starting(alarm, last, saved)))
    {
      hide Has, WithBreak, Implausible;
      if saved.valid2 {
        if saved.evo {
          alarm := WithBreak(alarm);
        }
        if Implausible(saved.alarm2) {
          saved := saved.(alarm2 := alarm);
        } else if Has(saved.alarm2, ROTU) {
          alarm := WithBreak(alarm);
          last := WithBreak(last);
        }
      }
    }

    /** The detection task starts after a processor reset. */
    method StartTask()
      modifies this
      ensures View() == Boot(old(View()), old(saved)) && Starting(alarm, last, saved) == StartUp(old(saved))
    {
      hide ReadBreak;
      AlarmReadHistory();
      last := alarm;
      open := 0;
      FsmReadHistory();
      FsmReadHistory();
    }

    /** The door task, starting after a reset by the hardware watchdog, sets the byte to compare with. */
    method AlignLast()
      modifies this`last
      ensures View() == old(View()).(last := alarm)
    {
      last := alarm;
    }
  }
}
