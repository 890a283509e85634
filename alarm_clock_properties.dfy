/**
  What one call of the alarm-clock loop guarantees about press
  classification, alarm editing and its timeout, and the alarm's rising-edge
  trigger and acknowledgement, stated over the pure model in AlarmClock.
 */
module AlarmClockProperties {
  import opened TimeOfDay
  import opened AlarmClock

  // ---------------------------------------------------------------------
  // Press and release of the Mode button

  /** A LOW reading records the start of a press only when no press is
      pending; while the button stays held the recorded start does not move. */
  lemma PressStartRecordedOnce(g: Globals, t: nat, t': nat)
    requires g.buttonPressStart <= t <= t'
    ensures !g.buttonPressed ==> ModeButton(g, true, t) == g.(buttonPressed := true, buttonPressStart := t)
    ensures g.buttonPressed ==> ModeButton(g, true, t) == g
    ensures ModeButtonCommands(g, true, t) == []
    ensures ModeButton(g, true, t).buttonPressStart <= t'
    ensures ModeButton(ModeButton(g, true, t), true, t') == ModeButton(g, true, t)
  {
  }

  /** The first HIGH reading after a press clears the pending flag and is
      classified; a HIGH reading with no press pending changes nothing, so a
      release is handled exactly once. */
  lemma ReleaseHandledOnce(g: Globals, t: nat, t': nat)
    requires g.buttonPressStart <= t <= t'
    ensures !g.buttonPressed ==>
      ReleaseOf(g, false, t) == NoRelease && ModeButton(g, false, t) == g && ModeButtonCommands(g, false, t) == []
    ensures g.buttonPressed ==> ReleaseOf(g, false, t) != NoRelease && !ModeButton(g, false, t).buttonPressed
    ensures ModeButton(g, false, t).buttonPressStart <= t'
    ensures ReleaseOf(ModeButton(g, false, t), false, t') == NoRelease
    ensures ModeButton(ModeButton(g, false, t), false, t') == ModeButton(g, false, t)
  {
  }

  /** A release less than 1000 ms after the press leaves alarm-edit mode, or,
      outside it, asks for the RTC reset; nothing but the pending flag and
      the mode changes. */
  lemma ShortPressRule(g: Globals, t: nat)
    requires g.buttonPressed && g.buttonPressStart <= t < g.buttonPressStart + LongPressMs
    ensures ReleaseOf(g, false, t) == ShortPress
    ensures !ModeButton(g, false, t).alarmMode
    ensures ModeButton(g, false, t).inactivityTimeout == g.inactivityTimeout
    ensures ModeButtonCommands(g, false, t) == if g.alarmMode then [] else [ResetToBuildTime]
    ensures ModeButton(g, false, t) == g.(buttonPressed := false, alarmMode := false)
  {
  }

  /** A release 1000 ms or more after the press toggles alarm-edit mode and
      restarts the edit timeout at five seconds from now; nothing else but
      the pending flag changes. */
  lemma LongPressRule(g: Globals, t: nat)
    requires g.buttonPressed && g.buttonPressStart + LongPressMs <= t
    ensures ReleaseOf(g, false, t) == LongPress
    ensures ModeButton(g, false, t).alarmMode == !g.alarmMode
    ensures ModeButton(g, false, t).inactivityTimeout == t + EditTimeoutMs
    ensures ModeButtonCommands(g, false, t) == []
    ensures ModeButton(g, false, t) ==
            g.(buttonPressed := false, alarmMode := !g.alarmMode, inactivityTimeout := t + EditTimeoutMs)
  {
  }

  // ---------------------------------------------------------------------
  // Alarm editing

  /** The alarm's hour and minute wrap around their dials, and each edit
      undoes the opposite one. */
  lemma AlarmFieldsWrap(h: int, m: int)
    requires 0 <= h < 24 && 0 <= m < 60
    ensures NextHour(23) == 0 && PrevHour(0) == 23
    ensures NextMinute(59) == 0 && PrevMinute(0) == 59
    ensures PrevHour(NextHour(h)) == h && NextHour(PrevHour(h)) == h
    ensures PrevMinute(NextMinute(m)) == m && NextMinute(PrevMinute(m)) == m
  {
    ShiftUpDown(h, 24);
    ShiftUpDown(m, 60);
  }

  /** The edit timeout after the edit buttons: five seconds after the last
      held button's reading, or unchanged when none was held. */
  function LastEditTimeout(g: Globals, p: Pins, ms: Millis): nat {
    if p.minDown then ms.minDown + EditTimeoutMs
    else if p.minUp then ms.minUp + EditTimeoutMs
    else if p.hourDown then ms.hourDown + EditTimeoutMs
    else if p.hourUp then ms.hourUp + EditTimeoutMs
    else g.inactivityTimeout
  }

  /** In alarm-edit mode, every held edit button restarts the timeout, the
      alarm stays a valid time, and the mode closes exactly when the
      timeout check's reading lies past the timeout. */
  lemma EditAlarmRule(g: Globals, p: Pins, ms: Millis)
    requires AlarmInRange(g) && g.alarmMode
    ensures AlarmInRange(EditAlarm(g, p, ms))
    ensures EditAlarm(g, p, ms).inactivityTimeout == LastEditTimeout(g, p, ms)
    ensures EditAlarm(g, p, ms).alarmMode <==> ms.timeoutCheck <= LastEditTimeout(g, p, ms)
    ensures !p.hourUp && !p.hourDown ==> EditAlarm(g, p, ms).alarmHour == g.alarmHour
    ensures !p.minUp && !p.minDown ==> EditAlarm(g, p, ms).alarmMin == g.alarmMin
    ensures p.hourUp && !p.hourDown ==> EditAlarm(g, p, ms).alarmHour == NextHour(g.alarmHour)
    ensures p.hourDown && !p.hourUp ==> EditAlarm(g, p, ms).alarmHour == PrevHour(g.alarmHour)
    ensures p.minUp && !p.minDown ==> EditAlarm(g, p, ms).alarmMin == NextMinute(g.alarmMin)
    ensures p.minDown && !p.minUp ==> EditAlarm(g, p, ms).alarmMin == PrevMinute(g.alarmMin)
    ensures EditAlarm(g, p, ms).(alarmHour := g.alarmHour, alarmMin := g.alarmMin,
                                inactivityTimeout := g.inactivityTimeout, alarmMode := g.alarmMode) == g
  {
    AlarmFieldsWrap(g.alarmHour, g.alarmMin);
  }

  /** A call in alarm-edit mode whose edits and timeout check come within
      five seconds of an edit keeps the mode open; one whose timeout check
      passes the timeout with no edit held leaves it. */
  lemma TimeoutExitRule(g: Globals, p: Pins, ms: Millis)
    requires AlarmInRange(g) && g.alarmMode
    ensures InOrder(0, ms) && (p.hourUp || p.hourDown || p.minUp || p.minDown) &&
            ms.timeoutCheck <= ms.hourUp + EditTimeoutMs
            ==> EditAlarm(g, p, ms).alarmMode
    ensures !(p.hourUp || p.hourDown || p.minUp || p.minDown) && ms.timeoutCheck > g.inactivityTimeout
            ==> !EditAlarm(g, p, ms).alarmMode
  {
    EditAlarmRule(g, p, ms);
  }

  // ---------------------------------------------------------------------
  // Acknowledgement and trigger

  /** Any button read LOW silences the alarm; with none held nothing changes. */
  lemma AcknowledgeRule(g: Globals, p: Pins)
    ensures AnyLow(p) ==> !Acknowledge(g, p).alarmActive
    ensures !AnyLow(p) ==> Acknowledge(g, p) == g
    ensures Acknowledge(g, p).(alarmActive := g.alarmActive) == g
  {
  }

  /** The alarm check raises the alarm only when it is due, and always
      remembers the current second. */
  lemma TriggerRule(g: Globals, now: Time)
    ensures Trigger(g, now).alarmActive == (g.alarmActive || AlarmDue(g, now))
    ensures Trigger(g, now).prevSecond == now.seconds
    ensures Trigger(g, now).(alarmActive := g.alarmActive, prevSecond := g.prevSecond) == g
  {
  }

  /** After a whole call the alarm sounds exactly when it was sounding and no
      button was held, or when it fell due in this call. */
  lemma LoopAlarmActive(g: Globals, p: Pins, ms: Millis, now: Time)
    requires Inv(g, ms.press)
    ensures LoopSpec(g, p, ms, now).alarmActive <==>
            (g.alarmActive && !AnyLow(p)) || AlarmDue(BeforeTrigger(g, p, ms), now)
    ensures LoopSpec(g, p, ms, now).prevSecond == now.seconds
  {
    var g1 := ModeButton(g, p.mode, ms.press);
    assert g1.alarmActive == g.alarmActive;
    var g2 := Acknowledge(g1, p);
    assert g2.alarmActive == (g.alarmActive && !AnyLow(p));
    assert BeforeTrigger(g, p, ms).alarmActive == g2.alarmActive;
  }

  /** The trigger is a rising edge: two calls in a row that both see second
      0 raise the alarm at most in the first; the second call can only
      silence it. */
  lemma FiresOncePerMinute(g: Globals, p1: Pins, ms1: Millis, now1: Time, p2: Pins, ms2: Millis, now2: Time, from: nat)
    requires Inv(g, from) && InOrder(from, ms1) && ValidTime(now1)
    requires InOrder(ms1.timeoutCheck, ms2)
    requires now1.seconds == 0 && now2.seconds == 0
    ensures Inv(g, ms1.press)
    ensures Inv(LoopSpec(g, p1, ms1, now1), ms2.press)
    ensures LoopSpec(LoopSpec(g, p1, ms1, now1), p2, ms2, now2).alarmActive ==
            (LoopSpec(g, p1, ms1, now1).alarmActive && !AnyLow(p2))
  {
    LoopKeepsInv(g, p1, ms1, now1, from);
    LoopAlarmActive(g, p1, ms1, now1);
    var g1 := LoopSpec(g, p1, ms1, now1);
    assert g1.prevSecond == 0;
    assert Inv(g1, ms2.press);
    LoopAlarmActive(g1, p2, ms2, now2);
    ButtonsKeepSecond(g1, p2, ms2);
    assert !AlarmDue(BeforeTrigger(g1, p2, ms2), now2);
  }

  /** Handling the buttons does not touch the remembered second. */
  lemma ButtonsKeepSecond(g: Globals, p: Pins, ms: Millis)
    requires Inv(g, ms.press)
    ensures BeforeTrigger(g, p, ms).prevSecond == g.prevSecond
  {
    var g2 := Acknowledge(ModeButton(g, p.mode, ms.press), p);
    assert g2.prevSecond == g.prevSecond;
    if g2.alarmMode {
      EditAlarmRule(g2, p, ms);
    }
  }

  /** The alarm cannot go off while the alarm is being edited. */
  lemma NoTriggerWhileEditing(g: Globals, p: Pins, ms: Millis, now: Time)
    requires Inv(g, ms.press) && !g.alarmActive
    requires BeforeTrigger(g, p, ms).alarmMode
    ensures !LoopSpec(g, p, ms, now).alarmActive
  {
    LoopAlarmActive(g, p, ms, now);
  }

  // ---------------------------------------------------------------------
  // RTC commands

  /** Edit buttons set the RTC only outside alarm-edit mode, and the reset
      is requested only on a short release outside it; in alarm-edit mode
      the call asks the RTC for nothing. */
  lemma CommandsOnlyOutsideEdit(g: Globals, p: Pins, ms: Millis)
    requires Inv(g, ms.press)
    ensures ModeButton(g, p.mode, ms.press).alarmMode ==> LoopCommands(g, p, ms) == []
    ensures !ModeButton(g, p.mode, ms.press).alarmMode ==>
            LoopCommands(g, p, ms) == ModeButtonCommands(g, p.mode, ms.press) + TimeSetCommands(p)
    ensures ResetToBuildTime in LoopCommands(g, p, ms) <==>
            ReleaseOf(g, p.mode, ms.press) == ShortPress && !g.alarmMode
  {
    var cmds := ModeButtonCommands(g, p.mode, ms.press);
    if ModeButton(g, p.mode, ms.press).alarmMode {
      assert cmds == [];
    } else {
      var ts := TimeSetCommands(p);
      assert ResetToBuildTime !in ts;
      assert ResetToBuildTime in cmds + ts <==> ResetToBuildTime in cmds;
    }
  }
}
