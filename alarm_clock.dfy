/**
  The alarm-clock controller: one call of the sketch's `loop()`, first as a
  pure function on a snapshot of its global flags and counters (LoopSpec
  and the rules it is built from), then as the class AlarmController whose
  fields are those globals and whose Loop method updates them in place,
  proved equal to LoopSpec.

  The RTC, the buzzer and the display are outside the model: the current
  time of day is a parameter, and the RTC adjustments the loop asks for come
  back as a list of commands.
 */
module AlarmClock {
  import opened TimeOfDay

  /** A Mode press held this long or longer is a long press. */
  const LongPressMs: int := 1000
  /** Alarm-edit mode ends this long after the last edit or long press. */
  const EditTimeoutMs: int := 5000

  /** Which button pins read LOW in this call (the buttons are active low). */
  datatype Pins = Pins(hourUp: bool, hourDown: bool, minUp: bool, minDown: bool, mode: bool)

  /** The readings of `millis()` one call makes: when the Mode button is
      handled, after each edit button's 200 ms delay, and at the timeout check. */
  datatype Millis = Millis(press: nat, hourUp: nat, hourDown: nat, minUp: nat, minDown: nat, timeoutCheck: nat)

  /** The readings do not go back, and none lies before `from`. */
  predicate InOrder(from: nat, ms: Millis) {
    from <= ms.press <= ms.hourUp <= ms.hourDown <= ms.minUp <= ms.minDown <= ms.timeoutCheck
  }

  /** The RTC adjustments the loop requests: back to the build time, or one
      hour or one minute forward or back. */
  datatype RtcCommand = ResetToBuildTime | HourForward | HourBack | MinuteForward | MinuteBack

  /** The sketch's global flags and counters. */
  datatype Globals = Globals(
    alarmHour: int,
    alarmMin: int,
    alarmMode: bool,
    buttonPressStart: nat,
    buttonPressed: bool,
    inactivityTimeout: nat,
    prevSecond: int,
    alarmActive: bool)

  /** The globals' initial values. */
  const Initial: Globals := Globals(12, 0, false, 0, false, 0, -1, false)

  /** What every call keeps: the alarm is a valid hour and minute, a press
      did not start after the latest `millis()` reading `now`, and the
      remembered second is -1 (none yet) or a second of the minute. */
  predicate Inv(g: Globals, now: nat) {
    0 <= g.alarmHour < 24 && 0 <= g.alarmMin < 60 && g.buttonPressStart <= now &&
    -1 <= g.prevSecond < 60
  }

  // ---------------------------------------------------------------------
  // Mode button: press and release

  datatype Release = NoRelease | ShortPress | LongPress

  /** The release this call sees: only a HIGH reading after a recorded press
      is one, and its duration decides short or long. */
  function ReleaseOf(g: Globals, low: bool, t: nat): Release
    requires g.buttonPressStart <= t
  {
    if low || !g.buttonPressed then NoRelease
    else if t - g.buttonPressStart < LongPressMs then ShortPress
    else LongPress
  }

  /** LOW: record the start of a new press. HIGH after a press: clear the
      flag, then a short press leaves alarm-edit mode and a long press
      toggles it and restarts the edit timeout. */
  function ModeButton(g: Globals, low: bool, t: nat): Globals
    requires g.buttonPressStart <= t
  {
    if low then
      if !g.buttonPressed then g.(buttonPressed := true, buttonPressStart := t) else g
    else if g.buttonPressed then
      var g1 := g.(buttonPressed := false);
      if t - g.buttonPressStart < LongPressMs then
        if g.alarmMode then g1.(alarmMode := false) else g1
      else
        g1.(alarmMode := !g.alarmMode, inactivityTimeout := t + EditTimeoutMs)
    else
      g
  }

  /** A short press outside alarm-edit mode asks for the RTC to be reset. */
  function ModeButtonCommands(g: Globals, low: bool, t: nat): seq<RtcCommand>
    requires g.buttonPressStart <= t
  {
    if ReleaseOf(g, low, t) == ShortPress && !g.alarmMode then [ResetToBuildTime] else []
  }

  // ---------------------------------------------------------------------
  // Acknowledging the alarm

  predicate AnyLow(p: Pins) {
    p.hourUp || p.hourDown || p.minUp || p.minDown || p.mode
  }

  /** Any button held silences a sounding alarm. */
  function Acknowledge(g: Globals, p: Pins): Globals {
    if AnyLow(p) && g.alarmActive then g.(alarmActive := false) else g
  }

  // ---------------------------------------------------------------------
  // Alarm-edit mode

  /** `(alarmHour + 1) % 24`, and `(alarmMin + 1) % 60` below. C's `%`
      truncates toward zero and Dafny's is Euclidean; the two agree because
      the operand is never negative, which is why the body may use Dafny's
      `%`. The ensures ties the step to the modular step shared with the
      Python program, whose wrap values `Shift` states. */
  function NextHour(h: int): (r: int)
    requires 0 <= h < 24
    ensures 0 <= r < 24
    ensures r == Shift(h, 1, 24)
  {
    (h + 1) % 24
  }

  /** `alarmHour == 0 ? 23 : alarmHour - 1`. */
  function PrevHour(h: int): (r: int)
    requires 0 <= h < 24
    ensures 0 <= r < 24
    ensures r == Shift(h, -1, 24)
  {
    if h == 0 then 23 else h - 1
  }

  function NextMinute(m: int): (r: int)
    requires 0 <= m < 60
    ensures 0 <= r < 60
    ensures r == Shift(m, 1, 60)
  {
    (m + 1) % 60
  }

  /** `alarmMin == 0 ? 59 : alarmMin - 1`. */
  function PrevMinute(m: int): (r: int)
    requires 0 <= m < 60
    ensures 0 <= r < 60
    ensures r == Shift(m, -1, 60)
  {
    if m == 0 then 59 else m - 1
  }

  predicate AlarmInRange(g: Globals) {
    0 <= g.alarmHour < 24 && 0 <= g.alarmMin < 60
  }

  /** An edit button held in alarm-edit mode: the new alarm, and the edit
      timeout restarted from the `millis()` reading `t` taken after the
      button's delay. */
  function Edited(g: Globals, hour: int, minute: int, t: nat): Globals {
    g.(alarmHour := hour, alarmMin := minute, inactivityTimeout := t + EditTimeoutMs)
  }

  function OnHourUp(g: Globals, pressed: bool, t: nat): (r: Globals)
    requires AlarmInRange(g)
    ensures AlarmInRange(r)
  {
    if pressed then Edited(g, NextHour(g.alarmHour), g.alarmMin, t) else g
  }

  function OnHourDown(g: Globals, pressed: bool, t: nat): (r: Globals)
    requires AlarmInRange(g)
    ensures AlarmInRange(r)
  {
    if pressed then Edited(g, PrevHour(g.alarmHour), g.alarmMin, t) else g
  }

  function OnMinUp(g: Globals, pressed: bool, t: nat): (r: Globals)
    requires AlarmInRange(g)
    ensures AlarmInRange(r)
  {
    if pressed then Edited(g, g.alarmHour, NextMinute(g.alarmMin), t) else g
  }

  function OnMinDown(g: Globals, pressed: bool, t: nat): (r: Globals)
    requires AlarmInRange(g)
    ensures AlarmInRange(r)
  {
    if pressed then Edited(g, g.alarmHour, PrevMinute(g.alarmMin), t) else g
  }

  /** Leave alarm-edit mode once the reading passes the timeout. */
  function TimeoutExit(g: Globals, t: nat): Globals {
    if t > g.inactivityTimeout then g.(alarmMode := false) else g
  }

  /** The four edit buttons in the order the loop reads them, then the
      timeout check. */
  function EditAlarm(g: Globals, p: Pins, ms: Millis): (r: Globals)
    requires AlarmInRange(g)
    ensures AlarmInRange(r)
  {
    var g1 := OnHourUp(g, p.hourUp, ms.hourUp);
    var g2 := OnHourDown(g1, p.hourDown, ms.hourDown);
    var g3 := OnMinUp(g2, p.minUp, ms.minUp);
    var g4 := OnMinDown(g3, p.minDown, ms.minDown);
    TimeoutExit(g4, ms.timeoutCheck)
  }

  /** Outside alarm-edit mode the same buttons set the RTC's time instead. */
  function TimeSetCommands(p: Pins): seq<RtcCommand> {
    (if p.hourUp then [HourForward] else []) +
    (if p.hourDown then [HourBack] else []) +
    (if p.minUp then [MinuteForward] else []) +
    (if p.minDown then [MinuteBack] else [])
  }

  /** How many of the four edit buttons are held. */
  function HeldEditButtons(p: Pins): nat {
    (if p.hourUp then 1 else 0) + (if p.hourDown then 1 else 0) +
    (if p.minUp then 1 else 0) + (if p.minDown then 1 else 0)
  }

  // ---------------------------------------------------------------------
  // Alarm trigger

  /** The alarm goes off on the first call that sees second 0 of the alarm
      minute, outside alarm-edit mode. */
  predicate AlarmDue(g: Globals, now: Time) {
    !g.alarmMode && now.hours == g.alarmHour && now.minutes == g.alarmMin &&
    now.seconds == 0 && g.prevSecond != 0
  }

  function Trigger(g: Globals, now: Time): Globals {
    var g1 := if AlarmDue(g, now) then g.(alarmActive := true) else g;
    g1.(prevSecond := now.seconds)
  }

  // ---------------------------------------------------------------------
  // One call of loop()

  /** The globals once the buttons have been handled, as the alarm check sees them. */
  function BeforeTrigger(g: Globals, p: Pins, ms: Millis): Globals
    requires Inv(g, ms.press)
  {
    var g1 := ModeButton(g, p.mode, ms.press);
    var g2 := Acknowledge(g1, p);
    if g2.alarmMode then EditAlarm(g2, p, ms) else g2
  }

  function LoopSpec(g: Globals, p: Pins, ms: Millis, now: Time): Globals
    requires Inv(g, ms.press)
  {
    Trigger(BeforeTrigger(g, p, ms), now)
  }

  function LoopCommands(g: Globals, p: Pins, ms: Millis): seq<RtcCommand>
    requires Inv(g, ms.press)
  {
    var g2 := Acknowledge(ModeButton(g, p.mode, ms.press), p);
    ModeButtonCommands(g, p.mode, ms.press) + (if g2.alarmMode then [] else TimeSetCommands(p))
  }

  /** Every call keeps the invariant, with the latest reading moved on to
      the timeout check's. */
  lemma LoopKeepsInv(g: Globals, p: Pins, ms: Millis, now: Time, from: nat)
    requires Inv(g, from) && InOrder(from, ms) && ValidTime(now)
    ensures Inv(g, ms.press)
    ensures Inv(LoopSpec(g, p, ms, now), ms.timeoutCheck)
  {
    var g1 := ModeButton(g, p.mode, ms.press);
    assert Inv(g1, ms.timeoutCheck);
    assert Inv(BeforeTrigger(g, p, ms), ms.timeoutCheck);
  }

  // ---------------------------------------------------------------------
  // The sketch's globals, updated in place

  class AlarmController {
    var alarmHour: int
    var alarmMin: int
    var alarmMode: bool
    var buttonPressStart: nat
    var buttonPressed: bool
    var inactivityTimeout: nat
    var prevSecond: int
    var alarmActive: bool
    /** The latest `millis()` reading this controller has seen. */
    ghost var lastNow: nat

    function Snapshot(): Globals
      reads this
    {
      Globals(alarmHour, alarmMin, alarmMode, buttonPressStart, buttonPressed,
              inactivityTimeout, prevSecond, alarmActive)
    }

    ghost predicate Valid()
      reads this
    {
      Inv(Snapshot(), lastNow)
    }

    constructor ()
      ensures Valid() && Snapshot() == Initial && lastNow == 0
    {
      alarmHour, alarmMin := 12, 0;
      alarmMode := false;
      buttonPressStart := 0;
      buttonPressed := false;
      inactivityTimeout := 0;
      prevSecond := -1;
      alarmActive := false;
      lastNow := 0;
    }

    /** Press detection on the Mode button. */
    method DetectModePress(low: bool, t: nat) returns (commands: seq<RtcCommand>)
      requires buttonPressStart <= t
      modifies this
      ensures Snapshot() == ModeButton(old(Snapshot()), low, t) && lastNow == old(lastNow)
      ensures commands == ModeButtonCommands(old(Snapshot()), low, t)
    {
      commands := [];
      if low {
        if !buttonPressed {
          buttonPressed := true;
          buttonPressStart := t;
        }
      } else {
        if buttonPressed {
          var pressDuration := t - buttonPressStart;
          buttonPressed := false;
          if pressDuration < LongPressMs {
            if alarmMode {
              alarmMode := false;
            } else {
              commands := [ResetToBuildTime];
            }
          } else {
            alarmMode := !alarmMode;
            inactivityTimeout := t + EditTimeoutMs;
          }
        }
      }
    }

    /** Any button held silences a sounding alarm. */
    method AcknowledgeAlarm(p: Pins)
      modifies this
      ensures Snapshot() == Acknowledge(old(Snapshot()), p) && lastNow == old(lastNow)
    {
      var anyButtonPressed := p.hourUp || p.hourDown || p.minUp || p.minDown || p.mode;
      if anyButtonPressed && alarmActive {
        alarmActive := false;
      }
    }

    /** The edit buttons: alarm editing and its timeout in alarm-edit mode,
        RTC time setting otherwise. */
    method HandleEditButtons(p: Pins, ms: Millis) returns (commands: seq<RtcCommand>)
      requires AlarmInRange(Snapshot())
      modifies this
      ensures Snapshot() == (if old(alarmMode) then EditAlarm(old(Snapshot()), p, ms) else old(Snapshot()))
      ensures commands == (if old(alarmMode) then [] else TimeSetCommands(p))
      ensures lastNow == old(lastNow)
    {
      if alarmMode {
        EditAlarmTime(p, ms);
        commands := [];
      } else {
        commands := TimeSetting(p);
      }
    }

    /** Alarm-edit mode: each held button moves the alarm and restarts the
        timeout; then the timeout is checked. */
    method EditAlarmTime(p: Pins, ms: Millis)
      requires AlarmInRange(Snapshot())
      modifies this
      ensures Snapshot() == EditAlarm(old(Snapshot()), p, ms) && lastNow == old(lastNow)
    {
      HourUpEdit(p.hourUp, ms.hourUp);
      HourDownEdit(p.hourDown, ms.hourDown);
      MinUpEdit(p.minUp, ms.minUp);
      MinDownEdit(p.minDown, ms.minDown);
      if ms.timeoutCheck > inactivityTimeout {
        alarmMode := false;
      }
    }

    method HourUpEdit(pressed: bool, t: nat)
      requires AlarmInRange(Snapshot())
      modifies this
      ensures Snapshot() == OnHourUp(old(Snapshot()), pressed, t) && lastNow == old(lastNow)
    {
      if pressed {
        alarmHour := (alarmHour + 1) % 24;
        inactivityTimeout := t + EditTimeoutMs;
      }
    }

    method HourDownEdit(pressed: bool, t: nat)
      requires AlarmInRange(Snapshot())
      modifies this
      ensures Snapshot() == OnHourDown(old(Snapshot()), pressed, t) && lastNow == old(lastNow)
    {
      if pressed {
        alarmHour := if alarmHour == 0 then 23 else alarmHour - 1;
        inactivityTimeout := t + EditTimeoutMs;
      }
    }

    method MinUpEdit(pressed: bool, t: nat)
      requires AlarmInRange(Snapshot())
      modifies this
      ensures Snapshot() == OnMinUp(old(Snapshot()), pressed, t) && lastNow == old(lastNow)
    {
      if pressed {
        alarmMin := (alarmMin + 1) % 60;
        inactivityTimeout := t + EditTimeoutMs;
      }
    }

    method MinDownEdit(pressed: bool, t: nat)
      requires AlarmInRange(Snapshot())
      modifies this
      ensures Snapshot() == OnMinDown(old(Snapshot()), pressed, t) && lastNow == old(lastNow)
    {
      if pressed {
        alarmMin := if alarmMin == 0 then 59 else alarmMin - 1;
        inactivityTimeout := t + EditTimeoutMs;
      }
    }

    /** Outside alarm-edit mode: one RTC adjustment per held edit button,
        in the order the buttons are polled, and never the reset. */
    method TimeSetting(p: Pins) returns (commands: seq<RtcCommand>)
      ensures commands == TimeSetCommands(p)
      ensures HourForward in commands <==> p.hourUp
      ensures HourBack in commands <==> p.hourDown
      ensures MinuteForward in commands <==> p.minUp
      ensures MinuteBack in commands <==> p.minDown
      ensures ResetToBuildTime !in commands
      ensures |commands| == HeldEditButtons(p)
    {
      commands := [];
      if p.hourUp { commands := commands + [HourForward]; }
      if p.hourDown { commands := commands + [HourBack]; }
      if p.minUp { commands := commands + [MinuteForward]; }
      if p.minDown { commands := commands + [MinuteBack]; }
    }

    /** Raise the alarm on its rising edge, then remember the second. */
    method CheckAlarm(now: Time)
      modifies this
      ensures Snapshot() == Trigger(old(Snapshot()), now) && lastNow == old(lastNow)
    {
      if !alarmMode && now.hours == alarmHour && now.minutes == alarmMin &&
         now.seconds == 0 && prevSecond != 0 {
        alarmActive := true;
      }
      prevSecond := now.seconds;
    }

    /** One call of `loop()`: `p` are the pin levels, `ms` the `millis()`
        readings and `now` the time the RTC reports at the top of the call. */
    method Loop(p: Pins, ms: Millis, now: Time) returns (commands: seq<RtcCommand>)
      requires Valid() && InOrder(lastNow, ms) && ValidTime(now)
      modifies this
      ensures Valid() && lastNow == ms.timeoutCheck
      ensures Snapshot() == LoopSpec(old(Snapshot()), p, ms, now)
      ensures commands == LoopCommands(old(Snapshot()), p, ms)
    {
      LoopKeepsInv(Snapshot(), p, ms, now, lastNow);
      var pressCommands := DetectModePress(p.mode, ms.press);
      AcknowledgeAlarm(p);
      var editCommands := HandleEditButtons(p, ms);
      CheckAlarm(now);
      commands := pressCommands + editCommands;
      lastNow := ms.timeoutCheck;
    }
  }
}
