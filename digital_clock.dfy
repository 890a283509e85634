/**
  The clock and stopwatch controller: one iteration of the firmware's main
  loop, first as a pure function on a snapshot of its global variables
  (StepSpec and the rules it is built from), then as the class Controller
  whose fields are those globals and whose Step method updates them in
  place, proved equal to StepSpec.

  Operating modes are the values of the global `state`: 0 clock, 1 edit
  hour, 2 edit minute, 3 stopwatch. Timestamps are readings of a
  millisecond counter that never decreases.
 */
module DigitalClock {
  import opened TimeOfDay

  const ModeClock: int := 0
  const ModeEditHour: int := 1
  const ModeEditMinute: int := 2
  const ModeStopwatch: int := 3

  /** Milliseconds that must pass since the last tick mark before the clock ticks. */
  const TickIntervalMs: int := 1000

  datatype Option<T> = None | Some(value: T)

  /** The tuple the RTC returns: year, month, day, weekday, hours, minutes,
      seconds, subseconds. */
  datatype RtcDateTime = RtcDateTime(year: int, month: int, day: int, weekday: int,
                                     hours: int, minutes: int, seconds: int, subseconds: int)

  /** The time of day taken from entries 4, 5 and 6 of the RTC tuple. */
  function RtcTime(d: RtcDateTime): Time {
    Time(d.hours, d.minutes, d.seconds)
  }

  /** Levels read from the four active-low button pins (0 while held). */
  datatype Pins = Pins(mode: int, reset: int, up: int, down: int)

  /** A button counts as pressed exactly when its pin reads 0; the settle
      wait that follows a press only consumes time. */
  predicate Debounce(level: int) {
    level == 0
  }

  /** The globals the main loop reads and writes. */
  datatype Globals = Globals(
    time: Time,
    state: int,
    swRunning: bool,
    swStartTime: nat,
    swAccumulated: nat,
    lastTick: nat)

  /** What every iteration keeps: a valid time, a known mode, and a start
      mark that does not lie after the latest counter reading `now`. */
  predicate Inv(g: Globals, now: nat) {
    ValidTime(g.time) && ModeClock <= g.state <= ModeStopwatch && g.swStartTime <= now
  }

  // ---------------------------------------------------------------------
  // Second tick

  /** One second forward, cascading into minutes and hours exactly as the
      loop's chain of `if`s does. */
  function Tick(t: Time): (r: Time)
    ensures ValidTime(t) ==> ValidTime(r)
  {
    var s := t.seconds + 1;
    var (s1, m1) := if s >= 60 then (0, t.minutes + 1) else (s, t.minutes);
    var (m2, h1) := if m1 >= 60 then (0, t.hours + 1) else (m1, t.hours);
    var h2 := if h1 >= 24 then 0 else h1;
    Time(h2, m2, s1)
  }

  /** n consecutive ticks. */
  function Ticks(t: Time, n: nat): Time {
    if n == 0 then t else Tick(Ticks(t, n - 1))
  }

  predicate GateFires(g: Globals, currentMs: nat) {
    currentMs - g.lastTick >= TickIntervalMs
  }

  /** The elapsed-time gate: when a second has passed since the mark, move the
      mark to now and tick, except in stopwatch mode, where the clock stands still. */
  function Gate(g: Globals, currentMs: nat): Globals {
    if GateFires(g, currentMs) then
      g.(lastTick := currentMs,
         time := if g.state != ModeStopwatch then Tick(g.time) else g.time)
    else
      g
  }

  // ---------------------------------------------------------------------
  // Mode button

  /** `state += 1`, then back to 0 once it passes 3. */
  function NextState(s: int): (r: int)
    ensures ModeClock <= s <= ModeStopwatch ==> ModeClock <= r <= ModeStopwatch
    ensures ModeClock <= s <= ModeStopwatch ==> r == (s + 1) % 4
  {
    if s + 1 > ModeStopwatch then ModeClock else s + 1
  }

  /** Next mode; the tick mark is cleared so the clock redraws at once. */
  function OnMode(g: Globals): Globals {
    g.(state := NextState(g.state), lastTick := 0)
  }

  // ---------------------------------------------------------------------
  // Reset button

  /** Resynchronise from the RTC in every mode but the stopwatch. */
  function OnReset(g: Globals, rtc: RtcDateTime): Globals {
    if g.state != ModeStopwatch then g.(time := RtcTime(rtc), lastTick := 0) else g
  }

  // ---------------------------------------------------------------------
  // Up and Down buttons

  /** Up: hour or minute forward in the edit modes, start/stop in the
      stopwatch mode, nothing in the clock mode. */
  function OnUp(g: Globals, now: nat): Globals
    requires g.swStartTime <= now
  {
    if g.state == ModeEditHour then
      g.(time := g.time.(hours := Shift(g.time.hours, 1, 24)), lastTick := 0)
    else if g.state == ModeEditMinute then
      g.(time := g.time.(minutes := Shift(g.time.minutes, 1, 60), seconds := 0), lastTick := 0)
    else if g.state == ModeStopwatch then
      if g.swRunning then
        g.(swRunning := false, swAccumulated := g.swAccumulated + (now - g.swStartTime))
      else
        g.(swRunning := true, swStartTime := now)
    else
      g
  }

  /** Down: hour or minute back in the edit modes, clear the stopwatch when
      it is stopped, nothing otherwise. */
  function OnDown(g: Globals): Globals {
    if g.state == ModeEditHour then
      g.(time := g.time.(hours := Shift(g.time.hours, -1, 24)), lastTick := 0)
    else if g.state == ModeEditMinute then
      g.(time := g.time.(minutes := Shift(g.time.minutes, -1, 60), seconds := 0), lastTick := 0)
    else if g.state == ModeStopwatch && !g.swRunning then
      g.(swAccumulated := 0)
    else
      g
  }

  // ---------------------------------------------------------------------
  // Stopwatch readout

  /** Total stopwatch time at counter reading `now`. */
  function Elapsed(g: Globals, now: nat): nat
    requires g.swStartTime <= now
  {
    g.swAccumulated + (if g.swRunning then now - g.swStartTime else 0)
  }

  datatype Readout = Readout(minutes: int, seconds: int, hundredths: int)

  /** Minutes, seconds and hundredths shown for a total in milliseconds. The
      source divides in floating point and truncates with `int()`, which for a
      non-negative total is integer division. */
  function ReadoutOf(total: nat): (r: Readout)
    ensures 0 <= r.hundredths < 100 && 0 <= r.seconds < 60 && 0 <= r.minutes < 60
  {
    Readout(total / 60000 % 60, total / 1000 % 60, total % 1000 / 10)
  }

  // ---------------------------------------------------------------------
  // Display rows (the display itself is a sink and is not modelled)

  /** Row 0 in the three clock modes: `Czas: HH:MM:SS`. */
  function ClockRow(t: Time): (row: string)
    requires ValidTime(t)
    ensures |row| == 14 && row[..6] == "Czas: " && row[8] == ':' && row[11] == ':'
    ensures IsDigit(row[6]) && IsDigit(row[7]) && IsDigit(row[9]) && IsDigit(row[10])
    ensures IsDigit(row[12]) && IsDigit(row[13])
    ensures DigitValue(row[6]) * 10 + DigitValue(row[7]) == t.hours
    ensures DigitValue(row[9]) * 10 + DigitValue(row[10]) == t.minutes
    ensures DigitValue(row[12]) * 10 + DigitValue(row[13]) == t.seconds
  {
    "Czas: " + Pad2(t.hours) + ":" + Pad2(t.minutes) + ":" + Pad2(t.seconds)
  }

  /** Row 1 in the three clock modes: the mode's label, padded to the
      display's 16 columns. The clock mode is labelled `Tryb:`, the two
      edit modes `USTAW:`. */
  function ModeRow(state: int): (row: string)
    requires ModeClock <= state <= ModeEditMinute
    ensures |row| == 16
    ensures state == ModeClock ==> row[..6] == "Tryb: "
    ensures state != ModeClock ==> row[..7] == "USTAW: "
  {
    if state == ModeClock then "Tryb: NORMALNY  "
    else if state == ModeEditHour then "USTAW: GODZINA  "
    else "USTAW: MINUTA   "
  }

  /** Row 1 in stopwatch mode: `MM:SS:CC` padded to 16 columns. */
  function StopwatchRow(r: Readout): (row: string)
    requires 0 <= r.hundredths < 100 && 0 <= r.seconds < 60 && 0 <= r.minutes < 60
    ensures |row| == 16 && row[2] == ':' && row[5] == ':' && row[8..] == "        "
    ensures IsDigit(row[0]) && IsDigit(row[1]) && IsDigit(row[3]) && IsDigit(row[4])
    ensures IsDigit(row[6]) && IsDigit(row[7])
    ensures DigitValue(row[0]) * 10 + DigitValue(row[1]) == r.minutes
    ensures DigitValue(row[3]) * 10 + DigitValue(row[4]) == r.seconds
    ensures DigitValue(row[6]) * 10 + DigitValue(row[7]) == r.hundredths
  {
    Pad2(r.minutes) + ":" + Pad2(r.seconds) + ":" + Pad2(r.hundredths) + "        "
  }

  // ---------------------------------------------------------------------
  // One loop iteration

  /** The buttons in the order the loop polls them: Mode, Reset, Up, Down. */
  function StepSpec(g: Globals, pins: Pins, tickMs: nat, upMs: nat, rtc: RtcDateTime): Globals
    requires g.swStartTime <= upMs
  {
    var g1 := Gate(g, tickMs);
    var g2 := if Debounce(pins.mode) then OnMode(g1) else g1;
    var g3 := if Debounce(pins.reset) then OnReset(g2, rtc) else g2;
    var g4 := if Debounce(pins.up) then OnUp(g3, upMs) else g3;
    if Debounce(pins.down) then OnDown(g4) else g4
  }

  /** The stopwatch readout an iteration computes, before any button is polled. */
  function StepReadout(g: Globals, readMs: nat): Option<Readout>
    requires g.swStartTime <= readMs
  {
    if g.state == ModeStopwatch then Some(ReadoutOf(Elapsed(g, readMs))) else None
  }

  /** Every iteration keeps the invariant, with the latest counter reading
      moved on to `upMs`. */
  lemma StepKeepsInv(g: Globals, pins: Pins, tickMs: nat, upMs: nat, rtc: RtcDateTime, now: nat)
    requires Inv(g, now) && now <= tickMs <= upMs && ValidTime(RtcTime(rtc))
    ensures g.swStartTime <= upMs
    ensures Inv(StepSpec(g, pins, tickMs, upMs, rtc), upMs)
  {
    var g1 := Gate(g, tickMs);
    assert Inv(g1, upMs);
    var g2 := if Debounce(pins.mode) then OnMode(g1) else g1;
    assert Inv(g2, upMs);
    var g3 := if Debounce(pins.reset) then OnReset(g2, rtc) else g2;
    assert Inv(g3, upMs);
    var g4 := if Debounce(pins.up) then OnUp(g3, upMs) else g3;
    assert Inv(g4, upMs);
    var g5 := if Debounce(pins.down) then OnDown(g4) else g4;
    assert Inv(g5, upMs);
    assert StepSpec(g, pins, tickMs, upMs, rtc) == g5;
  }

  // ---------------------------------------------------------------------
  // The controller's globals, updated in place

  class Controller {
    var hours: int
    var minutes: int
    var seconds: int
    var state: int
    var swRunning: bool
    var swStartTime: nat
    var swAccumulated: nat
    var lastTick: nat
    /** The latest reading of the millisecond counter this controller has seen. */
    ghost var lastNow: nat

    function Snapshot(): Globals
      reads this
    {
      Globals(Time(hours, minutes, seconds), state, swRunning, swStartTime, swAccumulated, lastTick)
    }

    ghost predicate Valid()
      reads this
    {
      Inv(Snapshot(), lastNow)
    }

    /** Start-up: the globals' initial values, the first resync from the
        RTC, and the first tick mark at counter reading `startMs`. */
    constructor (rtc: RtcDateTime, startMs: nat)
      requires ValidTime(RtcTime(rtc))
      ensures Valid() && lastNow == startMs
      ensures Snapshot() == Globals(RtcTime(rtc), ModeClock, false, 0, 0, startMs)
    {
      hours, minutes, seconds := 12, 0, 0;
      state := ModeClock;
      swRunning, swStartTime, swAccumulated := false, 0, 0;
      lastTick := 0;
      lastNow := startMs;
      new;
      SyncTimeFromSystem(rtc);
      lastTick := startMs;
    }

    /** Copy hours, minutes and seconds out of the RTC tuple. */
    method SyncTimeFromSystem(rtc: RtcDateTime)
      modifies this`hours, this`minutes, this`seconds
      ensures Time(hours, minutes, seconds) == RtcTime(rtc)
    {
      hours := rtc.hours;
      minutes := rtc.minutes;
      seconds := rtc.seconds;
    }

    /** The clock logic: tick once the gate fires. */
    method ClockTick(tickMs: nat) returns (fired: bool)
      modifies this
      ensures fired == GateFires(old(Snapshot()), tickMs)
      ensures Snapshot() == Gate(old(Snapshot()), tickMs) && lastNow == old(lastNow)
    {
      fired := tickMs - lastTick >= TickIntervalMs;
      if fired {
        lastTick := tickMs;
        if state != ModeStopwatch {
          seconds := seconds + 1;
          if seconds >= 60 {
            seconds := 0;
            minutes := minutes + 1;
          }
          if minutes >= 60 {
            minutes := 0;
            hours := hours + 1;
          }
          if hours >= 24 {
            hours := 0;
          }
        }
      }
    }

    /** The stopwatch readout, computed on every iteration in stopwatch mode. */
    method StopwatchReadout(readMs: nat) returns (readout: Option<Readout>)
      requires swStartTime <= readMs
      ensures readout == StepReadout(Snapshot(), readMs)
    {
      if state == ModeStopwatch {
        var totalMs: nat;
        if swRunning {
          totalMs := swAccumulated + (readMs - swStartTime);
        } else {
          totalMs := swAccumulated;
        }
        readout := Some(ReadoutOf(totalMs));
      } else {
        readout := None;
      }
    }

    method HandleMode(pressed: bool)
      modifies this
      ensures Snapshot() == (if pressed then OnMode(old(Snapshot())) else old(Snapshot()))
      ensures lastNow == old(lastNow)
    {
      if pressed {
        state := state + 1;
        if state > ModeStopwatch {
          state := ModeClock;
        }
        lastTick := 0;
      }
    }

    method HandleReset(pressed: bool, rtc: RtcDateTime)
      modifies this
      ensures Snapshot() == (if pressed then OnReset(old(Snapshot()), rtc) else old(Snapshot()))
      ensures lastNow == old(lastNow)
    {
      if pressed {
        if state != ModeStopwatch {
          SyncTimeFromSystem(rtc);
          lastTick := 0;
        }
      }
    }

    method HandleUp(pressed: bool, upMs: nat)
      requires swStartTime <= upMs
      modifies this
      ensures Snapshot() == (if pressed then OnUp(old(Snapshot()), upMs) else old(Snapshot()))
      ensures lastNow == old(lastNow)
    {
      if pressed {
        if state == ModeEditHour {
          hours := (hours + 1) % 24;
          lastTick := 0;
        } else if state == ModeEditMinute {
          minutes := (minutes + 1) % 60;
          seconds := 0;
          lastTick := 0;
        } else if state == ModeStopwatch {
          if swRunning {
            swRunning := false;
            swAccumulated := swAccumulated + (upMs - swStartTime);
          } else {
            swRunning := true;
            swStartTime := upMs;
          }
        }
      }
    }

    method HandleDown(pressed: bool)
      modifies this
      ensures Snapshot() == (if pressed then OnDown(old(Snapshot())) else old(Snapshot()))
      ensures lastNow == old(lastNow)
    {
      if pressed {
        if state == ModeEditHour {
          hours := (hours - 1) % 24;
          lastTick := 0;
        } else if state == ModeEditMinute {
          minutes := (minutes - 1) % 60;
          seconds := 0;
          lastTick := 0;
        } else if state == ModeStopwatch {
          if !swRunning {
            swAccumulated := 0;
          }
        }
      }
    }

    /** One iteration of the main loop. `tickMs` is the reading the gate
        compares, `readMs` the one the stopwatch readout uses, `upMs` the one
        the start/stop toggle uses; `rtc` is what the RTC would answer. */
    method Step(pins: Pins, tickMs: nat, readMs: nat, upMs: nat, rtc: RtcDateTime)
        returns (fired: bool, readout: Option<Readout>)
      requires Valid()
      requires lastNow <= tickMs <= readMs <= upMs
      requires ValidTime(RtcTime(rtc))
      modifies this
      ensures Valid() && lastNow == upMs
      ensures Snapshot() == StepSpec(old(Snapshot()), pins, tickMs, upMs, rtc)
      ensures fired == GateFires(old(Snapshot()), tickMs)
      ensures readout == StepReadout(old(Snapshot()), readMs)
    {
      fired := ClockTick(tickMs);
      readout := StopwatchReadout(readMs);
      HandleMode(Debounce(pins.mode));
      HandleReset(Debounce(pins.reset), rtc);
      HandleUp(Debounce(pins.up), upMs);
      HandleDown(Debounce(pins.down));
      lastNow := upMs;
      StepKeepsInv(old(Snapshot()), pins, tickMs, upMs, rtc, old(lastNow));
    }
  }
}
