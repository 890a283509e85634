/**
  What one iteration of the clock and stopwatch controller guarantees, and
  what longer runs of iterations add up to, stated over the pure model in
  DigitalClock.
 */
module DigitalClockProperties {
  import opened TimeOfDay
  import opened DigitalClock

  // ---------------------------------------------------------------------
  // Second tick and its cascade

  /** A tick is one second forward on the 24-hour dial. */
  lemma TickAdvances(t: Time)
    requires ValidTime(t)
    ensures ValidTime(Tick(t))
    ensures SecondOfDay(Tick(t)) == (SecondOfDay(t) + 1) % SecondsPerDay
  {
    SecondOfDayRange(t);
    var x := SecondOfDay(t);
    if t.seconds < 59 {
      assert Tick(t) == t.(seconds := t.seconds + 1);
      assert SecondOfDay(Tick(t)) == x + 1;
    } else if t.minutes < 59 {
      assert Tick(t) == Time(t.hours, t.minutes + 1, 0);
      assert SecondOfDay(Tick(t)) == x + 1;
    } else if t.hours < 23 {
      assert Tick(t) == Time(t.hours + 1, 0, 0);
      assert SecondOfDay(Tick(t)) == x + 1;
    } else {
      assert Tick(t) == Time(0, 0, 0);
      assert x + 1 == SecondsPerDay;
    }
    ModDay(x + 1);
  }

  /** Reducing a count of seconds below two days to one day. */
  lemma ModDay(y: int)
    requires 0 <= y <= SecondsPerDay
    ensures y < SecondsPerDay ==> y % SecondsPerDay == y
    ensures y == SecondsPerDay ==> y % SecondsPerDay == 0
  {
  }

  /** n ticks are n seconds forward on the 24-hour dial. */
  lemma {:induction false} TicksAdvance(t: Time, n: nat)
    requires ValidTime(t)
    ensures ValidTime(Ticks(t, n))
    ensures SecondOfDay(Ticks(t, n)) == (SecondOfDay(t) + n) % SecondsPerDay
  {
    SecondOfDayRange(t);
    if n > 0 {
      TicksAdvance(t, n - 1);
      var prev := Ticks(t, n - 1);
      TickAdvances(prev);
      var k := SecondOfDay(t) + n - 1;
      assert SecondOfDay(prev) == k % SecondsPerDay;
      SuccessorModDay(k);
    }
  }

  lemma SuccessorModDay(k: nat)
    ensures (k % SecondsPerDay + 1) % SecondsPerDay == (k + 1) % SecondsPerDay
  {
    var q, r := k / SecondsPerDay, k % SecondsPerDay;
    assert k == q * SecondsPerDay + r;
    if r + 1 < SecondsPerDay {
      assert k + 1 == q * SecondsPerDay + (r + 1);
    } else {
      assert k + 1 == (q + 1) * SecondsPerDay;
    }
  }

  /** 86400 consecutive ticks bring the clock back to where it started
      (stated for a day count `n`, which keeps the verifier from unfolding
      the ticks one literal at a time). */
  lemma FullDayReturns(t: Time, n: nat)
    requires ValidTime(t) && n == SecondsPerDay
    ensures Ticks(t, n) == t
  {
    TicksAdvance(t, n);
    SecondOfDayRange(t);
    var x := SecondOfDay(t);
    AddDay(x);
    assert SecondOfDay(Ticks(t, n)) == SecondOfDay(t);
    SecondOfDayInjective(Ticks(t, n), t);
  }

  /** A whole day added to a second of the day reduces back to it. */
  lemma AddDay(x: int)
    requires 0 <= x < SecondsPerDay
    ensures (x + SecondsPerDay) % SecondsPerDay == x
  {
    assert x + SecondsPerDay == 1 * SecondsPerDay + x;
  }

  // ---------------------------------------------------------------------
  // The elapsed-time gate

  /** The clock fields and the tick mark change only when a second has
      passed since the mark; then the mark moves to the current reading and
      nothing but the time and the mark changes. */
  lemma GateRule(g: Globals, currentMs: nat)
    ensures !GateFires(g, currentMs) ==> Gate(g, currentMs) == g
    ensures GateFires(g, currentMs) ==>
      Gate(g, currentMs).lastTick == currentMs &&
      Gate(g, currentMs).(time := g.time, lastTick := g.lastTick) == g
    ensures GateFires(g, currentMs) && g.state != ModeStopwatch ==> Gate(g, currentMs).time == Tick(g.time)
  {
  }

  /** In stopwatch mode the gate still fires and moves the mark, but the
      clock stands still. */
  lemma ClockFrozenInStopwatch(g: Globals, currentMs: nat)
    requires g.state == ModeStopwatch
    ensures Gate(g, currentMs).time == g.time
    ensures GateFires(g, currentMs) ==> Gate(g, currentMs).lastTick == currentMs
  {
  }

  /** After the mark has been cleared, the first reading of 1000 ms or more
      fires the gate, and outside stopwatch mode that also ticks a second. */
  lemma ClearedMarkFires(g: Globals, currentMs: nat)
    requires g.lastTick == 0 && currentMs >= TickIntervalMs
    ensures GateFires(g, currentMs)
    ensures g.state != ModeStopwatch ==> Gate(g, currentMs).time == Tick(g.time)
  {
  }

  /** An iteration in which Mode was pressed leaves the mark cleared, so
      the next iteration redraws at once (the edits clear it too, as
      EditHour and EditMinute state). */
  lemma ModePressClearsMark(g: Globals, pins: Pins, tickMs: nat, upMs: nat, rtc: RtcDateTime)
    requires g.swStartTime <= upMs
    requires Debounce(pins.mode)
    ensures StepSpec(g, pins, tickMs, upMs, rtc).lastTick == 0
  {
  }

  // ---------------------------------------------------------------------
  // Mode cycle

  /** A Mode press moves to the next mode and clears the tick mark, and
      changes nothing else; four presses return to the starting mode. */
  lemma ModeCycle(g: Globals)
    requires ModeClock <= g.state <= ModeStopwatch
    ensures ModeClock <= OnMode(g).state <= ModeStopwatch
    ensures OnMode(g).state == (g.state + 1) % 4
    ensures OnMode(g) == g.(state := (g.state + 1) % 4, lastTick := 0)
    ensures OnMode(OnMode(OnMode(OnMode(g)))) == g.(lastTick := 0)
  {
  }

  // ---------------------------------------------------------------------
  // Reset

  /** Reset in a clock mode (0, 1 or 2) resynchronises from the RTC and
      clears the mark; in stopwatch mode it changes nothing. */
  lemma ResetGating(g: Globals, rtc: RtcDateTime)
    ensures g.state != ModeStopwatch ==>
      OnReset(g, rtc).time == RtcTime(rtc) && OnReset(g, rtc).lastTick == 0 &&
      OnReset(g, rtc).(time := g.time, lastTick := g.lastTick) == g
    ensures g.state == ModeStopwatch ==> OnReset(g, rtc) == g
  {
  }

  /** A whole iteration that starts and stays in stopwatch mode leaves the
      clock's time untouched, whatever buttons are pressed: the gate does not
      tick, Reset is ignored and Up and Down act on the stopwatch. */
  lemma StepFreezesClockInStopwatch(g: Globals, pins: Pins, tickMs: nat, upMs: nat, rtc: RtcDateTime)
    requires g.swStartTime <= upMs
    requires g.state == ModeStopwatch && !Debounce(pins.mode)
    ensures StepSpec(g, pins, tickMs, upMs, rtc).time == g.time
    ensures StepSpec(g, pins, tickMs, upMs, rtc).state == ModeStopwatch
  {
  }

  // ---------------------------------------------------------------------
  // Edit buttons

  /** In edit-hour mode Up and Down move the hour by one around the 24-hour
      dial and leave minutes and seconds alone; Up then Down restores it.
      Either edit clears the tick mark and changes nothing else. */
  lemma EditHour(g: Globals, now: nat)
    requires g.state == ModeEditHour && ValidTime(g.time) && g.swStartTime <= now
    ensures OnUp(g, now).time == g.time.(hours := (g.time.hours + 1) % 24)
    ensures OnDown(g).time == g.time.(hours := (g.time.hours - 1) % 24)
    ensures g.time.hours == 23 ==> OnUp(g, now).time.hours == 0
    ensures g.time.hours == 0 ==> OnDown(g).time.hours == 23
    ensures OnDown(OnUp(g, now)).time == g.time
    ensures OnUp(OnDown(g), now).time == g.time
    ensures OnUp(g, now).lastTick == 0 && OnDown(g).lastTick == 0
    ensures OnUp(g, now).(time := g.time, lastTick := g.lastTick) == g
    ensures OnDown(g).(time := g.time, lastTick := g.lastTick) == g
  {
    ShiftUpDown(g.time.hours, 24);
  }

  /** In edit-minute mode Up and Down move the minute by one around the
      hour and restart the seconds at 0; Up then Down restores the minute
      but not the seconds. Either edit clears the tick mark and changes
      nothing else. */
  lemma EditMinute(g: Globals, now: nat)
    requires g.state == ModeEditMinute && ValidTime(g.time) && g.swStartTime <= now
    ensures OnUp(g, now).time == Time(g.time.hours, (g.time.minutes + 1) % 60, 0)
    ensures OnDown(g).time == Time(g.time.hours, (g.time.minutes - 1) % 60, 0)
    ensures g.time.minutes == 59 ==> OnUp(g, now).time.minutes == 0
    ensures g.time.minutes == 0 ==> OnDown(g).time.minutes == 59
    ensures OnDown(OnUp(g, now)).time == g.time.(seconds := 0)
    ensures OnUp(OnDown(g), now).time == g.time.(seconds := 0)
    ensures OnUp(g, now).lastTick == 0 && OnDown(g).lastTick == 0
    ensures OnUp(g, now).(time := g.time, lastTick := g.lastTick) == g
    ensures OnDown(g).(time := g.time, lastTick := g.lastTick) == g
  {
    ShiftUpDown(g.time.minutes, 60);
  }

  /** The three labels of the clock modes differ, so the label tells the
      mode. */
  lemma ModeRowsDistinct(a: int, b: int)
    requires ModeClock <= a <= ModeEditMinute && ModeClock <= b <= ModeEditMinute
    ensures ModeRow(a) == ModeRow(b) <==> a == b
  {
  }

  /** In clock mode Up and Down do nothing. */
  lemma ClockModeIgnoresEdits(g: Globals, now: nat)
    requires g.state == ModeClock && g.swStartTime <= now
    ensures OnUp(g, now) == g && OnDown(g) == g
  {
  }

  /** A Mode press is handled before Up in the same iteration: from clock
      mode, pressing both enters edit-hour mode and moves the hour. */
  lemma ModeActsBeforeUp(g: Globals, pins: Pins, tickMs: nat, upMs: nat, rtc: RtcDateTime)
    requires g.swStartTime <= upMs && ValidTime(g.time)
    requires g.state == ModeClock
    requires Debounce(pins.mode) && !Debounce(pins.reset) && Debounce(pins.up) && !Debounce(pins.down)
    ensures StepSpec(g, pins, tickMs, upMs, rtc).state == ModeEditHour
    ensures StepSpec(g, pins, tickMs, upMs, rtc).time.hours == (Gate(g, tickMs).time.hours + 1) % 24
  {
  }

  // ---------------------------------------------------------------------
  // Stopwatch

  /** Up in stopwatch mode flips the running flag. Starting records the
      reading; stopping banks the run into the accumulated total. Either way
      the total shown at that reading is unchanged and the accumulated total
      does not decrease. */
  lemma StartStopToggle(g: Globals, now: nat)
    requires g.state == ModeStopwatch && g.swStartTime <= now
    ensures OnUp(g, now).swRunning == !g.swRunning
    ensures !g.swRunning ==> OnUp(g, now).swStartTime == now && OnUp(g, now).swAccumulated == g.swAccumulated
    ensures g.swRunning ==> OnUp(g, now).swAccumulated == g.swAccumulated + (now - g.swStartTime)
    ensures OnUp(g, now).swAccumulated >= g.swAccumulated
    ensures Elapsed(OnUp(g, now), now) == Elapsed(g, now)
    ensures OnUp(g, now).time == g.time && OnUp(g, now).lastTick == g.lastTick
  {
  }

  /** Start at t0, stop at t1: the run's length is banked and the total then
      stays frozen at that value. */
  lemma StartThenStop(g: Globals, t0: nat, t1: nat, later: nat)
    requires g.state == ModeStopwatch && !g.swRunning
    requires g.swStartTime <= t0 <= t1 <= later
    ensures OnUp(g, t0).swStartTime <= t1
    ensures !OnUp(OnUp(g, t0), t1).swRunning
    ensures OnUp(OnUp(g, t0), t1).swAccumulated == g.swAccumulated + (t1 - t0)
    ensures Elapsed(OnUp(OnUp(g, t0), t1), later) == g.swAccumulated + (t1 - t0)
  {
  }

  /** While running, the total grows exactly with the counter; while stopped
      it does not move. */
  lemma ElapsedMonotone(g: Globals, t: nat, t': nat)
    requires g.swStartTime <= t <= t'
    ensures Elapsed(g, t) <= Elapsed(g, t')
    ensures g.swRunning ==> Elapsed(g, t') - Elapsed(g, t) == t' - t
    ensures !g.swRunning ==> Elapsed(g, t') == Elapsed(g, t) == g.swAccumulated
  {
  }

  /** Down in stopwatch mode clears a stopped stopwatch and is ignored by a
      running one. */
  lemma ClearOnlyWhenStopped(g: Globals, now: nat)
    requires g.state == ModeStopwatch && g.swStartTime <= now
    ensures g.swRunning ==> OnDown(g) == g
    ensures !g.swRunning ==> OnDown(g) == g.(swAccumulated := 0) && Elapsed(OnDown(g), now) == 0
  {
  }

  /** Over a whole iteration the stopwatch total never goes back, unless the
      iteration cleared a stopped stopwatch to zero. */
  lemma StepElapsedNeverDecreases(g: Globals, pins: Pins, tickMs: nat, upMs: nat, rtc: RtcDateTime, now: nat, later: nat)
    requires Inv(g, now) && now <= tickMs <= upMs <= later
    ensures g.swStartTime <= upMs
    ensures StepSpec(g, pins, tickMs, upMs, rtc).swStartTime <= later
    ensures StepSpec(g, pins, tickMs, upMs, rtc).swAccumulated >= g.swAccumulated ||
            (Debounce(pins.down) && StepSpec(g, pins, tickMs, upMs, rtc).swAccumulated == 0 &&
             !StepSpec(g, pins, tickMs, upMs, rtc).swRunning)
    ensures Elapsed(StepSpec(g, pins, tickMs, upMs, rtc), later) >= Elapsed(g, now) ||
            (Debounce(pins.down) && StepSpec(g, pins, tickMs, upMs, rtc).swAccumulated == 0 &&
             !StepSpec(g, pins, tickMs, upMs, rtc).swRunning)
  {
    var g1 := Gate(g, tickMs);
    var g2 := if Debounce(pins.mode) then OnMode(g1) else g1;
    var g3 := if Debounce(pins.reset) then OnReset(g2, rtc) else g2;
    assert g3.swRunning == g.swRunning && g3.swStartTime == g.swStartTime && g3.swAccumulated == g.swAccumulated;
    assert Elapsed(g3, upMs) >= Elapsed(g, now);
    var g4 := if Debounce(pins.up) then OnUp(g3, upMs) else g3;
    assert Elapsed(g4, upMs) >= Elapsed(g, now);
    assert Elapsed(g4, later) >= Elapsed(g4, upMs);
    var g5 := if Debounce(pins.down) then OnDown(g4) else g4;
    assert StepSpec(g, pins, tickMs, upMs, rtc) == g5;
  }

  // ---------------------------------------------------------------------
  // Stopwatch readout

  /** The readout is the total modulo one hour, split into minutes, seconds
      and hundredths; only the last millisecond digit is dropped
      (truncated, not rounded). */
  lemma {:induction false} ReadoutDecodes(total: nat)
    ensures ReadoutOf(total).minutes * 60000 + ReadoutOf(total).seconds * 1000 +
            ReadoutOf(total).hundredths * 10 + total % 10 == total % 3600000
  {
    var q := total / 60000;
    var rest := total % 60000;
    assert total == q * 60000 + rest;
    assert total % 3600000 == (q % 60) * 60000 + rest by {
      assert q == (q / 60) * 60 + q % 60;
      assert total == (q / 60) * 3600000 + ((q % 60) * 60000 + rest);
    }
    assert total / 1000 == q * 60 + rest / 1000 by {
      assert rest == (rest / 1000) * 1000 + rest % 1000;
      assert total == (q * 60 + rest / 1000) * 1000 + rest % 1000;
    }
    assert total / 1000 % 60 == rest / 1000;
    assert total % 1000 == rest % 1000 by {
      assert total == (q * 60 + rest / 1000) * 1000 + rest % 1000;
    }
    var ms := rest % 1000;
    assert ms == (ms / 10) * 10 + ms % 10;
    assert ms % 10 == total % 10 by {
      assert total == ((q * 60 + rest / 1000) * 100 + ms / 10) * 10 + ms % 10;
    }
    assert rest == (rest / 1000) * 1000 + ms;
  }

  /** Readouts of totals below one hour determine the total to within the
      dropped millisecond digit. */
  lemma ReadoutWithinHour(total: nat)
    requires total < 3600000
    ensures total - total % 10 ==
      ReadoutOf(total).minutes * 60000 + ReadoutOf(total).seconds * 1000 + ReadoutOf(total).hundredths * 10
  {
    ReadoutDecodes(total);
  }

  // ---------------------------------------------------------------------
  // A run of iterations

  /** Pin levels with only the named buttons held. */
  function Held(mode: bool, reset: bool, up: bool, down: bool): (p: Pins)
    ensures Debounce(p.mode) == mode && Debounce(p.reset) == reset
    ensures Debounce(p.up) == up && Debounce(p.down) == down
  {
    Pins(if mode then 0 else 1, if reset then 0 else 1, if up then 0 else 1, if down then 0 else 1)
  }

  /** Starting in clock mode with the stopwatch stopped: three Mode presses
      reach stopwatch mode without touching the stopwatch, Up starts it, a
      later Up stops it with the run banked, and the clock has not moved since
      stopwatch mode was entered. */
  lemma ModeThreeTimesThenStartStop(g: Globals, t1: nat, t2: nat, t3: nat, t4: nat, t5: nat, rtc: RtcDateTime)
    requires Inv(g, t1) && g.state == ModeClock && !g.swRunning
    requires t1 <= t2 <= t3 <= t4 <= t5
    ensures var m := Held(true, false, false, false);
            var g3 := StepSpec(StepSpec(StepSpec(g, m, t1, t1, rtc), m, t2, t2, rtc), m, t3, t3, rtc);
            var up := Held(false, false, true, false);
            var g4 := StepSpec(g3, up, t4, t4, rtc);
            var g5 := StepSpec(g4, up, t5, t5, rtc);
            && g3.state == ModeStopwatch && !g3.swRunning && g3.swAccumulated == g.swAccumulated
            && g4.swRunning && g4.swStartTime == t4 && g4.time == g3.time
            && !g5.swRunning && g5.swAccumulated == g.swAccumulated + (t5 - t4) && g5.time == g3.time
  {
    var m := Held(true, false, false, false);
    var g1 := StepSpec(g, m, t1, t1, rtc);
    assert g1.state == ModeEditHour;
    var g2 := StepSpec(g1, m, t2, t2, rtc);
    assert g2.state == ModeEditMinute;
    var g3 := StepSpec(g2, m, t3, t3, rtc);
    assert g3.state == ModeStopwatch && !g3.swRunning && g3.swAccumulated == g.swAccumulated;
    var up := Held(false, false, true, false);
    var g4 := StepSpec(g3, up, t4, t4, rtc);
    assert g4.swRunning && g4.swStartTime == t4 && g4.time == g3.time;
    var g5 := StepSpec(g4, up, t5, t5, rtc);
    assert !g5.swRunning && g5.swAccumulated == g.swAccumulated + (t5 - t4) && g5.time == g3.time;
  }
}
