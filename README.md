# Digital clock and stopwatch, alarm clock: a Dafny model

This project models the control logic of two small firmware programs, and proves properties of it.

- `digital_clock.py` is a MicroPython clock with a stopwatch. One endless loop keeps a time of day (hours, minutes, seconds). The time advances one second whenever at least 1000 ms have passed since the last tick mark. The loop cycles through four modes with the Mode button: clock, edit hour, edit minute and stopwatch. Reset resynchronises the time from the RTC. Up and Down edit the time, or start, stop and clear the stopwatch.
- `digital_clock.c` is an Arduino alarm clock. Its `loop()` tells a short press of the Mode button from a long one. A long press toggles an alarm-edit mode, which closes after 5 s without input. The loop edits the alarm hour and minute with wrap-around, raises the alarm on the first reading of second 0 of the alarm minute, and silences it on any button.

Each program is modelled in two layers.

- **A pure specification.** Each iteration of the loop is a function on a snapshot of the program's globals. `DigitalClock.StepSpec` is built from `Gate`, `OnMode`, `OnReset`, `OnUp` and `OnDown`. `AlarmClock.LoopSpec` is built from `ModeButton`, `Acknowledge`, `EditAlarm` and `Trigger`.
- **A class that updates the globals in place.** `DigitalClock.Controller` and `AlarmClock.AlarmController` have one field per global. Their methods follow the source's statements. Each method is proved to leave the fields equal to the specification function applied to the old fields.

The properties are lemmas about the specification functions. They are in `digital_clock_properties.dfy` and `alarm_clock_properties.dfy`. `time_of_day.dfy` holds what both programs share: the time triple, seconds since midnight, wrap-around by modulus, and two-digit zero padding.

External inputs are parameters:

- Pin levels.
- Readings of the millisecond counter, as non-decreasing naturals. Each class keeps a ghost `lastNow`, the latest reading it has seen, so that it can require this.
- The RTC's answer.

The C program's RTC adjustments are returned as a list of `RtcCommand`s.

Reset is gated by the mode, as its comment at `digital_clock.py:177` says. It resynchronises the time in modes 0, 1 and 2 (line 179) and is ignored in stopwatch mode; see `ResetGating`.

Where the code and its comments disagree, the model follows the code:

- **The clock stops in stopwatch mode.** The comment at `digital_clock.py:124` says the clock keeps counting in the background there. The code does not tick it while `state == 3`. See `ClockFrozenInStopwatch` and `StepFreezesClockInStopwatch`.
- **A forced refresh also ticks the clock.** Setting `last_tick = 0` to force a redraw makes the gate fire on the next iteration with a reading of at least 1000 ms. Outside stopwatch mode that also advances the clock by one second. See `ClearedMarkFires` and `ModePressClearsMark`.

## Model

| member | source | states |
|---|---|---|
| `TimeOfDay.Shift` | digital_clock.py:188-213 | `(x + delta) % n` lies in `[0, n)`. It equals `x + delta` inside the range, 0 one step past the top, and `n - 1` one step below 0, as Python's floored `%` gives |
| `TimeOfDay.ShiftUpDown` | digital_clock.py:187-213 | Stepping a field up then down, or down then up, restores it |
| `TimeOfDay.Pad2` | digital_clock.py:138 | `{:02d}` of a value below 100 is two digits that read back as the value, with a leading `0` below 10 |
| `DigitalClock.Tick` | digital_clock.py:125-133 | The seconds, minutes, hours cascade keeps a valid time valid |
| `DigitalClock.NextState` | digital_clock.py:172-173 | `state += 1`, then wrap to 0 past 3: stays in `[0, 3]` and equals `(state + 1) % 4` |
| `DigitalClock.ReadoutOf` | digital_clock.py:156-158 | Hundredths lie in `[0, 99]`, seconds and minutes in `[0, 59]` |
| `DigitalClock.ClockRow` | digital_clock.py:137-138 | Row 0 is `Czas: HH:MM:SS`, 14 characters. Every `H`, `M` and `S` is a digit character, and the pairs read back as hours, minutes and seconds, which fixes the row |
| `DigitalClock.ModeRow` | digital_clock.py:140-143 | Each mode label fills the display's 16 columns. The clock mode's starts `Tryb: ` and the edit modes' start `USTAW: ` |
| `DigitalClock.StopwatchRow` | digital_clock.py:163-165 | The stopwatch row is `MM:SS:CC` padded to 16 columns. All six positions are digit characters, and the pairs read back as the readout |
| `DigitalClock.RtcTime` | digital_clock.py:96-100 | No contract of its own: entries 4, 5 and 6 of the RTC tuple as a time. `ResetGating` and `Controller.SyncTimeFromSystem` state its use |
| `DigitalClock.GateFires` | digital_clock.py:122 | No contract of its own: `ticks_diff(current_ms, last_tick) >= 1000`. `GateRule` and `ClearedMarkFires` state its behaviour |
| `DigitalClock.Gate` | digital_clock.py:122-133 | No contract of its own: the elapsed-time gate and the cascade. `GateRule`, `ClockFrozenInStopwatch`, `ClearedMarkFires` and `TickAdvances` state its behaviour |
| `DigitalClock.OnMode` | digital_clock.py:171-175 | No contract of its own: the Mode press. `ModeCycle` and `ModePressClearsMark` state its behaviour |
| `DigitalClock.OnReset` | digital_clock.py:178-184 | No contract of its own: the Reset press. `ResetGating` states its behaviour |
| `DigitalClock.OnUp` | digital_clock.py:187-203 | No contract of its own: the Up press. `EditHour`, `EditMinute`, `ClockModeIgnoresEdits`, `StartStopToggle` and `StartThenStop` state its behaviour |
| `DigitalClock.OnDown` | digital_clock.py:206-216 | No contract of its own: the Down press. `EditHour`, `EditMinute`, `ClockModeIgnoresEdits` and `ClearOnlyWhenStopped` state its behaviour |
| `DigitalClock.Elapsed` | digital_clock.py:148-153 | No contract of its own: the stopwatch total at a reading. `ElapsedMonotone` and `StartStopToggle` state its behaviour |
| `DigitalClock.StepReadout` | digital_clock.py:146-158 | No contract of its own: the stopwatch readout of an iteration. `ReadoutDecodes` and `ReadoutWithinHour` state what `ReadoutOf` gives |
| `DigitalClock.StepSpec` | digital_clock.py:118-216 | No contract of its own: one iteration, the gate then Mode, Reset, Up, Down. `StepKeepsInv`, `StepFreezesClockInStopwatch`, `ModeActsBeforeUp`, `StepElapsedNeverDecreases` and `ModeThreeTimesThenStartStop` state its behaviour |
| `DigitalClock.StepKeepsInv` | digital_clock.py:118-218 | Every iteration keeps a valid time, a mode in `[0, 3]` and a stopwatch start mark no later than the latest reading |
| `DigitalClock.Controller.constructor` | digital_clock.py:72-113 | Start-up: time from the RTC, clock mode, stopwatch stopped at 0, tick mark at the first reading |
| `DigitalClock.Controller.SyncTimeFromSystem` | digital_clock.py:93-100 | Hours, minutes and seconds become entries 4, 5 and 6 of the RTC tuple |
| `DigitalClock.Controller.ClockTick` | digital_clock.py:119-133 | The in-place gate and cascade leave the globals equal to `Gate` of the old globals, and report whether the gate fired |
| `DigitalClock.Controller.StopwatchReadout` | digital_clock.py:146-158 | In stopwatch mode the readout is `ReadoutOf` the accumulated total plus the running interval; otherwise there is none |
| `DigitalClock.Controller.HandleMode` | digital_clock.py:171-175 | A Mode press leaves the globals equal to `OnMode` of the old ones; no press changes nothing |
| `DigitalClock.Controller.HandleReset` | digital_clock.py:178-184 | A Reset press leaves the globals equal to `OnReset` of the old ones |
| `DigitalClock.Controller.HandleUp` | digital_clock.py:187-203 | An Up press leaves the globals equal to `OnUp` of the old ones at the toggle's reading |
| `DigitalClock.Controller.HandleDown` | digital_clock.py:206-218 | A Down press leaves the globals equal to `OnDown` of the old ones |
| `DigitalClock.Controller.Step` | digital_clock.py:118-220 | One iteration in place equals `StepSpec` of the old globals, keeps the invariant, and returns the gate outcome and the stopwatch readout |
| `DigitalClockProperties.TickAdvances` | digital_clock.py:125-133 | A tick is exactly one second forward on the 24-hour dial (seconds since midnight plus 1, modulo 86400) |
| `DigitalClockProperties.TicksAdvance` | digital_clock.py:125-133 | n ticks are n seconds forward, modulo 86400 |
| `DigitalClockProperties.FullDayReturns` | digital_clock.py:125-133 | 86400 consecutive ticks return the starting time |
| `DigitalClockProperties.GateRule` | digital_clock.py:122-133 | Without 1000 ms since the mark nothing changes. When the gate fires, the mark becomes the reading, only time and mark change, and outside stopwatch mode the time ticks |
| `DigitalClockProperties.ClockFrozenInStopwatch` | digital_clock.py:124 | In stopwatch mode the gate leaves the time unchanged but still moves the mark |
| `DigitalClockProperties.ClearedMarkFires` | digital_clock.py:122-125 | After `last_tick = 0`, a reading of 1000 ms or more fires the gate, and outside stopwatch mode ticks the clock |
| `DigitalClockProperties.ModePressClearsMark` | digital_clock.py:171-216 | An iteration with Mode pressed ends with the mark cleared, whatever the later buttons do |
| `DigitalClockProperties.ModeCycle` | digital_clock.py:171-175 | A Mode press gives mode `(state + 1) % 4` in range, clears the tick mark and changes nothing else (time and stopwatch are kept); four presses return to the starting mode |
| `DigitalClockProperties.ResetGating` | digital_clock.py:178-184 | Reset in modes 0, 1 and 2 sets the time from the RTC and clears the mark, changing nothing else. In stopwatch mode it changes nothing |
| `DigitalClockProperties.StepFreezesClockInStopwatch` | digital_clock.py:122-216 | An iteration in stopwatch mode without a Mode press leaves the time and the mode unchanged, whatever else is pressed |
| `DigitalClockProperties.EditHour` | digital_clock.py:187-209 | In edit-hour mode Up and Down change the hour by one modulo 24 (23 up is 0, 0 down is 23). Minutes and seconds are kept, and either one undoes the other. Both clear the tick mark and change nothing else: mode and stopwatch stay as they were |
| `DigitalClockProperties.EditMinute` | digital_clock.py:191-213 | In edit-minute mode Up and Down change the minute by one modulo 60 and zero the seconds. Up then Down restores the minute but not the seconds. Both clear the tick mark and change nothing else |
| `DigitalClockProperties.ModeRowsDistinct` | digital_clock.py:140-143 | The three row-1 labels are pairwise different, so the label tells the mode |
| `DigitalClockProperties.ClockModeIgnoresEdits` | digital_clock.py:187-216 | In clock mode Up and Down change nothing |
| `DigitalClockProperties.ModeActsBeforeUp` | digital_clock.py:170-190 | Mode and Up pressed together in clock mode give edit-hour mode with the hour advanced: Mode is handled first |
| `DigitalClockProperties.StartStopToggle` | digital_clock.py:195-203 | Up in stopwatch mode flips running. Starting records the reading; stopping adds reading minus start to the accumulated total. The total shown is unchanged by the toggle and the accumulated total never decreases |
| `DigitalClockProperties.StartThenStop` | digital_clock.py:195-203 | Start at t0 then stop at t1 banks exactly t1 - t0, and the total then stays frozen |
| `DigitalClockProperties.ElapsedMonotone` | digital_clock.py:146-153 | The displayed total never decreases with the counter. It grows exactly with it while running and stays at the accumulated total while stopped |
| `DigitalClockProperties.ClearOnlyWhenStopped` | digital_clock.py:214-216 | Down in stopwatch mode zeroes a stopped stopwatch and is a no-op while running |
| `DigitalClockProperties.StepElapsedNeverDecreases` | digital_clock.py:146-216 | Over an iteration the accumulated total and the displayed total never decrease. The only exception, for either, is a Down press that left the stopwatch stopped at 0 |
| `DigitalClockProperties.ReadoutDecodes` | digital_clock.py:156-158 | Minutes times 60000, plus seconds times 1000, plus hundredths times 10, plus the dropped last digit, is the total modulo one hour (truncation, not rounding) |
| `DigitalClockProperties.ReadoutWithinHour` | digital_clock.py:156-158 | Below one hour the readout gives back the total without its last millisecond digit |
| `DigitalClockProperties.ModeThreeTimesThenStartStop` | digital_clock.py:170-203 | From clock mode, three Mode iterations reach stopwatch mode with the stopwatch untouched. Up starts it at that reading, and a later Up stops it with the run banked. The clock does not move meanwhile |
| `AlarmClock.NextHour` | digital_clock.c:103 | `(alarmHour + 1) % 24` stays in `[0, 23]` and is the modular step `Shift(h, 1, 24)` shared with the Python edits; `AlarmFieldsWrap` states its wrap and inverse |
| `AlarmClock.PrevHour` | digital_clock.c:104 | `alarmHour == 0 ? 23 : alarmHour - 1` stays in `[0, 23]` and equals `(alarmHour - 1) mod 24` |
| `AlarmClock.NextMinute` | digital_clock.c:105 | `(alarmMin + 1) % 60` stays in `[0, 59]` and is the modular step `Shift(m, 1, 60)`; `AlarmFieldsWrap` states its wrap and inverse |
| `AlarmClock.PrevMinute` | digital_clock.c:106 | `alarmMin == 0 ? 59 : alarmMin - 1` stays in `[0, 59]` and equals `(alarmMin - 1) mod 60` |
| `AlarmClock.OnHourUp` | digital_clock.c:103 | The hour-up edit keeps the alarm a valid hour and minute |
| `AlarmClock.OnHourDown` | digital_clock.c:104 | The hour-down edit keeps the alarm a valid hour and minute |
| `AlarmClock.OnMinUp` | digital_clock.c:105 | The minute-up edit keeps the alarm a valid hour and minute |
| `AlarmClock.OnMinDown` | digital_clock.c:106 | The minute-down edit keeps the alarm a valid hour and minute |
| `AlarmClock.EditAlarm` | digital_clock.c:102-112 | The edits and the timeout check keep the alarm a valid hour and minute |
| `AlarmClock.Initial` | digital_clock.c:10-16 | No contract of its own: the globals' initial values. `AlarmController.constructor` ensures its state equals it |
| `AlarmClock.AnyLow` | digital_clock.c:92-94 | No contract of its own: some button reads LOW. `AcknowledgeRule` and `LoopAlarmActive` state its use |
| `AlarmClock.ReleaseOf` | digital_clock.c:60-89 | No contract of its own: classifies a reading of the Mode button as no release, a short press or a long press. `ReleaseHandledOnce`, `ShortPressRule` and `LongPressRule` state its behaviour |
| `AlarmClock.ModeButton` | digital_clock.c:60-89 | No contract of its own: the Mode-button handling. `PressStartRecordedOnce`, `ReleaseHandledOnce`, `ShortPressRule` and `LongPressRule` state its behaviour |
| `AlarmClock.ModeButtonCommands` | digital_clock.c:60-89 | No contract of its own: the RTC reset a short release asks for. `ShortPressRule` and `CommandsOnlyOutsideEdit` state its behaviour |
| `AlarmClock.Acknowledge` | digital_clock.c:92-100 | No contract of its own: silencing the alarm. `AcknowledgeRule` states its behaviour |
| `AlarmClock.TimeoutExit` | digital_clock.c:109-112 | No contract of its own: the edit-mode timeout. `EditAlarmRule` and `TimeoutExitRule` state its behaviour |
| `AlarmClock.TimeSetCommands` | digital_clock.c:115-118 | No contract of its own: the time-setting adjustments. `AlarmController.TimeSetting` and `CommandsOnlyOutsideEdit` state its behaviour |
| `AlarmClock.AlarmDue` | digital_clock.c:122 | No contract of its own: the trigger condition. `TriggerRule`, `FiresOncePerMinute` and `NoTriggerWhileEditing` state its behaviour |
| `AlarmClock.Trigger` | digital_clock.c:122-133 | No contract of its own: raising the alarm and remembering the second. `TriggerRule` states its behaviour |
| `AlarmClock.BeforeTrigger` | digital_clock.c:60-119 | No contract of its own: the button handling of one call. `ButtonsKeepSecond` and `LoopAlarmActive` state its behaviour |
| `AlarmClock.LoopSpec` | digital_clock.c:38-136 | No contract of its own: one call of `loop()`. `LoopKeepsInv`, `LoopAlarmActive`, `FiresOncePerMinute` and `NoTriggerWhileEditing` state its behaviour |
| `AlarmClock.LoopCommands` | digital_clock.c:38-136 | No contract of its own: the RTC adjustments of one call. `CommandsOnlyOutsideEdit` states its behaviour |
| `AlarmClock.LoopKeepsInv` | digital_clock.c:38-136 | Every call keeps the alarm in range, the press start no later than the latest reading, and the remembered second in `[-1, 59]` |
| `AlarmClock.AlarmController.constructor` | digital_clock.c:10-16 | The globals start at alarm 12:00, no edit mode, no press, timeout 0, previous second -1, alarm silent |
| `AlarmClock.AlarmController.DetectModePress` | digital_clock.c:60-89 | Mode-button handling in place equals `ModeButton` of the old globals, and asks for the RTC reset exactly on a short release outside edit mode |
| `AlarmClock.AlarmController.AcknowledgeAlarm` | digital_clock.c:92-100 | In place equals `Acknowledge`: any LOW pin silences a sounding alarm |
| `AlarmClock.AlarmController.HandleEditButtons` | digital_clock.c:102-119 | In edit mode the globals become `EditAlarm` of the old ones and no command is issued. Otherwise nothing changes and the time-setting commands are returned |
| `AlarmClock.AlarmController.EditAlarmTime` | digital_clock.c:102-112 | The four edits then the timeout check, in place, equal `EditAlarm` |
| `AlarmClock.AlarmController.HourUpEdit` | digital_clock.c:103 | In place equals `OnHourUp` |
| `AlarmClock.AlarmController.HourDownEdit` | digital_clock.c:104 | In place equals `OnHourDown` |
| `AlarmClock.AlarmController.MinUpEdit` | digital_clock.c:105 | In place equals `OnMinUp` |
| `AlarmClock.AlarmController.MinDownEdit` | digital_clock.c:106 | In place equals `OnMinDown` |
| `AlarmClock.AlarmController.TimeSetting` | digital_clock.c:115-118 | Outside edit mode: one RTC adjustment per held edit button, in polling order. Each adjustment is issued exactly when its button is held, and the reset never is. The number of commands is the number of held buttons |
| `AlarmClock.AlarmController.CheckAlarm` | digital_clock.c:122-133 | In place equals `Trigger`: raise the alarm when it falls due, then remember the second |
| `AlarmClock.AlarmController.Loop` | digital_clock.c:38-136 | One call in place equals `LoopSpec` of the old globals, keeps the invariant, and returns `LoopCommands` |
| `AlarmClockProperties.PressStartRecordedOnce` | digital_clock.c:61-65 | A LOW reading records the press start only when no press is pending. Further LOW readings leave it, and issue no command |
| `AlarmClockProperties.ReleaseHandledOnce` | digital_clock.c:66-70 | The first HIGH reading after a press clears the flag and is classified. A HIGH reading with no press pending changes nothing, so a second one is not a release |
| `AlarmClockProperties.ShortPressRule` | digital_clock.c:71-82 | A release under 1000 ms clears the pending flag and leaves edit mode, or outside it requests the RTC reset. Nothing else changes: alarm time, timeout, alarm flag and second are kept |
| `AlarmClockProperties.LongPressRule` | digital_clock.c:83-87 | A release of 1000 ms or more clears the pending flag, toggles edit mode and sets the timeout to the reading plus 5000. Nothing else changes |
| `AlarmClockProperties.AlarmFieldsWrap` | digital_clock.c:103-106 | 23 up is 0, 0 down is 23, 59 up is 0 and 0 down is 59, and each edit undoes the opposite one |
| `AlarmClockProperties.EditAlarmRule` | digital_clock.c:102-112 | In edit mode the alarm stays valid, and the timeout becomes five seconds after the last held edit button. The mode stays open exactly when the check's reading does not pass the timeout. Each field moves only by its own buttons, and nothing else changes |
| `AlarmClockProperties.TimeoutExitRule` | digital_clock.c:109-112 | An edit within five seconds of the check keeps edit mode open, and a check past the timeout with no edit closes it |
| `AlarmClockProperties.AcknowledgeRule` | digital_clock.c:92-100 | Any LOW pin silences the alarm, no LOW pin changes nothing, and nothing else ever changes |
| `AlarmClockProperties.TriggerRule` | digital_clock.c:122-133 | The alarm becomes active only when due (not in edit mode, hour and minute match, second 0, previous second not 0), and the second is always remembered |
| `AlarmClockProperties.LoopAlarmActive` | digital_clock.c:92-133 | After a call the alarm sounds exactly when it sounded with no button held, or when it fell due in this call |
| `AlarmClockProperties.FiresOncePerMinute` | digital_clock.c:122-133 | Two calls in a row at second 0 raise the alarm at most in the first; the second can only silence it |
| `AlarmClockProperties.ButtonsKeepSecond` | digital_clock.c:60-119 | Handling the buttons never changes the remembered second |
| `AlarmClockProperties.NoTriggerWhileEditing` | digital_clock.c:122 | A silent alarm cannot go off in a call that is in edit mode at the alarm check |
| `AlarmClockProperties.CommandsOnlyOutsideEdit` | digital_clock.c:71-118 | In edit mode a call asks the RTC for nothing. Outside it, it asks for the press's reset followed by the time-setting commands. A reset is requested exactly on a short release outside edit mode |

## Left out

- The `I2cLcd` driver (`digital_clock.py:7-53`) and every display call in both programs are pure output. The row texts of the Python program are modelled as functions (`ClockRow`, `ModeRow`, `StopwatchRow`), but nothing records what is written, when, or the transient `! SYNC SYSTEM !`, `00:00:00`, `Time reset!` and `ALARM!` rows.
- Pin, I2C and RTC setup, the splash screen, `setup()`, and every `time.sleep` and `delay`. Delays only consume time; their effect is that later counter readings are passed in.
- Wrap-around of `time.ticks_ms`/`ticks_diff` and overflow of the unsigned `millis()`, including `millis() + 5000`. Readings are unbounded non-decreasing naturals. The model therefore does not capture what happens with a cleared mark (`last_tick = 0`) once the counter is past half of its period, where `ticks_diff` turns negative.
- `rtc.datetime()` in the Python program and `rtc.now()` in the C program are parameters, required to carry a valid hour, minute and second (`Controller.Step` and `AlarmController.Loop` require it).
- `DigitalClock.Debounce` has no contract of its own: it is the pin test `level == 0`, its 0.2 s sleep is a delay, and nothing further can be said of it.
- RTClib date arithmetic (`rtc.now`, `rtc.adjust`, `TimeSpan`, the build-time `DateTime`). The C model returns the adjustments as `RtcCommand`s, and takes the time read at the top of `loop()` as a parameter.
- `tone`, `noTone` and `Serial.println`.
- The floating-point division of the stopwatch readout is integer division on naturals. This is what `int()` gives for a non-negative total, up to float rounding, which is not modelled.
- `AlarmClock.ModeButton`: one reading of the counter serves both `millis()` calls of one release (lines 68 and 85); nothing delays between them.
- `AlarmClock.NextHour`, `AlarmClock.NextMinute`: the body uses Dafny's Euclidean `%` for C's truncating `%`. The two agree on the non-negative operands these functions receive, but since both sides would be Dafny's `%`, that agreement is not a stated contract.
- `AlarmClock.AlarmController.Loop`: each pin is read once per call. The sketch reads the pins again at lines 92-94 and 103-118, after delays; a button that changes level between those reads is not modelled.
- `DigitalClockProperties.FullDayReturns`: takes the day length as a parameter required to equal 86400, so that the verifier does not unfold 86400 ticks one by one.
