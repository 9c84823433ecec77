# Countdown timer: a verified model of the Timer component

The countdown timer widget keeps three numeric fields (hour, minute,
second), a running flag (`timerStatus`) and an alert preference (`alert`).
It has five handlers:

- An edit of a field accepts only text made of digits. It stops the
  countdown and sets that field.
- A tick takes one second off the total and splits the rest back into
  hours, minutes and seconds. At zero, it stops the countdown, zeroes the
  fields and plays the alert sound if the alert is on.
- The reset button zeroes the fields and stops the countdown.
- The start/pause button flips the running flag, unless no time is set.
- The sound icon flips the alert preference.

Each field shows its value as decimal text padded with '0' to two
characters.

The model has four modules:

- `Digits` (digits.dfy) covers decimal text. It has the input pattern
  `/^[0-9]+$/` (`IsDigitString`), the value the unary `+` gives a digit
  string (`NumericValue`), `toString` (`ToDecimal`), `padStart`
  (`PadStart`) and the field display (`Display`).
- `Duration` (duration.dfy) covers the total in seconds (`TotalSeconds`)
  and its split by division and remainder into canonical hours, minutes
  and seconds (`Split`).
- `Countdown` (countdown.dfy) is the state machine as values. It has the
  state record `TimerState`, one step function per handler, and the
  lemmas about them.
- `TimerComponent` (timer.dfy) holds the class `Timer`. Its fields are the
  component's own. It has one method per handler, and each method updates
  the fields in place, in the order the component does. Each method's
  contract says that the new state is the matching `Countdown` step applied
  to the old state.

The sound is a ghost counter, `alertsPlayed`. Playing the alert adds one to
it, so "plays once" and "plays not at all" become statements about that
counter.

A tick (`Timer.FormatTime`) may only be called while `timerStatus` is set.
The component installs its one-second interval only in that case
(src/Timer/Timer.tsx:87-91). Timing is not modelled. A tick is one explicit
call.

## Model

| member | source | states |
|---|---|---|
| `Digits.PatternCharacterClass` | src/Timer/Timer.tsx:6 | `IsDigitString`, the input pattern `/^[0-9]+$/`, holds exactly for non-empty strings all of whose characters are among the ten characters "0123456789". |
| `Digits.NumericValue` | src/Timer/Timer.tsx:37-41 | The unary `+value` of a digit string, read most significant digit first in base 10. A string of k digits has a value below 10^k. |
| `Digits.NumericValueFromFront` | src/Timer/Timer.tsx:37-41 | The first digit of a digit string is worth its value times 10 to the number of digits after it, plus the value of the rest. |
| `Digits.ToDecimal` | src/Timer/Timer.tsx:111 | `toString` of a field gives a non-empty digit string. It has no leading zero, is one character long exactly when the value is below 10, and reads back as the same number. |
| `Digits.PadStart` | src/Timer/Timer.tsx:111 | `padStart(width, fill)` gives a string whose length is the larger of width and the length of t. It ends with `t`, and every character in front of `t` is the fill. |
| `Digits.Display` | src/Timer/Timer.tsx:111-121 | A field's displayed text matches the input pattern and is at least two characters long. It is exactly two characters long when the value is below 100, has no zero in front of a longer value, and reads back as the field's value. Together with `Digits.ToDecimalOfCanonical` this fixes the text uniquely. |
| `Digits.LeadingZerosIgnored` | src/Timer/Timer.tsx:37-41 | Zeros in front of a digit string do not change the number `+value` gives. |
| `Digits.ToDecimalOfCanonical` | src/Timer/Timer.tsx:37-41 | A digit string with no superfluous leading zero is the `toString` of its own value. |
| `Duration.TotalSeconds` | src/Timer/Timer.tsx:28 | The total is `hour*3600 + minute*60 + second`, the same as converting hours to minutes and then minutes to seconds. Nothing bounds minute or second. |
| `Duration.TotalIsZero` | src/Timer/Timer.tsx:28 | The total is 0 exactly when hour, minute and second are all 0. |
| `Duration.Split` | src/Timer/Timer.tsx:62-65 | The hours/minutes/seconds split gives minutes and seconds below 60, and `hour*3600 + minute*60 + second` gives back the total. |
| `Duration.SplitOfCanonical` | src/Timer/Timer.tsx:28 | A clock with minutes and seconds below 60 is the only split of its total: recombining and splitting again gives it back. |
| `Countdown.StopStep` | src/Timer/Timer.tsx:19-26 | The inner `reset` clears the running flag and changes nothing else. |
| `Countdown.EditStep` | src/Timer/Timer.tsx:30-45 | Text that does not match `/^[0-9]+$/` leaves the whole state unchanged, the running flag included. Matching text stops the countdown and sets the targeted field to the text's value. The other two fields, the alert preference and the sound count stay unchanged. |
| `Countdown.TickStep` | src/Timer/Timer.tsx:47-70 | With a positive total, a tick leaves the total one second lower with minutes and seconds below 60, and the flags and sound count unchanged. At total 0, it zeroes the fields, stops the countdown and plays the sound once if the alert is on, or not at all if it is off. |
| `Countdown.ResetStep` | src/Timer/Timer.tsx:72-77 | From any state, the reset button gives 0:0:0 and stops the countdown. The alert preference and sound count stay unchanged. |
| `Countdown.ToggleRunStep` | src/Timer/Timer.tsx:79-85 | At total 0 the start/pause button changes nothing. Otherwise it flips the running flag. It never changes any field. |
| `Countdown.ToggleAlertStep` | src/Timer/Timer.tsx:105 | The sound icon flips the alert preference and changes nothing else. |
| `Countdown.ExpiringTickIsReset` | src/Timer/Timer.tsx:51-59 | A tick at total 0 is the reset button's effect plus one alert sound if the alert is on. |
| `Countdown.TickSplitsRemaining` | src/Timer/Timer.tsx:62-69 | A positive tick stores exactly the split of the old total minus one. The fields come from one recomputed count, even when the typed values were out of range, such as 90 seconds. |
| `Countdown.TicksCountDown` | src/Timer/Timer.tsx:47-70 | For k up to the total, k ticks lower the total by k. They keep the countdown running and the alert preference unchanged, and play nothing. |
| `Countdown.CountdownReachesZero` | src/Timer/Timer.tsx:47-70 | From a running state with n seconds set, n ticks reach 0:0:0. The countdown is still running and no sound has played. |
| `Countdown.CountdownExpires` | src/Timer/Timer.tsx:51-59 | From a running state with n seconds set, tick n + 1 stops the countdown at 0:0:0. It plays the sound once if the alert is on, or not at all if it is off. |
| `Countdown.EditWithDisplayedText` | src/Timer/Timer.tsx:111-121 | Typing back a field's displayed text leaves every field as it was, and only stops the countdown. |
| `Countdown.EditIgnoresLeadingZeros` | src/Timer/Timer.tsx:37-41 | An edit with leading zeros does what the edit without them does, so "007" sets the field to 7. |
| `Countdown.NoStartAfterReset` | src/Timer/Timer.tsx:79-82 | After the reset button, the start button does nothing: an empty timer cannot start. |
| `Countdown.ToggleRunTwice` | src/Timer/Timer.tsx:79-85 | From any state, pressing start/pause twice gives back the same state. With no time set, both presses do nothing. |
| `TimerComponent.Timer.constructor` | src/Timer/Timer.tsx:11-17 | The state starts at 0:0:0, stopped, alert on, and no sound played. |
| `TimerComponent.Timer.TotalTimeInSeconds` | src/Timer/Timer.tsx:28 | `getTotalTimeInSeconds` on the component's current fields is the total of its state. |
| `TimerComponent.Timer.Reset` | src/Timer/Timer.tsx:19-26 | The new state is `StopStep` of the old state. |
| `TimerComponent.Timer.PlayAlert` | src/Hooks/useSound.tsx:6-10 | Playing the sound adds one to the sound count and changes nothing else. |
| `TimerComponent.Timer.HandleOnChange` | src/Timer/Timer.tsx:30-45 | The new state is `EditStep` of the old state, the field and the text. |
| `TimerComponent.Timer.FormatTime` | src/Timer/Timer.tsx:47-70 | The new state is `TickStep` of the old state. Only the interval calls it, so the countdown must be running. |
| `TimerComponent.Timer.HandleReset` | src/Timer/Timer.tsx:72-77 | The new state is `ResetStep` of the old state. |
| `TimerComponent.Timer.HandleChangeTimerStatus` | src/Timer/Timer.tsx:79-85 | The new state is `ToggleRunStep` of the old state. |
| `TimerComponent.Timer.ToggleAlert` | src/Timer/Timer.tsx:105 | The new state is `ToggleAlertStep` of the old state. |
| `TimerComponent.Timer.FieldText` | src/Timer/Timer.tsx:111-121 | An input's shown text matches the input pattern and is at least two characters long. It is exactly two characters long when the field's value is below 100, has no zero in front of a longer value, and reads back as the field's value. |

## Left out

- The scheduling is not modelled: `setInterval`/`clearInterval`, the effect at src/Timer/Timer.tsx:87-101 and the `intervalTimeId` ref. A tick is an explicit call that needs `timerStatus`, and clearing the interval is not modelled.
- React's batching of state updates and closures over stale state are left out. Each handler is one atomic update. One visible effect is lost. `alert` is not in the effect's dependency list (src/Timer/Timer.tsx:101), so the interval keeps the `formatTime` from the last change of a field or of `timerStatus`. Toggling mute while 0:00:00 is shown and the countdown still runs therefore does not change whether the expiring tick plays the sound. The model reads the current `alert` (`Countdown.CountdownExpires`).
- The audio element in src/Hooks/useSound.tsx (`play`, `pause` and the teardown) is left out. Playing the sound is a ghost counter, and `pauseAudio` is never called by the core.
- src/ProgressBar/ProgressBar.tsx is presentation only: a CSS gradient built from its props. It receives its degree value as a prop and computes none, so no degree is modelled.
- JSX, the SVG icons and the choice between icons are not modelled.
- `TimerComponent.Timer.FormatTime`: `formatTime`'s `intervalTime` parameter is fixed at its default of 1 (`Countdown.IntervalTime`), because the component never passes another value.
- `Digits.NumericValue`: JavaScript's double-precision numbers are not modelled; here the fields and the total are unbounded naturals. For digit strings whose value exceeds 2^53, `+value` rounds. Above 2^53 a double holds only even integers, so `totalDiff` rounds. Above 2^54 it equals the total. Between 2^53 and 2^54 it equals the total or the total minus 2. The countdown therefore stalls for every total above 2^53 + 2, and `Countdown.CountdownReachesZero` does not hold above 2^53. A digit string whose value exceeds the largest double (about 1.8·10^308) becomes `Infinity`. A tick then sets the hour to `Infinity` and the minute and second to `NaN` (src/Timer/Timer.tsx:62-65). `toString` switching to exponent notation for huge numbers is not modelled either.
