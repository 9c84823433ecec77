/**
 * The Timer component's state and handlers, with the rendering, the
 * interval scheduling and the audio element taken away. Each handler
 * updates the fields in place, in the order the component's handler does,
 * and promises that the new state is the matching step of the Countdown
 * state machine applied to the old state.
 */
module TimerComponent {
  import opened Digits
  import Duration
  import Countdown

  class Timer {
    var hour: nat
    var minute: nat
    var second: nat
    /** True while the countdown runs (the interval is installed). */
    var timerStatus: bool
    /** Whether the alert sound plays when the countdown expires. */
    var alert: bool
    /** How many times the alert sound has been played. */
    ghost var alertsPlayed: nat

    /** The component's state as a value. */
    ghost function State(): Countdown.TimerState
      reads this
    {
      Countdown.TimerState(hour, minute, second, timerStatus, alert, alertsPlayed)
    }

    /** The initial values of the component's state hooks. */
    constructor ()
      ensures State() == Countdown.Initial
    {
      hour, minute, second := 0, 0, 0;
      timerStatus := false;
      alert := true;
      alertsPlayed := 0;
    }

    /** `getTotalTimeInSeconds`: the total of the current state. */
    function TotalTimeInSeconds(): (total: nat)
      reads this
      ensures total == Countdown.Total(State())
    {
      Duration.TotalSeconds(hour, minute, second)
    }

    /** The inner `reset`: stop the countdown; the fields stay as they are. */
    method Reset()
      modifies this
      ensures State() == Countdown.StopStep(old(State()))
    {
      if timerStatus {
        timerStatus := false;
      }
    }

    /** Play the alert sound once. */
    method PlayAlert()
      modifies this
      ensures State() == old(State()).(alertsPlayed := old(alertsPlayed) + 1)
    {
      alertsPlayed := alertsPlayed + 1;
    }

    /** The input fields' change handler. */
    method HandleOnChange(field: Countdown.Field, value: string)
      modifies this
      ensures State() == Countdown.EditStep(old(State()), field, value)
    {
      if !IsDigitString(value) {
        return;
      }
      Reset();
      match field
      case Hour => hour := NumericValue(value);
      case Minute => minute := NumericValue(value);
      case Second => second := NumericValue(value);
    }

    /**
     * One tick of the countdown. Only the interval calls it, and the
     * interval exists only while the countdown runs.
     */
    method FormatTime()
      requires timerStatus
      modifies this
      ensures State() == Countdown.TickStep(old(State()))
    {
      ghost var before := State();
      var totalTimeInSeconds := TotalTimeInSeconds();
      assert totalTimeInSeconds == Countdown.Total(before);
      var totalDiff := totalTimeInSeconds - Countdown.IntervalTime;
      if totalDiff < 0 {
        Reset();
        hour, minute, second := 0, 0, 0;
        ghost var cleared := State();
        assert cleared == Countdown.ResetStep(before);
        if alert {
          PlayAlert();
        }
        assert State() == cleared.(alertsPlayed := before.alertsPlayed + (if before.alert then 1 else 0));
        Countdown.ExpiringTickIsReset(before);
        return;
      }
      var split := Duration.Split(totalDiff);
      hour, minute, second := split.hour, split.minute, split.second;
      assert State() == before.(hour := split.hour, minute := split.minute, second := split.second);
    }

    /** The reset button. */
    method HandleReset()
      modifies this
      ensures State() == Countdown.ResetStep(old(State()))
    {
      Reset();
      hour, minute, second := 0, 0, 0;
    }

    /** The start/pause button. */
    method HandleChangeTimerStatus()
      modifies this
      ensures State() == Countdown.ToggleRunStep(old(State()))
    {
      if TotalTimeInSeconds() == 0 {
        return;
      }
      timerStatus := !timerStatus;
    }

    /** The sound icon. */
    method ToggleAlert()
      modifies this
      ensures State() == Countdown.ToggleAlertStep(old(State()))
    {
      alert := !alert;
    }

    /**
     * The text an input field shows: the field's decimal form padded with
     * '0' to two characters. It is digits only, reads back as the field's
     * value, is exactly two characters long when the value is below 100 and
     * has no zero in front of a longer value.
     */
    function FieldText(field: Countdown.Field): (text: string)
      reads this
      ensures IsDigitString(text) && |text| >= 2
      ensures NumericValue(text) == Countdown.FieldValue(State(), field)
      ensures |text| == 2 <==> Countdown.FieldValue(State(), field) < 100
      ensures |text| > 2 ==> text[0] != '0'
    {
      match field
      case Hour => Display(hour)
      case Minute => Display(minute)
      case Second => Display(second)
    }
  }
}
