/**
 * The timer's state machine as values: one state record and one step
 * function per handler of the component. The class in TimerComponent
 * updates its fields in place and promises, handler by handler, that the
 * new state is the step function applied to the old one; the properties
 * the timer promises are proved here, once, about the step functions.
 */
module Countdown {
  import opened Digits
  import opened Duration

  /** Which input field an edit is for: 'HOUR', 'MIN' or 'SEC'. */
  datatype Field = Hour | Minute | Second

  /**
   * The component's state: the three fields, whether the countdown runs
   * (timerStatus), whether the alert is on, and how many times the alert
   * sound has been played so far.
   */
  datatype TimerState = TimerState(
    hour: nat, minute: nat, second: nat,
    running: bool, alert: bool,
    alertsPlayed: nat)

  /** Seconds taken off by one tick (formatTime's default intervalTime). */
  const IntervalTime: nat := 1

  /** Fields at zero, countdown stopped, alert on, nothing played yet. */
  const Initial: TimerState := TimerState(0, 0, 0, false, true, 0)

  function Total(s: TimerState): nat {
    TotalSeconds(s.hour, s.minute, s.second)
  }

  function FieldValue(s: TimerState, f: Field): nat {
    match f
    case Hour => s.hour
    case Minute => s.minute
    case Second => s.second
  }

  /** Everything but the running flag is as in `s`. */
  predicate SameExceptRunning(r: TimerState, s: TimerState) {
    r.(running := s.running) == s
  }

  /** The inner `reset`: stop the countdown, leave the fields as they are. */
  function StopStep(s: TimerState): (r: TimerState)
    ensures !r.running && SameExceptRunning(r, s)
  {
    if s.running then s.(running := false) else s
  }

  /**
   * An edit of one field with the input's new text. Text that is not a
   * non-empty run of digits is ignored; otherwise the countdown stops and
   * the field takes the text's numeric value.
   */
  function EditStep(s: TimerState, field: Field, value: string): (r: TimerState)
    ensures !IsDigitString(value) ==> r == s
    ensures IsDigitString(value) ==>
      && !r.running
      && FieldValue(r, field) == NumericValue(value)
      && (forall f :: f != field ==> FieldValue(r, f) == FieldValue(s, f))
      && r.alert == s.alert
      && r.alertsPlayed == s.alertsPlayed
  {
    if !IsDigitString(value) then s
    else
      var stopped := StopStep(s);
      match field
      case Hour => stopped.(hour := NumericValue(value))
      case Minute => stopped.(minute := NumericValue(value))
      case Second => stopped.(second := NumericValue(value))
  }

  /**
   * One tick of the countdown. With time left, the total drops by one
   * second and is split afresh into canonical fields; at zero the countdown
   * stops, the fields are zeroed and the alert sounds once if it is on.
   * The zero case is stated with `Total(s) == 0`; for a state written with
   * literal zero fields, ExpiringTickIsReset gives the same facts in one
   * step, without unfolding the division in the positive case.
   */
  function TickStep(s: TimerState): (r: TimerState)
    ensures Total(s) > 0 ==>
      && Total(r) == Total(s) - 1
      && r.minute < 60 && r.second < 60
      && r.running == s.running
      && r.alert == s.alert
      && r.alertsPlayed == s.alertsPlayed
    ensures Total(s) == 0 ==>
      && r.hour == 0 && r.minute == 0 && r.second == 0
      && !r.running
      && r.alert == s.alert
      && r.alertsPlayed == s.alertsPlayed + (if s.alert then 1 else 0)
  {
    var totalDiff := Total(s) - IntervalTime;
    if totalDiff < 0 then
      var cleared := StopStep(s).(hour := 0, minute := 0, second := 0);
      if s.alert then cleared.(alertsPlayed := cleared.alertsPlayed + 1) else cleared
    else
      var c := Split(totalDiff);
      s.(hour := c.hour, minute := c.minute, second := c.second)
  }

  /** The reset button: stop the countdown and zero every field. */
  function ResetStep(s: TimerState): (r: TimerState)
    ensures r.hour == 0 && r.minute == 0 && r.second == 0 && !r.running
    ensures r.alert == s.alert && r.alertsPlayed == s.alertsPlayed
  {
    StopStep(s).(hour := 0, minute := 0, second := 0)
  }

  /** The start/pause button: flip the running flag, unless there is no time set. */
  function ToggleRunStep(s: TimerState): (r: TimerState)
    ensures SameExceptRunning(r, s)
    ensures r.running == (if Total(s) == 0 then s.running else !s.running)
  {
    if Total(s) == 0 then s else s.(running := !s.running)
  }

  /** The sound icon: flip the alert preference and nothing else. */
  function ToggleAlertStep(s: TimerState): (r: TimerState)
    ensures r.alert != s.alert
    ensures r.(alert := s.alert) == s
  {
    s.(alert := !s.alert)
  }

  /**
   * A tick with no time left does what the reset button does, and in
   * addition plays the alert if it is on.
   */
  lemma ExpiringTickIsReset(s: TimerState)
    requires Total(s) == 0
    ensures TickStep(s) == ResetStep(s).(alertsPlayed := s.alertsPlayed + (if s.alert then 1 else 0))
  {
  }

  /** The state after k ticks in a row. */
  function Ticks(s: TimerState, k: nat): TimerState
    decreases k
  {
    if k == 0 then s else TickStep(Ticks(s, k - 1))
  }

  /**
   * A positive tick leaves exactly the fields that Split gives for the new
   * total: recomputed from one count, never three counters decremented on
   * their own. So 1:00:90, which a user may type, ticks to 1:01:29. It
   * follows from TickStep's contract (canonical fields, total one lower)
   * together with SplitOfCanonical (a canonical clock is the split of its
   * total).
   */
  lemma TickSplitsRemaining(s: TimerState)
    requires Total(s) > 0
    ensures var r := TickStep(s); Clock(r.hour, r.minute, r.second) == Split(Total(s) - 1)
  {
    var r := TickStep(s);
    SplitOfCanonical(Clock(r.hour, r.minute, r.second));
  }

  /**
   * Up to the total, each tick takes one second off, keeps the countdown
   * running and plays nothing.
   */
  lemma {:induction false} TicksCountDown(s: TimerState, k: nat)
    requires k <= Total(s)
    ensures var t := Ticks(s, k);
      && Total(t) == Total(s) - k
      && t.running == s.running
      && t.alert == s.alert
      && t.alertsPlayed == s.alertsPlayed
    decreases k
  {
    if k > 0 {
      TicksCountDown(s, k - 1);
    }
  }

  /**
   * From a running state with n seconds set, n ticks reach 0:00:00 with
   * the countdown still running and no sound played.
   */
  lemma CountdownReachesZero(s: TimerState)
    requires s.running
    ensures var t := Ticks(s, Total(s));
      && t.hour == 0 && t.minute == 0 && t.second == 0
      && t.running
      && t.alertsPlayed == s.alertsPlayed
  {
    TicksCountDown(s, Total(s));
  }

  /**
   * Tick n + 1 is the one that expires: it stops the countdown, leaves
   * 0:00:00 and plays the alert once if it is on, not at all if it is off.
   */
  lemma CountdownExpires(s: TimerState)
    requires s.running
    ensures var u := Ticks(s, Total(s) + 1);
      && u.hour == 0 && u.minute == 0 && u.second == 0
      && !u.running
      && u.alert == s.alert
      && u.alertsPlayed == s.alertsPlayed + (if s.alert then 1 else 0)
  {
    var n := Total(s);
    TicksCountDown(s, n);
    assert Ticks(s, n + 1) == TickStep(Ticks(s, n));
  }

  /**
   * Typing back the text a field shows changes no field: the displayed,
   * zero-padded form reads back as the field's own value. The edit still
   * stops the countdown.
   */
  lemma EditWithDisplayedText(s: TimerState, f: Field)
    ensures EditStep(s, f, Display(FieldValue(s, f))) == StopStep(s)
  {
  }

  /** Leading zeros in an edit are ignored: "007" sets the field to 7. */
  lemma EditIgnoresLeadingZeros(s: TimerState, f: Field, zeros: string, digits: string)
    requires forall i :: 0 <= i < |zeros| ==> zeros[i] == '0'
    requires IsDigitString(digits)
    ensures EditStep(s, f, zeros + digits) == EditStep(s, f, digits)
  {
    LeadingZerosIgnored(zeros, digits);
  }

  /** After a reset the start button does nothing: an empty timer cannot start. */
  lemma NoStartAfterReset(s: TimerState)
    ensures ToggleRunStep(ResetStep(s)) == ResetStep(s)
  {
  }

  /**
   * Pressing start/pause twice returns to the same state: with time set the
   * flag flips back, and with none set both presses do nothing.
   */
  lemma ToggleRunTwice(s: TimerState)
    ensures ToggleRunStep(ToggleRunStep(s)) == s
  {
  }
}
