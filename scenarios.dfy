/**
 * Client code driving both timers through concrete clock readings, the way a
 * script calls them from one game tick to the next. Each method's contract
 * is what the caller can rely on from the timers' own contracts alone.
 */
module TimerScenarios {
  import IntervalTimers
  import CountdownTimers

  /** Start(5) at time 100: 5 seconds left and not elapsed; at 106 elapsed, 1 second overdue. */
  method ArmAndExpire() returns (leftAtStart: real, elapsedAtStart: bool, leftLater: real, elapsedLater: bool)
    ensures leftAtStart == 5.0 && !elapsedAtStart
    ensures leftLater == -1.0 && elapsedLater
  {
    var timer := new CountdownTimers.CountdownTimer();
    timer.Start(100.0, 5.0);
    leftAtStart := timer.GetRemainingTime(100.0);
    elapsedAtStart := timer.IsElapsed(100.0);
    leftLater := timer.GetRemainingTime(106.0);
    elapsedLater := timer.IsElapsed(106.0);
  }

  /** Start(3) at time 0, Invalidate, Reset at time 10: armed again for 3 seconds. */
  method ResetAfterInvalidateReusesDuration() returns (left: real, length: real, started: bool)
    ensures left == 3.0 && length == 3.0 && started
  {
    var timer := new CountdownTimers.CountdownTimer();
    timer.Start(0.0, 3.0);
    timer.Invalidate();
    timer.Reset(10.0);
    left := timer.GetRemainingTime(10.0);
    length := timer.GetCountdownDuration();
    started := timer.HasStarted();
  }

  /**
   * Reset on a timer that was never started arms it for 0 seconds: its
   * deadline is the reset time itself, so it is not yet elapsed at that time
   * and is elapsed at any later one.
   */
  method ResetBeforeAnyStart(now: real, later: real) returns (elapsedNow: bool, elapsedLater: bool)
    requires now < later
    ensures !elapsedNow && elapsedLater
  {
    var timer := new CountdownTimers.CountdownTimer();
    timer.Reset(now);
    elapsedNow := timer.IsElapsed(now);
    elapsedLater := timer.IsElapsed(later);
  }

  /**
   * An invalidated stopwatch at time 5: GetElapsedTime reports the very large
   * sentinel, while IsGreaterThan measures from the stored -1, so it holds for
   * 1 second but not for 10 even though the reported elapsed time exceeds 10.
   */
  method InvalidatedComparisons() returns (elapsed: real, greaterThanOne: bool, greaterThanTen: bool)
    ensures elapsed == 99999.9 && elapsed > 10.0
    ensures greaterThanOne && !greaterThanTen
  {
    var timer := new IntervalTimers.IntervalTimer();
    timer.Start(2.0);
    timer.Invalidate();
    elapsed := timer.GetElapsedTime(5.0);
    greaterThanOne := timer.IsGreaterThan(5.0, 1.0);
    greaterThanTen := timer.IsGreaterThan(5.0, 10.0);
  }

  /** A stopwatch started at t0 > 0 reports t1 - t0 at a later reading t1, whichever of Start or Reset began it. */
  method StartOrResetMeasureAlike(t0: real, t1: real) returns (byStart: real, byReset: real)
    requires 0.0 < t0 <= t1
    ensures byStart == byReset == t1 - t0
    ensures byStart >= 0.0
  {
    var a := new IntervalTimers.IntervalTimer();
    var b := new IntervalTimers.IntervalTimer();
    a.Start(t0);
    b.Reset(t0);
    byStart := a.GetElapsedTime(t1);
    byReset := b.GetElapsedTime(t1);
  }
}
