/**
 * IntervalTimer: a stopwatch over game time.
 *
 * The timer keeps one number, the time at which it was started, or the
 * sentinel -1 when it is invalidated (the state it is created in). The game
 * clock is not read from ambient state: every member that needs it takes the
 * current time `now` as a parameter. Times are modelled as `real`.
 */
module IntervalTimers {

  /** The timestamp of an invalidated (never started) timer. */
  const Invalidated: real := -1.0

  /** What GetElapsedTime reports for a timer that has not started. */
  const VeryLargeElapsed: real := 99999.9

  /** The calls that overwrite the timestamp, each with the clock reading at the call. */
  datatype Mutator = Reset(now: real) | Start(now: real) | Invalidate

  /** The timestamp a mutator call leaves behind; it does not depend on the previous one. */
  function After(m: Mutator): real
  {
    match m
    case Reset(now) => now
    case Start(now) => now
    case Invalidate => Invalidated
  }

  /** The timestamp after running `calls`, in order, on a timer whose timestamp is `timestamp`. */
  function Run(timestamp: real, calls: seq<Mutator>): real
    decreases |calls|
  {
    if calls == [] then timestamp else Run(After(calls[0]), calls[1..])
  }

  /** Running two call sequences one after the other is running their concatenation. */
  lemma {:induction false} RunAppend(timestamp: real, p: seq<Mutator>, s: seq<Mutator>)
    ensures Run(timestamp, p + s) == Run(Run(timestamp, p), s)
    decreases |p|
  {
    if p == [] {
      assert p + s == s;
    } else {
      assert (p + s)[0] == p[0];
      assert (p + s)[1..] == p[1..] + s;
      RunAppend(After(p[0]), p[1..], s);
    }
  }

  /** The timer keeps no history: only the most recent mutator call decides its state. */
  lemma {:induction false} LastCallDecides(timestamp: real, calls: seq<Mutator>)
    ensures Run(timestamp, calls) == if calls == [] then timestamp else After(calls[|calls| - 1])
  {
    if calls != [] {
      var n := |calls| - 1;
      assert calls == calls[..n] + [calls[n]];
      RunAppend(timestamp, calls[..n], [calls[n]]);
    }
  }

  /**
   * After any history of calls on a fresh timer, the timer has started exactly
   * when the last call was Start or Reset at a positive clock reading.
   */
  lemma {:induction false} StartedAfterHistory(calls: seq<Mutator>)
    ensures Run(Invalidated, calls) > 0.0 <==>
              calls != [] && !calls[|calls| - 1].Invalidate? && calls[|calls| - 1].now > 0.0
  {
    LastCallDecides(Invalidated, calls);
  }

  /** Start and Reset are interchangeable at any point of any history. */
  lemma StartResetInterchangeable(timestamp: real, p: seq<Mutator>, now: real, s: seq<Mutator>)
    ensures Run(timestamp, p + [Start(now)] + s) == Run(timestamp, p + [Reset(now)] + s)
  {
    RunAppend(timestamp, p + [Start(now)], s);
    RunAppend(timestamp, p + [Reset(now)], s);
    LastCallDecides(timestamp, p + [Start(now)]);
    LastCallDecides(timestamp, p + [Reset(now)]);
  }

  /** A second Invalidate right after a first one changes nothing, whatever follows. */
  lemma InvalidateIdempotent(timestamp: real, p: seq<Mutator>, s: seq<Mutator>)
    ensures Run(timestamp, p + [Invalidate, Invalidate] + s) == Run(timestamp, p + [Invalidate] + s)
  {
    RunAppend(timestamp, p + [Invalidate, Invalidate], s);
    RunAppend(timestamp, p + [Invalidate], s);
    LastCallDecides(timestamp, p + [Invalidate, Invalidate]);
    LastCallDecides(timestamp, p + [Invalidate]);
  }

  class IntervalTimer {
    /** Start time, or Invalidated. */
    var timestamp: real

    /** A new timer is invalidated: not started, and "very long ago" for every clock reading. */
    constructor ()
      ensures timestamp == Invalidated
      ensures !HasStarted()
      ensures forall now :: GetElapsedTime(now) == VeryLargeElapsed
    {
      timestamp := Invalidated;
    }

    /** Restart measuring from `now`; identical to Start. */
    method Reset(now: real)
      modifies this
      ensures timestamp == After(Mutator.Reset(now)) == now
      ensures now > 0.0 ==> HasStarted() && forall later :: GetElapsedTime(later) == later - now
      ensures now <= 0.0 ==> !HasStarted() && forall later :: GetElapsedTime(later) == VeryLargeElapsed
    {
      timestamp := now;
    }

    /** Start measuring from `now`; identical to Reset. */
    method Start(now: real)
      modifies this
      ensures timestamp == After(Mutator.Start(now)) == now
      ensures now > 0.0 ==> HasStarted() && forall later :: GetElapsedTime(later) == later - now
      ensures now <= 0.0 ==> !HasStarted() && forall later :: GetElapsedTime(later) == VeryLargeElapsed
    {
      timestamp := now;
    }

    /**
     * Back to the "never started" state, whatever the state was. The
     * comparisons then measure from the sentinel time -1, not from the
     * very large elapsed time GetElapsedTime reports.
     */
    method Invalidate()
      modifies this
      ensures timestamp == After(Mutator.Invalidate) == Invalidated
      ensures !HasStarted()
      ensures forall now :: GetElapsedTime(now) == VeryLargeElapsed
      ensures forall now, d :: IsGreaterThan(now, d) <==> now + 1.0 > d
      ensures forall now, d :: IsLessThan(now, d) <==> now + 1.0 < d
    {
      timestamp := Invalidated;
    }

    /** Started iff the stored start time is a positive clock reading; the sentinel never is. */
    function HasStarted(): (started: bool)
      reads this
      ensures started <==> timestamp > 0.0
      ensures timestamp == Invalidated ==> !started
    {
      timestamp > 0.0
    }

    /**
     * Time since the start, or VeryLargeElapsed if the timer has not started.
     * Only for a started timer does it agree with IsLessThan and IsGreaterThan.
     */
    function GetElapsedTime(now: real): (elapsed: real)
      reads this
      ensures !HasStarted() ==> elapsed == VeryLargeElapsed
      ensures HasStarted() ==> timestamp + elapsed == now
      ensures HasStarted() ==> forall d ::
                (IsLessThan(now, d) <==> elapsed < d) && (IsGreaterThan(now, d) <==> elapsed > d)
    {
      if HasStarted() then now - timestamp else VeryLargeElapsed
    }

    /** Whether `now` is still before timestamp + duration; HasStarted is not consulted. */
    function IsLessThan(now: real, duration: real): (less: bool)
      reads this
      ensures less <==> now < timestamp + duration
      ensures timestamp == Invalidated ==> (less <==> now + 1.0 < duration)
    {
      now - timestamp < duration
    }

    /** Whether `now` is past timestamp + duration; HasStarted is not consulted. */
    function IsGreaterThan(now: real, duration: real): (greater: bool)
      reads this
      ensures greater <==> now > timestamp + duration
      ensures greater ==> !IsLessThan(now, duration)
      ensures timestamp == Invalidated ==> (greater <==> now + 1.0 > duration)
    {
      now - timestamp > duration
    }
  }
}
