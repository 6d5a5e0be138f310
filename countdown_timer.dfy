/**
 * CountdownTimer: a deadline over game time.
 *
 * The timer keeps the deadline (or the sentinel -1 when it is invalidated)
 * and the length it was last armed with. Start(d) arms it for d seconds and
 * records d; Reset re-arms it with the recorded length; Invalidate clears the
 * deadline only. An invalidated timer counts as elapsed. The current game
 * time is a `now` parameter; times are modelled as `real`.
 */
module CountdownTimers {

  /** The deadline of an invalidated timer. */
  const Invalidated: real := -1.0

  /** The calls that overwrite the timer's fields, each with the clock reading at the call. */
  datatype Mutator = Reset(now: real) | Start(now: real, duration: real) | Invalidate

  /** The two fields of a timer, as a value. */
  datatype Fields = Fields(timestamp: real, duration: real)

  /** The fields of a newly constructed timer. */
  const Fresh: Fields := Fields(Invalidated, 0.0)

  /** The fields a mutator call leaves behind. */
  function After(f: Fields, m: Mutator): Fields
  {
    match m
    case Reset(now) => f.(timestamp := now + f.duration)
    case Start(now, d) => Fields(now + d, d)
    case Invalidate => f.(timestamp := Invalidated)
  }

  /** The fields after running `calls`, in order, on a timer whose fields are `f`. */
  function Run(f: Fields, calls: seq<Mutator>): Fields
    decreases |calls|
  {
    if calls == [] then f else Run(After(f, calls[0]), calls[1..])
  }

  /**
   * Reference definition: the duration passed to the most recent Start in
   * `calls`, or `initial` if there is none.
   */
  function LastStartDuration(initial: real, calls: seq<Mutator>): real
    decreases |calls|
  {
    if calls == [] then initial
    else match calls[|calls| - 1]
      case Start(_, d) => d
      case _ => LastStartDuration(initial, calls[..|calls| - 1])
  }

  /** Running two call sequences one after the other is running their concatenation. */
  lemma {:induction false} RunAppend(f: Fields, p: seq<Mutator>, s: seq<Mutator>)
    ensures Run(f, p + s) == Run(Run(f, p), s)
    decreases |p|
  {
    if p == [] {
      assert p + s == s;
    } else {
      assert (p + s)[0] == p[0];
      assert (p + s)[1..] == p[1..] + s;
      RunAppend(After(f, p[0]), p[1..], s);
    }
  }

  /** Running `p` and then one more call. */
  lemma RunSnoc(f: Fields, p: seq<Mutator>, m: Mutator)
    ensures Run(f, p + [m]) == After(Run(f, p), m)
  {
    RunAppend(f, p, [m]);
  }

  /**
   * The stored duration is the one passed to the most recent Start; Reset and
   * Invalidate never change it.
   */
  lemma {:induction false} RunRetainsLastStartDuration(f: Fields, calls: seq<Mutator>)
    ensures Run(f, calls).duration == LastStartDuration(f.duration, calls)
    decreases |calls|
  {
    if calls != [] {
      var n := |calls| - 1;
      assert calls == calls[..n] + [calls[n]];
      RunSnoc(f, calls[..n], calls[n]);
      RunRetainsLastStartDuration(f, calls[..n]);
    }
  }

  /**
   * The deadline is set by the most recent call alone: cleared by Invalidate,
   * now + d by Start(d), and now + the last Start's duration by Reset.
   */
  lemma DeadlineAfterHistory(f: Fields, calls: seq<Mutator>)
    requires calls != []
    ensures Run(f, calls).timestamp ==
              match calls[|calls| - 1]
              case Invalidate => Invalidated
              case Start(now, d) => now + d
              case Reset(now) => now + LastStartDuration(f.duration, calls)
  {
    var n := |calls| - 1;
    assert calls == calls[..n] + [calls[n]];
    RunSnoc(f, calls[..n], calls[n]);
    RunRetainsLastStartDuration(f, calls[..n]);
  }

  /**
   * After any history on a new timer, the timer has started exactly when the
   * last call armed it with a positive deadline: Start(d) at `now` with
   * now + d > 0, or Reset at `now` with now + the last Start's duration > 0.
   */
  lemma StartedAfterHistory(calls: seq<Mutator>)
    ensures Run(Fresh, calls).timestamp > 0.0 <==>
              calls != [] &&
              match calls[|calls| - 1]
              case Invalidate => false
              case Start(now, d) => now + d > 0.0
              case Reset(now) => now + LastStartDuration(0.0, calls) > 0.0
  {
    if calls != [] {
      DeadlineAfterHistory(Fresh, calls);
    }
  }

  /** Start(d), then Invalidate, then Reset re-arms the timer with d, whatever came before. */
  lemma StartInvalidateResetRearms(f: Fields, p: seq<Mutator>, t0: real, d: real, t1: real)
    ensures Run(f, p + [Start(t0, d), Invalidate, Reset(t1)]) == Fields(t1 + d, d)
  {
    assert p + [Start(t0, d), Invalidate, Reset(t1)] == p + [Start(t0, d)] + [Invalidate] + [Reset(t1)];
    RunSnoc(f, p, Start(t0, d));
    RunSnoc(f, p + [Start(t0, d)], Invalidate);
    RunSnoc(f, p + [Start(t0, d)] + [Invalidate], Reset(t1));
  }

  /** A second Invalidate right after a first one changes nothing, whatever follows. */
  lemma InvalidateIdempotent(f: Fields, p: seq<Mutator>, s: seq<Mutator>)
    ensures Run(f, p + [Invalidate, Invalidate] + s) == Run(f, p + [Invalidate] + s)
  {
    RunAppend(f, p + [Invalidate, Invalidate], s);
    RunAppend(f, p + [Invalidate], s);
    RunAppend(f, p, [Invalidate, Invalidate]);
    RunAppend(f, p, [Invalidate]);
  }

  class CountdownTimer {
    /** Deadline, or Invalidated. */
    var timestamp: real
    /** Length the timer was last armed with by Start. */
    var duration: real

    function Snapshot(): Fields
      reads this
    {
      Fields(timestamp, duration)
    }

    /** A new timer is invalidated, reports duration 0, and counts as elapsed. */
    constructor ()
      ensures Snapshot() == Fresh
      ensures !HasStarted() && GetCountdownDuration() == 0.0
      ensures forall now :: now > Invalidated ==> IsElapsed(now)
    {
      timestamp := Invalidated;
      duration := 0.0;
    }

    /** Re-arm with the stored duration, which is left as it was. */
    method Reset(now: real)
      modifies this
      ensures Snapshot() == After(old(Snapshot()), Mutator.Reset(now))
      ensures timestamp == now + duration && duration == old(duration)
      ensures GetRemainingTime(now) == duration && GetElapsedTime(now) == 0.0
      ensures IsElapsed(now) <==> duration < 0.0
    {
      timestamp := now + duration;
    }

    /** Arm for `d` seconds from `now` and record `d`; a negative `d` is accepted. */
    method Start(now: real, d: real)
      modifies this
      ensures Snapshot() == After(old(Snapshot()), Mutator.Start(now, d))
      ensures timestamp == now + d && duration == d
      ensures GetRemainingTime(now) == d && GetElapsedTime(now) == 0.0
      ensures IsElapsed(now) <==> d < 0.0
      ensures HasStarted() <==> now + d > 0.0
      ensures forall later :: GetElapsedTime(later) == later - now
    {
      timestamp := now + d;
      duration := d;
    }

    /** Clear the deadline only; the stored duration stays for a later Reset. */
    method Invalidate()
      modifies this
      ensures Snapshot() == After(old(Snapshot()), Mutator.Invalidate)
      ensures timestamp == Invalidated && duration == old(duration)
      ensures !HasStarted() && GetCountdownDuration() == 0.0
      ensures forall now :: now > Invalidated ==> IsElapsed(now)
    {
      timestamp := Invalidated;
    }

    /** Started iff the deadline lies after clock time 0; the sentinel never does. */
    function HasStarted(): (started: bool)
      reads this
      ensures started <==> GetRemainingTime(0.0) > 0.0
      ensures timestamp == Invalidated ==> !started
    {
      timestamp > 0.0
    }

    /**
     * Whether the deadline has passed; HasStarted is not consulted, so an
     * invalidated timer is elapsed at every clock reading past -1.
     */
    function IsElapsed(now: real): (elapsed: bool)
      reads this
      ensures elapsed <==> GetRemainingTime(now) < 0.0
      ensures timestamp == Invalidated ==> (elapsed <==> now > Invalidated)
    {
      now > timestamp
    }

    /** Time since the timer was armed, past the deadline too. */
    function GetElapsedTime(now: real): (elapsed: real)
      reads this
      ensures elapsed + GetRemainingTime(now) == duration
    {
      now - timestamp + duration
    }

    /** Time left until the deadline; negative once it has passed. */
    function GetRemainingTime(now: real): (remaining: real)
      reads this
      ensures now + remaining == timestamp
    {
      timestamp - now
    }

    /** The length the timer was armed with, or 0 when it has not started. */
    function GetCountdownDuration(): (d: real)
      reads this
      ensures HasStarted() ==> d == duration
      ensures !HasStarted() ==> d == 0.0
    {
      if timestamp > 0.0 then duration else 0.0
    }
  }
}
