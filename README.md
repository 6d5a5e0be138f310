# MoreTimers game-time timers, modelled in Dafny

MoreTimers is a SourceMod extension that gives scripts two game-time timer
objects. This project models them and proves properties about them:

- `IntervalTimer` is a stopwatch. It stores one timestamp: the start time, or
  the sentinel `-1` once it is invalidated. It is created invalidated.
- `CountdownTimer` is a deadline. It stores the deadline (or `-1`) and the
  length it was last armed with. `Start(d)` arms it and records `d`. `Reset`
  re-arms it with the recorded length. `Invalidate` clears only the deadline.
  An invalidated countdown counts as elapsed.

Each C++ class becomes a Dafny class with the same fields as `real`s. The
mutators (`Reset`, `Start`, `Invalidate`) are methods with `modifies this`.
The const queries are functions that read the object. The engine clock
`gpGlobals->curtime` becomes an explicit `now: real` parameter on every member
that reads it. The sentinels are the constants `-1.0` and `99999.9`.

Each module also has a value-level model of a history of calls. `After` gives
the state one mutator call leaves. `Run` runs a sequence of calls in order.
Every mutator method's `ensures` ties the object's new fields to `After` of
the call (and, for the countdown, of its old fields), so the lemmas about
`Run` describe any sequence of calls on a real timer. `scenarios.dfy` holds client methods that drive the
timers through concrete clock readings.

The model keeps the source's quirks as they are:
- `IntervalTimer.Start` and `Reset` are the same operation.
- A start at clock `0` does not count as started.
- `IsLessThan` and `IsGreaterThan` compute from the raw timestamp, even when
  the timer is invalidated.
- `CountdownTimer.GetElapsedTime` and `IsElapsed` do not check `HasStarted`.
- The recorded duration survives `Invalidate`.

`Reset` on a countdown that was never started sets the deadline to exactly
`now`, because the stored duration is still 0 (extension.h:93, 98).
`IsElapsed` is the strict `now > deadline` (extension.h:119). So the timer is
not elapsed at that reading and is elapsed at any later one
(`TimerScenarios.ResetBeforeAnyStart`).

## Model

| member | source | states |
|---|---|---|
| IntervalTimers.IntervalTimer.constructor | extension.h:37-40 | a new stopwatch is invalidated: timestamp -1, not started, and GetElapsedTime is 99999.9 at every clock reading |
| IntervalTimers.IntervalTimer.Reset | extension.h:42-45 | timestamp becomes `now`; if `now > 0` the timer has started and later reports elapsed `later - now`; if `now <= 0` it reads as not started |
| IntervalTimers.IntervalTimer.Start | extension.h:47-50 | exactly the same new state and consequences as Reset |
| IntervalTimers.IntervalTimer.Invalidate | extension.h:52-55 | timestamp becomes -1 whatever it was; not started; elapsed is 99999.9; yet IsGreaterThan(d) is `now + 1 > d` and IsLessThan(d) is `now + 1 < d` |
| IntervalTimers.IntervalTimer.HasStarted | extension.h:57-60 | started iff the stored start time is positive, so never when invalidated; the constructor and Invalidate ensure `!HasStarted()`, Start/Reset ensure it exactly when `now > 0`, and StartedAfterHistory gives it after any history |
| IntervalTimers.IntervalTimer.GetElapsedTime | extension.h:62-66 | 99999.9 when not started; otherwise start time plus elapsed time is `now`, and elapsed agrees with IsLessThan/IsGreaterThan for every threshold |
| IntervalTimers.IntervalTimer.IsLessThan | extension.h:68-71 | true iff `now` is before start + duration, with no HasStarted check; for an invalidated timer that is `now + 1 < duration` |
| IntervalTimers.IntervalTimer.IsGreaterThan | extension.h:73-76 | true iff `now` is past start + duration, with no HasStarted check; never true together with IsLessThan; for an invalidated timer it is `now + 1 > duration` |
| IntervalTimers.RunAppend | extension.h:42-55 | running call sequence p and then s equals running p + s |
| IntervalTimers.LastCallDecides | extension.h:42-55 | after any non-empty sequence of Reset/Start/Invalidate calls, the timestamp is the one the last call sets; earlier history is forgotten |
| IntervalTimers.StartedAfterHistory | extension.h:37-60 | after any history on a new timer, HasStarted holds iff the last call was Start or Reset at a positive clock reading |
| IntervalTimers.StartResetInterchangeable | extension.h:42-50 | replacing a Start(now) by Reset(now) anywhere in any history gives the same final state |
| IntervalTimers.InvalidateIdempotent | extension.h:52-55 | Invalidate twice in a row is the same as once, whatever comes before and after |
| CountdownTimers.CountdownTimer.constructor | extension.h:90-94 | a new countdown has deadline -1 and duration 0; it is not started, reports duration 0, and is elapsed at every clock reading past -1 |
| CountdownTimers.CountdownTimer.Reset | extension.h:96-99 | deadline becomes `now +` stored duration; duration is unchanged; at `now` remaining is the duration, elapsed time is 0, and IsElapsed holds iff the duration is negative |
| CountdownTimers.CountdownTimer.Start | extension.h:101-105 | deadline `now + d` and duration `d`; at `now` remaining is `d` and elapsed time is 0; IsElapsed(now) iff `d < 0`; started iff `now + d > 0`; elapsed time at any later reading is `later - now` |
| CountdownTimers.CountdownTimer.Invalidate | extension.h:107-110 | deadline becomes -1 and duration is kept; not started, duration reported as 0, and elapsed at every clock reading past -1 |
| CountdownTimers.CountdownTimer.HasStarted | extension.h:112-115 | started iff the deadline lies after clock time 0, so never when invalidated; the constructor and Invalidate ensure `!HasStarted()`, Start ensures `HasStarted() <==> now + d > 0`, and CountdownTimers.StartedAfterHistory gives it after any history |
| CountdownTimers.CountdownTimer.IsElapsed | extension.h:117-120 | true iff remaining time is negative; for an invalidated timer, true iff `now > -1` |
| CountdownTimers.CountdownTimer.GetElapsedTime | extension.h:122-125 | elapsed time plus remaining time equals the stored duration at every clock reading |
| CountdownTimers.CountdownTimer.GetRemainingTime | extension.h:127-130 | `now` plus remaining time is the deadline |
| CountdownTimers.CountdownTimer.GetCountdownDuration | extension.h:132-136 | the stored duration when HasStarted, 0 otherwise |
| CountdownTimers.RunAppend | extension.h:96-110 | running call sequence p and then s equals running p + s |
| CountdownTimers.RunRetainsLastStartDuration | extension.h:96-110 | after any history, the stored duration is the one passed to the most recent Start, or the initial one if there was none |
| CountdownTimers.DeadlineAfterHistory | extension.h:96-110 | after any non-empty history the deadline is set by the last call alone: -1 after Invalidate, `now + d` after Start(d), `now +` the last Start's duration after Reset |
| CountdownTimers.StartedAfterHistory | extension.h:90-115 | after any history on a new countdown, it has started iff the last call was Start(d) at `now` with `now + d > 0`, or Reset at `now` with `now +` the last Start's duration (0 if none) `> 0` |
| CountdownTimers.StartInvalidateResetRearms | extension.h:96-110 | after any history, Start(d), Invalidate, Reset at t1 leave deadline `t1 + d` and duration `d` |
| CountdownTimers.InvalidateIdempotent | extension.h:107-110 | Invalidate twice in a row is the same as once, whatever comes before and after |
| TimerScenarios.ArmAndExpire | extension.h:101-130 | Start(5) at 100 leaves 5 seconds and not elapsed; at 106 it is elapsed with -1 seconds left |
| TimerScenarios.ResetAfterInvalidateReusesDuration | extension.h:96-136 | Start(3) at 0, Invalidate, then Reset at 10 leaves 3 seconds, reports duration 3, and is started |
| TimerScenarios.ResetBeforeAnyStart | extension.h:90-120 | Reset on a never-started countdown is not elapsed at the reset time and is elapsed at any later time |
| TimerScenarios.InvalidatedComparisons | extension.h:52-76 | an invalidated stopwatch at time 5 reports elapsed 99999.9, yet IsGreaterThan(1) holds and IsGreaterThan(10) does not |
| TimerScenarios.StartOrResetMeasureAlike | extension.h:42-66 | a stopwatch begun at t0 > 0 by Start or by Reset reports `t1 - t0` at any later t1 >= t0 |

## Left out

- Single-precision floating point: all times are `real`. Rounding and the exact bit pattern of `99999.9f` are not modelled. The identities proved here (such as elapsed plus remaining equals duration) hold exactly only over reals.
- The engine clock `gpGlobals->curtime` and its source: it is a `now` parameter and may be any real. No monotonicity is assumed except where a statement needs it (`TimerScenarios.StartOrResetMeasureAlike`, `TimerScenarios.ResetBeforeAnyStart`).
- The handle-destroy callbacks `CIntervalTimerHandler` and `CCountdownTimerHandler`: deallocation plumbing for the host's handle system, outside the timer semantics.
- The `MoreTimers` extension class, the native name table, and all of extension/extension.cpp: handle registration and lookup, ownership checks, Metamod load wiring, `cell_t` marshalling, and the allocation-failure branch. These are calls into the SourceMod/Metamod host, which is not part of this model.
