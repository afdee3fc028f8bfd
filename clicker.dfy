// The attendance controller of main.py (`LessonController`): a running flag, a gate on
// the time of day, and the loop that clicks "start lesson" while the flag is set.
//
// A time of day is counted in microseconds since midnight, the resolution of Python's
// `datetime.time`. The portal call `click_start_lesson` belongs to a module that is not
// part of this model; its outcome per tick is a parameter.

module Clicker {
  import opened Text

  /** `time(h, m)`, in microseconds since midnight. */
  function Clock(h: int, m: int): int {
    (h * 60 + m) * 60000000
  }

  /** The seven lesson slots, start and end. */
  const LessonIntervals: seq<(int, int)> := [
    (Clock(9, 0), Clock(10, 35)),
    (Clock(10, 45), Clock(12, 20)),
    (Clock(13, 0), Clock(14, 35)),
    (Clock(14, 45), Clock(16, 20)),
    (Clock(16, 30), Clock(18, 5)),
    (Clock(18, 15), Clock(19, 50)),
    (Clock(20, 0), Clock(21, 35))
  ]

  /** `is_time_between`: inclusive containment, or, for an interval whose start comes after
      its end, the part after the start together with the part before the end. */
  function IsTimeBetween(start: int, end: int, now: int): (r: bool)
    ensures start <= end ==> (r <==> start <= now <= end)
    ensures start > end ==> (r <==> !(end < now < start))
  {
    if start <= end then start <= now <= end else start <= now || now <= end
  }

  /** Interval `k` holds `now`. */
  predicate InInterval(intervals: seq<(int, int)>, k: int, now: int)
    requires 0 <= k < |intervals|
  {
    IsTimeBetween(intervals[k].0, intervals[k].1, now)
  }

  /** `is_lesson_time` over the configured intervals: the first one holding `now` ends the
      search with `True`. */
  method IsLessonTime(intervals: seq<(int, int)>, now: int) returns (r: bool)
    ensures r <==> exists k :: 0 <= k < |intervals| && InInterval(intervals, k, now)
  {
    for k := 0 to |intervals|
      invariant forall j :: 0 <= j < k ==> !InInterval(intervals, j, now)
    {
      if IsTimeBetween(intervals[k].0, intervals[k].1, now) {
        assert InInterval(intervals, k, now);
        return true;
      }
    }
    return false;
  }

  /** Lesson time on the configured slots, as a formula. */
  predicate LessonTime(now: int) {
    exists k :: 0 <= k < |LessonIntervals| && InInterval(LessonIntervals, k, now)
  }

  /** The seven closed ranges of the lesson slots. */
  predicate InRanges(now: int) {
    (Clock(9, 0) <= now <= Clock(10, 35)) || (Clock(10, 45) <= now <= Clock(12, 20)) ||
    (Clock(13, 0) <= now <= Clock(14, 35)) || (Clock(14, 45) <= now <= Clock(16, 20)) ||
    (Clock(16, 30) <= now <= Clock(18, 5)) || (Clock(18, 15) <= now <= Clock(19, 50)) ||
    (Clock(20, 0) <= now <= Clock(21, 35))
  }

  /** A time in a slot is in that slot's range: no slot wraps midnight. */
  lemma LessonTimeInRanges(now: int)
    requires LessonTime(now)
    ensures InRanges(now)
  {
    var ivs := LessonIntervals;
    forall k | 0 <= k < |ivs| && InInterval(ivs, k, now) ensures InRanges(now) {
      assert ivs[k].0 <= now <= ivs[k].1;
      if k == 0 { assert Clock(9, 0) <= now <= Clock(10, 35); }
      else if k == 1 { assert Clock(10, 45) <= now <= Clock(12, 20); }
      else if k == 2 { assert Clock(13, 0) <= now <= Clock(14, 35); }
      else if k == 3 { assert Clock(14, 45) <= now <= Clock(16, 20); }
      else if k == 4 { assert Clock(16, 30) <= now <= Clock(18, 5); }
      else if k == 5 { assert Clock(18, 15) <= now <= Clock(19, 50); }
      else { assert Clock(20, 0) <= now <= Clock(21, 35); }
    }
  }

  /** A time in one of the ranges is lesson time. */
  lemma RangesLessonTime(now: int)
    requires InRanges(now)
    ensures LessonTime(now)
  {
    var ivs := LessonIntervals;
    if Clock(9, 0) <= now <= Clock(10, 35) { assert InInterval(ivs, 0, now); }
    else if Clock(10, 45) <= now <= Clock(12, 20) { assert InInterval(ivs, 1, now); }
    else if Clock(13, 0) <= now <= Clock(14, 35) { assert InInterval(ivs, 2, now); }
    else if Clock(14, 45) <= now <= Clock(16, 20) { assert InInterval(ivs, 3, now); }
    else if Clock(16, 30) <= now <= Clock(18, 5) { assert InInterval(ivs, 4, now); }
    else if Clock(18, 15) <= now <= Clock(19, 50) { assert InInterval(ivs, 5, now); }
    else { assert InInterval(ivs, 6, now); }
  }

  /** Lesson time is exactly one of seven closed ranges; the breaks between them, and the
      minute after 10:35 itself, are not lesson time. */
  lemma LessonTimeRanges(now: int)
    ensures LessonTime(now) <==>
              (Clock(9, 0) <= now <= Clock(10, 35)) || (Clock(10, 45) <= now <= Clock(12, 20)) ||
              (Clock(13, 0) <= now <= Clock(14, 35)) || (Clock(14, 45) <= now <= Clock(16, 20)) ||
              (Clock(16, 30) <= now <= Clock(18, 5)) || (Clock(18, 15) <= now <= Clock(19, 50)) ||
              (Clock(20, 0) <= now <= Clock(21, 35))
  {
    if LessonTime(now) {
      LessonTimeInRanges(now);
    }
    if InRanges(now) {
      RangesLessonTime(now);
    }
  }

  // ---------------------------------------------------------------- the controller

  const AlreadyRunning: string := "Автокликалка уже запущена."
  const Running: string := "Автокликалка запущена."
  const AlreadyStopped: string := "Автокликалка уже остановлена."
  const Stopped: string := "Автокликалка остановлена."

  /** One pass of the loop as the environment shapes it: the time read, whether the click
      raised, and whether `stop_lesson` ran during the pause that follows. */
  datatype Tick = Tick(now: int, clickFails: bool, stopAfter: bool)

  /** How long the loop lasts: up to and including the first tick followed by a stop, or
      every tick when no stop comes. */
  function Horizon(ticks: seq<Tick>): (n: nat)
    ensures n <= |ticks|
    ensures forall i :: 0 <= i < n - 1 ==> !ticks[i].stopAfter
    ensures n < |ticks| ==> n > 0 && ticks[n - 1].stopAfter
    ensures n == |ticks| ==> n == 0 || ticks[n - 1].stopAfter || forall i :: 0 <= i < n ==> !ticks[i].stopAfter
  {
    if ticks == [] then 0
    else if ticks[0].stopAfter then 1
    else 1 + Horizon(ticks[1..])
  }

  /** The times at which a click is attempted: the lesson-time ticks, in order. */
  function Attempts(ticks: seq<Tick>): seq<int>
    decreases |ticks|
  {
    if ticks == [] then []
    else Attempts(ticks[..|ticks| - 1]) +
         (if LessonTime(ticks[|ticks| - 1].now) then [ticks[|ticks| - 1].now] else [])
  }

  /** A click is attempted at a tick exactly when its time is lesson time; a failing click
      changes nothing about the later ones. */
  lemma {:induction false} AttemptsMembers(ticks: seq<Tick>, t: int)
    ensures t in Attempts(ticks) <==> LessonTime(t) && exists i :: 0 <= i < |ticks| && ticks[i].now == t
    decreases |ticks|
  {
    if ticks != [] {
      var p := ticks[..|ticks| - 1];
      AttemptsMembers(p, t);
      assert forall i :: 0 <= i < |p| ==> p[i] == ticks[i];
      if exists i :: 0 <= i < |ticks| && ticks[i].now == t {
        var i :| 0 <= i < |ticks| && ticks[i].now == t;
        assert i < |p| ==> p[i].now == t;
      }
    }
  }

  class LessonController {
    var isRunning: bool
    var hasTask: bool
    var cancelled: bool

    /** A new controller: not running, no task. */
    constructor()
      ensures !isRunning && !hasTask && !cancelled
    {
      isRunning := false;
      hasTask := false;
      cancelled := false;
    }

    /** `controller.task = asyncio.create_task(controller.start_lesson())`: a fresh task,
        not cancelled. */
    method AttachTask()
      modifies this`hasTask, this`cancelled
      ensures hasTask && !cancelled
    {
      hasTask := true;
      cancelled := false;
    }

    /** `get_status`. */
    function Status(): (r: string)
      reads this
      ensures r == Running <==> isRunning
      ensures r == Stopped <==> !isRunning
    {
      if isRunning then Running else Stopped
    }

    /** `stop_lesson`: clears the flag and cancels `task` when there is one. */
    method StopLesson() returns (msg: string)
      modifies this`isRunning, this`cancelled
      ensures old(isRunning) ==> !isRunning && msg == Stopped && cancelled == (old(cancelled) || hasTask)
      ensures !old(isRunning) ==> msg == AlreadyStopped && !isRunning && cancelled == old(cancelled)
    {
      if !isRunning {
        return AlreadyStopped;
      }
      isRunning := false;
      if hasTask {
        cancelled := true;
      }
      return Stopped;
    }

    /** `start_lesson` over the ticks the environment supplies: on an idle controller it
        sets the flag and runs the loop, attempting a click at each lesson-time tick,
        until a stop arrives. When that stop cancels `task`, the pending pause raises
        CancelledError, which `except Exception` does not catch, so no message is
        returned (`None` here); without a task the loop sees the cleared flag and returns
        the "started" message. When the ticks run out first, the loop is still going. */
    method StartLesson(ticks: seq<Tick>) returns (msg: Option<string>, clicks: seq<int>)
      modifies this`isRunning, this`cancelled
      ensures old(isRunning) ==> msg == Some(AlreadyRunning) && clicks == [] &&
                                 isRunning && cancelled == old(cancelled)
      ensures !old(isRunning) ==>
                clicks == Attempts(ticks[..Horizon(ticks)]) &&
                (isRunning <==> Horizon(ticks) == |ticks| && (ticks == [] || !ticks[|ticks| - 1].stopAfter)) &&
                cancelled == (old(cancelled) || (!isRunning && hasTask)) &&
                msg == (if isRunning || hasTask then None else Some(Running))
    {
      if isRunning {
        return Some(AlreadyRunning), [];
      }
      isRunning := true;
      clicks := [];
      var i := 0;
      while isRunning && i < |ticks|
        invariant 0 <= i <= Horizon(ticks)
        invariant isRunning <==> (i == 0 || !ticks[i - 1].stopAfter)
        invariant !isRunning ==> i == Horizon(ticks)
        invariant cancelled == (old(cancelled) || (!isRunning && hasTask))
        invariant clicks == Attempts(ticks[..i])
        decreases |ticks| - i
      {
        var t := ticks[i];
        assert ticks[..i + 1][..i] == ticks[..i];
        var lesson := IsLessonTime(LessonIntervals, t.now);
        if lesson {
          // the click is attempted; t.clickFails only decides what is logged
          clicks := clicks + [t.now];
        }
        if t.stopAfter {
          var _ := StopLesson();
        }
        i := i + 1;
      }
      if isRunning {
        msg := None;
      } else if hasTask {
        msg := None;
      } else {
        msg := Some(Running);
      }
    }
  }
}
