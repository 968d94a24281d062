// Script timers and their controller. The wall clock (milliseconds since the
// epoch) is a parameter; a timer's Lua callback is reduced to whether it is
// valid and how many times it has been called.

module Timers {

  /** A timer's observable state; `calls` counts the callback invocations. */
  datatype TimerState = TimerState(end: bool, startTime: int, targetMsec: int, markedToDelete: bool, calls: nat)

  /** Whether a tick at time now finds the timer due. */
  predicate Expired(s: TimerState, now: int)
  {
    now - s.startTime >= s.targetMsec
  }

  /** Timer::tick on the state: an ended or killed timer ignores the tick; a due one ends, then calls back. */
  function TickState(s: TimerState, now: int, callbackValid: bool): (r: TimerState)
  {
    if s.end || s.markedToDelete then s
    else if Expired(s, now) then s.(end := true, calls := s.calls + if callbackValid then 1 else 0)
    else s
  }

  /** Timer::start on the state. */
  function StartState(s: TimerState, now: int): (r: TimerState)
  {
    s.(end := false, startTime := now)
  }

  /** A sequence of ticks at the given times. */
  function TickAll(s: TimerState, times: seq<int>, callbackValid: bool): (r: TimerState)
    decreases |times|
  {
    if times == [] then s else TickAll(TickState(s, times[0], callbackValid), times[1..], callbackValid)
  }

  /** A tick only ends the timer or leaves it as it was; it never restarts it or changes its settings. */
  lemma TickOnlyEnds(s: TimerState, now: int, callbackValid: bool)
    ensures var r := TickState(s, now, callbackValid);
      r.startTime == s.startTime && r.targetMsec == s.targetMsec && r.markedToDelete == s.markedToDelete
      && (s.end ==> r.end) && s.calls <= r.calls <= s.calls + 1
  {
  }

  /** A running, unkilled timer fires on a tick exactly when the interval has elapsed. */
  lemma TickFiresIffExpired(s: TimerState, now: int, callbackValid: bool)
    requires !s.end && !s.markedToDelete
    ensures TickState(s, now, callbackValid).end <==> Expired(s, now)
    ensures TickState(s, now, callbackValid).calls == s.calls + 1 <==> Expired(s, now) && callbackValid
  {
  }

  /** Any run of ticks on an ended or killed timer calls nothing. */
  lemma {:induction false} IdleTicksCallNothing(s: TimerState, times: seq<int>, callbackValid: bool)
    requires s.end || s.markedToDelete
    ensures TickAll(s, times, callbackValid) == s
    decreases |times|
  {
    if times != [] {
      IdleTicksCallNothing(TickState(s, times[0], callbackValid), times[1..], callbackValid);
    }
  }

  /** However many ticks follow, a started timer calls back at most once before it is started again. */
  lemma {:induction false} AtMostOneCallPerStart(s: TimerState, times: seq<int>, callbackValid: bool)
    ensures TickAll(s, times, callbackValid).calls <= s.calls + 1
    ensures s.end || s.markedToDelete ==> TickAll(s, times, callbackValid).calls == s.calls
    decreases |times|
  {
    if times != [] {
      var s1 := TickState(s, times[0], callbackValid);
      if s1.end || s1.markedToDelete {
        IdleTicksCallNothing(s1, times[1..], callbackValid);
      } else {
        assert s1 == s;
        AtMostOneCallPerStart(s1, times[1..], callbackValid);
      }
    }
  }

  class Timer {
    var end: bool
    var startTime: int
    var targetMsec: int
    var markedToDelete: bool
    /** callback.valid(): whether the Lua function is still callable. */
    const callbackValid: bool
    /** How many times callback.call(data) has run. */
    var calls: nat

    function State(): TimerState
      reads this
    {
      TimerState(end, startTime, targetMsec, markedToDelete, calls)
    }

    /** A new timer is ended (not running) and not marked for deletion. */
    constructor (msec: int, callbackValid: bool)
      ensures State() == TimerState(true, 0, msec, false, 0)
      ensures this.callbackValid == callbackValid
    {
      targetMsec := msec;
      end := true;
      markedToDelete := false;
      startTime := 0;
      calls := 0;
      this.callbackValid := callbackValid;
    }

    method IsElapsed() returns (elapsed: bool)
      ensures elapsed == end
    {
      elapsed := end;
    }

    method Stop()
      modifies this`end
      ensures State() == old(State()).(end := true)
    {
      end := true;
    }

    method Start(now: int)
      modifies this`end, this`startTime
      ensures State() == StartState(old(State()), now)
    {
      end := false;
      startTime := now;
    }

    /** restart(msec): a new interval, then start. */
    method Restart(msec: int, now: int)
      modifies this`targetMsec, this`end, this`startTime
      ensures State() == StartState(old(State()).(targetMsec := msec), now)
    {
      targetMsec := msec;
      Start(now);
    }

    method Tick(now: int)
      modifies this`end, this`calls
      ensures State() == TickState(old(State()), now, callbackValid)
    {
      if end || markedToDelete {
        return;
      }
      if now - startTime >= targetMsec {
        end := true;
        if callbackValid {
          calls := calls + 1;
        }
      }
    }

    method Kill()
      modifies this`markedToDelete
      ensures State() == old(State()).(markedToDelete := true)
    {
      markedToDelete := true;
    }
  }

  /** No timer appears twice. */
  predicate Distinct(ts: seq<Timer>)
  {
    forall i, k :: 0 <= i < k < |ts| ==> ts[i] != ts[k]
  }

  /** The timers remove_if keeps: those not marked for deletion, in their order. */
  function Unmarked(ts: seq<Timer>): (r: seq<Timer>)
    reads set t | t in ts
    ensures forall i :: 0 <= i < |r| ==> r[i] in ts && !r[i].markedToDelete
    ensures forall i :: 0 <= i < |ts| && !ts[i].markedToDelete ==> ts[i] in r
    ensures |r| <= |ts|
  {
    if ts == [] then []
    else if ts[0].markedToDelete then Unmarked(ts[1..])
    else [ts[0]] + Unmarked(ts[1..])
  }

  /** The sweep keeps the relative order: filtering a concatenation filters each part. */
  lemma {:induction false} UnmarkedAppend(a: seq<Timer>, b: seq<Timer>)
    ensures Unmarked(a + b) == Unmarked(a) + Unmarked(b)
    decreases |a|
  {
    if a != [] {
      assert (a + b)[1..] == a[1..] + b;
      UnmarkedAppend(a[1..], b);
    } else {
      assert a + b == b;
    }
  }

  /** Filtering keeps timers distinct. */
  lemma {:induction false} UnmarkedDistinct(ts: seq<Timer>)
    requires Distinct(ts)
    ensures Distinct(Unmarked(ts))
    decreases |ts|
  {
    if ts != [] {
      assert Distinct(ts[1..]) by {
        forall i, k | 0 <= i < k < |ts[1..]| ensures ts[1..][i] != ts[1..][k] {
          assert ts[1..][i] == ts[i + 1] && ts[1..][k] == ts[k + 1];
        }
      }
      UnmarkedDistinct(ts[1..]);
      if !ts[0].markedToDelete {
        var rest := Unmarked(ts[1..]);
        var r := [ts[0]] + rest;
        assert ts[0] !in ts[1..] by {
          forall m | 0 <= m < |ts[1..]| ensures ts[1..][m] != ts[0] {
            assert ts[1..][m] == ts[m + 1];
          }
        }
        forall i, k | 0 <= i < k < |r| ensures r[i] != r[k] {
          assert r[k] == rest[k - 1];
          if i > 0 {
            assert r[i] == rest[i - 1];
          }
        }
      }
    }
  }

  lemma DistinctSplit(a: seq<Timer>, b: seq<Timer>)
    requires Distinct(a + b)
    ensures Distinct(a) && Distinct(b)
    ensures forall i, k :: 0 <= i < |a| && 0 <= k < |b| ==> a[i] != b[k]
  {
    var s := a + b;
    forall i, k | 0 <= i < k < |a| ensures a[i] != a[k] {
      assert a[i] == s[i] && a[k] == s[k];
    }
    forall i, k | 0 <= i < k < |b| ensures b[i] != b[k] {
      assert b[i] == s[|a| + i] && b[k] == s[|a| + k];
    }
    forall i, k | 0 <= i < |a| && 0 <= k < |b| ensures a[i] != b[k] {
      assert a[i] == s[i] && b[k] == s[|a| + k];
    }
  }

  lemma DistinctJoin(a: seq<Timer>, b: seq<Timer>)
    requires Distinct(a) && Distinct(b)
    requires forall i, k :: 0 <= i < |a| && 0 <= k < |b| ==> a[i] != b[k]
    ensures Distinct(a + b)
  {
    var s := a + b;
    forall i, k | 0 <= i < k < |s| ensures s[i] != s[k] {
      if k < |a| {
        assert s[i] == a[i] && s[k] == a[k];
      } else if i >= |a| {
        assert s[i] == b[i - |a|] && s[k] == b[k - |a|];
      } else {
        assert s[i] == a[i] && s[k] == b[k - |a|];
      }
    }
  }

  /** Sweeping the running list keeps every timer held once. */
  lemma SweepKeepsDistinct(q: seq<Timer>, ts: seq<Timer>)
    requires Distinct(q + ts)
    ensures Distinct(q + Unmarked(ts))
  {
    DistinctSplit(q, ts);
    UnmarkedDistinct(ts);
    var u := Unmarked(ts);
    forall i, k | 0 <= i < |q| && 0 <= k < |u| ensures q[i] != u[k] {
      assert u[k] in ts;
      var m :| 0 <= m < |ts| && ts[m] == u[k];
      assert q[i] != ts[m];
    }
    DistinctJoin(q, u);
  }

  class TimerController {
    var timers: seq<Timer>
    var newTimersQueue: seq<Timer>
    var haveMarkedToDeletion: bool

    /** Every timer is held once, in one of the two lists. */
    ghost predicate Valid()
      reads this
    {
      Distinct(newTimersQueue + timers)
    }

    constructor ()
      ensures Valid() && timers == [] && newTimersQueue == [] && !haveMarkedToDeletion
    {
      timers := [];
      newTimersQueue := [];
      haveMarkedToDeletion := false;
    }

    /** create: the new timer waits in the queue; the running list is untouched until the next tick. */
    method Create(msec: int, callbackValid: bool) returns (t: Timer)
      requires Valid()
      modifies this`newTimersQueue
      ensures Valid() && fresh(t)
      ensures t.State() == TimerState(true, 0, msec, false, 0) && t.callbackValid == callbackValid
      ensures newTimersQueue == old(newTimersQueue) + [t]
      ensures t !in timers
    {
      t := new Timer(msec, callbackValid);
      var all := newTimersQueue + timers;
      newTimersQueue := newTimersQueue + [t];
      forall i, k | 0 <= i < k < |newTimersQueue + timers|
        ensures (newTimersQueue + timers)[i] != (newTimersQueue + timers)[k]
      {
        var s := newTimersQueue + timers;
        var n := |newTimersQueue|;
        if i == n - 1 || k == n - 1 {
        } else {
          assert s[i] == all[if i < n then i else i - 1];
          assert s[k] == all[if k < n then k else k - 1];
        }
      }
    }

    /** kill: marks the timer and tells the next tick to sweep. */
    method Kill(t: Timer)
      modifies t`markedToDelete, this`haveMarkedToDeletion
      ensures t.State() == old(t.State()).(markedToDelete := true) && haveMarkedToDeletion
    {
      t.Kill();
      haveMarkedToDeletion := true;
    }

    /**
     * tick: sweeps marked timers when a kill asked for it, moves the queued
     * timers to the front in creation order, then ticks every timer. Each
     * Timer::tick reads the wall clock itself; clock(k) is the reading taken
     * by the tick of the timer at position k of the running list.
     */
    method Tick(clock: nat -> int)
      requires Valid()
      modifies this, set t | t in timers, set t | t in newTimersQueue
      ensures Valid()
      ensures timers == old(newTimersQueue) + (if old(haveMarkedToDeletion) then old(Unmarked(timers)) else old(timers))
      ensures newTimersQueue == [] && !haveMarkedToDeletion
      ensures forall k :: 0 <= k < |timers| ==>
        var t := timers[k]; t.State() == TickState(old(t.State()), clock(k), t.callbackValid)
      ensures forall t :: t in old(timers) && t !in timers ==> t.State() == old(t.State()) && t.markedToDelete
    {
      if haveMarkedToDeletion {
        haveMarkedToDeletion := false;
        SweepKeepsDistinct(newTimersQueue, timers);
        timers := Unmarked(timers);
      }
      if newTimersQueue != [] {
        timers := newTimersQueue + timers;
        newTimersQueue := [];
      }
      assert newTimersQueue + timers == timers;
      TickRunning(clock);
    }

    /** tick's last step: every running timer is ticked once, in list order, at its own clock reading. */
    method TickRunning(clock: nat -> int)
      requires Distinct(timers)
      modifies set t | t in timers
      ensures forall k :: 0 <= k < |timers| ==> timers[k].State() == TickState(old(timers[k].State()), clock(k), timers[k].callbackValid)
    {
      for i := 0 to |timers|
        invariant forall k :: 0 <= k < i ==> timers[k].State() == TickState(old(timers[k].State()), clock(k), timers[k].callbackValid)
        invariant forall k :: i <= k < |timers| ==> timers[k].State() == old(timers[k].State())
      {
        timers[i].Tick(clock(i));
      }
    }

    /** terminate: drops every running timer; queued ones stay queued. */
    method Terminate()
      requires Valid()
      modifies this`timers
      ensures Valid() && timers == []
    {
      DistinctSplit(newTimersQueue, timers);
      timers := [];
      assert newTimersQueue + timers == newTimersQueue;
    }
  }
}
