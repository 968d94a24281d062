// A script event's callback collection: callbacks run in registration order
// until one of them asks the collection to stop. A Lua callback is reduced to
// the one thing dispatch depends on, whether it calls stop(); its result, for
// the value-returning dispatch, is a parameter as well.

module Events {

  /** CBType: the Lua environment and function are opaque handles. */
  datatype Callback = Callback(env: nat, fn: nat, needsOldState: bool)

  /** One call made by a dispatch: the position of the callback and whether oldData was passed. */
  datatype Invocation = Invocation(index: nat, withOld: bool)

  /**
   * How many callbacks a dispatch over n callbacks runs, counting from i, when
   * the callback at position k requests a stop exactly when stops(k): every
   * callback up to and including the first one that stops.
   */
  function Ran(stops: nat -> bool, n: nat, i: nat): (r: nat)
    requires i <= n
    ensures i <= r <= n
    ensures forall k :: i <= k && k + 1 < r ==> !stops(k)
    ensures r < n ==> i < r && stops(r - 1)
    decreases n - i
  {
    if i == n then n
    else if stops(i) then i + 1
    else Ran(stops, n, i + 1)
  }

  /** The calls a dispatch makes: the first count callbacks, oldData only to those that need it. */
  predicate Dispatched(functions: seq<Callback>, withOld: bool, count: nat, ran: seq<Invocation>)
  {
    |ran| == count <= |functions|
    && forall k :: 0 <= k < |ran| ==> ran[k] == Invocation(k, withOld && functions[k].needsOldState)
  }

  /** Without a stop request before the last callback, every callback runs. */
  lemma {:induction false} RunsAllIffNoEarlyStop(stops: nat -> bool, n: nat, i: nat)
    requires i <= n
    ensures Ran(stops, n, i) == n <==> forall k :: i <= k && k + 1 < n ==> !stops(k)
    decreases n - i
  {
    if i < n && !stops(i) {
      RunsAllIffNoEarlyStop(stops, n, i + 1);
    }
  }

  /** The first callback to request a stop is the last one that runs. */
  lemma {:induction false} StopsAfterFirstRequest(stops: nat -> bool, n: nat, i: nat, k: nat)
    requires i <= k < n && stops(k)
    requires forall j :: i <= j < k ==> !stops(j)
    ensures Ran(stops, n, i) == k + 1
    decreases k - i
  {
    if i < k {
      StopsAfterFirstRequest(stops, n, i + 1, k);
    }
  }

  class CallbackCollection {
    var functions: seq<Callback>
    /** lastCalled as an index into functions; |functions| stands for functions.end(). */
    var lastCalled: nat
    var stopFlag: bool

    /** The collection starts empty and not stopped; lastCalled is unset in the source and starts at 0 here. */
    constructor ()
      ensures functions == [] && !stopFlag && lastCalled == 0
    {
      functions := [];
      lastCalled := 0;
      stopFlag := false;
    }

    /** push: registers a callback after all earlier ones. */
    method Push(env: nat, fn: nat, needsOldState: bool)
      modifies this`functions
      ensures functions == old(functions) + [Callback(env, fn, needsOldState)]
    {
      functions := functions + [Callback(env, fn, needsOldState)];
    }

    /** stop: called by a running callback to skip the rest. */
    method Stop()
      modifies this`stopFlag
      ensures stopFlag
    {
      stopFlag := true;
    }

    method IsStopped() returns (stopped: bool)
      ensures stopped == stopFlag
    {
      stopped := stopFlag;
    }

    /** stopedAt: the first callback that was skipped, or the end. */
    method StoppedAt() returns (at: nat)
      ensures at == lastCalled
    {
      at := lastCalled;
    }

    /**
     * callWOld (withOld) and call<void> (!withOld): run the callbacks in order
     * until one requests a stop; callWOld passes oldData to the callbacks that
     * asked for the old state.
     */
    method Dispatch(withOld: bool, stops: nat -> bool) returns (ran: seq<Invocation>)
      modifies this`lastCalled, this`stopFlag
      ensures Dispatched(functions, withOld, Ran(stops, |functions|, 0), ran)
      ensures lastCalled == Ran(stops, |functions|, 0)
      ensures stopFlag <==> |ran| > 0 && stops(|ran| - 1)
    {
      lastCalled := |functions|;
      stopFlag := false;
      ran := [];
      var i := 0;
      while i < |functions|
        invariant 0 <= i <= |functions| && lastCalled == |functions|
        invariant Dispatched(functions, withOld, i, ran)
        invariant stopFlag <==> i > 0 && stops(i - 1)
        invariant stopFlag ==> Ran(stops, |functions|, 0) == i
        invariant !stopFlag ==> Ran(stops, |functions|, 0) == Ran(stops, |functions|, i)
      {
        if !stopFlag {
          ran := ran + [Invocation(i, withOld && functions[i].needsOldState)];
          // the callback itself calls stop() when stops(i)
          stopFlag := stops(i);
        } else {
          lastCalled := i;
          break;
        }
        i := i + 1;
      }
    }

    method CallWithOld(stops: nat -> bool) returns (ran: seq<Invocation>)
      modifies this`lastCalled, this`stopFlag
      ensures Dispatched(functions, true, Ran(stops, |functions|, 0), ran)
      ensures lastCalled == Ran(stops, |functions|, 0)
      ensures stopFlag <==> |ran| > 0 && stops(|ran| - 1)
    {
      ran := Dispatch(true, stops);
    }

    method Call(stops: nat -> bool) returns (ran: seq<Invocation>)
      modifies this`lastCalled, this`stopFlag
      ensures Dispatched(functions, false, Ran(stops, |functions|, 0), ran)
      ensures lastCalled == Ran(stops, |functions|, 0)
      ensures stopFlag <==> |ran| > 0 && stops(|ran| - 1)
    {
      ran := Dispatch(false, stops);
    }

    /**
     * call<R>: as call<void>, and returns what the last callback that ran
     * returned (results(k) for the callback at k), or `default` when none
     * ran: `R ret;` is a default-constructed object for a class type and
     * indeterminate for a scalar, and an arbitrary `default` covers both.
     */
    method CallResult<R>(stops: nat -> bool, results: nat -> R, default: R) returns (ret: R, ran: seq<Invocation>)
      modifies this`lastCalled, this`stopFlag
      ensures Dispatched(functions, false, Ran(stops, |functions|, 0), ran)
      ensures lastCalled == Ran(stops, |functions|, 0)
      ensures stopFlag <==> |ran| > 0 && stops(|ran| - 1)
      ensures ret == if |ran| == 0 then default else results(|ran| - 1)
    {
      ret := default;
      lastCalled := |functions|;
      stopFlag := false;
      ran := [];
      var i := 0;
      while i < |functions|
        invariant 0 <= i <= |functions| && lastCalled == |functions|
        invariant Dispatched(functions, false, i, ran)
        invariant stopFlag <==> i > 0 && stops(i - 1)
        invariant stopFlag ==> Ran(stops, |functions|, 0) == i
        invariant !stopFlag ==> Ran(stops, |functions|, 0) == Ran(stops, |functions|, i)
        invariant ret == if i == 0 then default else results(i - 1)
      {
        if !stopFlag {
          ran := ran + [Invocation(i, false)];
          ret := results(i);
          // the callback itself calls stop() when stops(i)
          stopFlag := stops(i);
        } else {
          lastCalled := i;
          break;
        }
        i := i + 1;
      }
    }
  }
}
