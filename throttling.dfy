/** The leading-edge throttle that gates the section's scroll handler. The closure
    keeps one flag, `inThrottle`: a call while the flag is down runs the handler at
    once and raises the flag; calls while it is up are dropped (never queued); only
    the expiry of the timer started by the run lowers it again. The timer itself is
    not modelled: its expiry is an explicit event. */
module Throttling {

  import opened Search

  /** The state captured by the closure that `throttle(func, limit)` returns. */
  class Throttle {
    var inThrottle: bool

    /** `let inThrottle` starts out undefined, which reads as "window open". */
    constructor ()
      ensures !inThrottle
    {
      inThrottle := false;
    }

    /** One call of the throttled function: `run` says whether the wrapped handler
        runs now. After any call the window is closed. */
    method Call() returns (run: bool)
      modifies this
      ensures run == !old(inThrottle)
      ensures inThrottle
    {
      run := !inThrottle;
      if run {
        inThrottle := true;
      }
    }

    /** The `setTimeout` callback: reopens the window. */
    method Expire()
      modifies this
      ensures !inThrottle
    {
      inThrottle := false;
    }
  }

  /** What reaches the throttled closure: a call with its arguments, or the expiry
      of the pending timer. */
  datatype Event<A> = Invoke(args: A) | TimerFires

  /** The arguments with which the wrapped handler actually runs, in order, when the
      events are fed to a throttle whose flag is `inThrottle`. */
  function Dispatch<A>(inThrottle: bool, events: seq<Event<A>>): (runs: seq<A>)
    ensures |runs| <= Invokes(events)
    decreases |events|
  {
    if events == [] then []
    else match events[0]
      case Invoke(a) =>
        if inThrottle then Dispatch(true, events[1..]) else [a] + Dispatch(true, events[1..])
      case TimerFires => Dispatch(false, events[1..])
  }

  /** Number of calls among the events. */
  function Invokes<A>(events: seq<Event<A>>): nat
    decreases |events|
  {
    if events == [] then 0
    else (if events[0].Invoke? then 1 else 0) + Invokes(events[1..])
  }

  /** Number of timer expiries among the events. */
  function Expiries<A>(events: seq<Event<A>>): nat
    decreases |events|
  {
    if events == [] then 0
    else (if events[0].TimerFires? then 1 else 0) + Expiries(events[1..])
  }

  /** At most one run per throttle window: every run after the first needs an
      expiry in between. */
  lemma {:induction false} DispatchBound<A>(inThrottle: bool, events: seq<Event<A>>)
    ensures |Dispatch(inThrottle, events)| <= Expiries(events) + (if inThrottle then 0 else 1)
    decreases |events|
  {
    if events != [] {
      match events[0]
      case Invoke(_) => DispatchBound(true, events[1..]);
      case TimerFires => DispatchBound(false, events[1..]);
    }
  }

  /** Within one window (no expiry), the handler runs at most once, and if it runs
      it runs with the FIRST call's arguments: later calls are dropped, not deferred,
      and a window that is already closed lets nothing through. */
  lemma {:induction false} DispatchWindow<A>(inThrottle: bool, events: seq<Event<A>>)
    requires Expiries(events) == 0
    ensures var i := FindIndex(events, (e: Event<A>) => e.Invoke?);
            Dispatch(inThrottle, events) == if inThrottle || i == -1 then [] else [events[i].args]
    decreases |events|
  {
    if events != [] {
      DispatchWindow(true, events[1..]);
    }
  }

  /** Feeds the events, in order, to the throttle object: each call goes through
      `Call`, each expiry through `Expire`. The handler runs with exactly the
      arguments `Dispatch` predicts, so its lemmas hold of the object. */
  method Feed<A>(throttle: Throttle, events: seq<Event<A>>) returns (runs: seq<A>)
    modifies throttle
    ensures runs == Dispatch(old(throttle.inThrottle), events)
  {
    runs := [];
    var i := 0;
    while i < |events|
      invariant 0 <= i <= |events|
      invariant runs + Dispatch(throttle.inThrottle, events[i..]) == Dispatch(old(throttle.inThrottle), events)
    {
      assert events[i..] == [events[i]] + events[i + 1..];
      match events[i] {
        case Invoke(a) =>
          var run := throttle.Call();
          if run {
            runs := runs + [a];
          }
        case TimerFires =>
          throttle.Expire();
      }
      i := i + 1;
    }
    assert events[i..] == [];
  }
}
