/** The throttle wrapper of main.js (`throttle(func, limit)`). The wrapper
    closes over one flag, `inThrottle`. A call while the flag is unset runs
    `func`, sets the flag and schedules a timeout that clears it again; a
    call while the flag is set is dropped. The wrapped `func` is opaque
    here: the model counts how many times it ran. The timeout becomes an
    explicit timer-fire event. */
module Throttling {

  /** The two events the gate reacts to. */
  datatype Event = Call | TimerFire

  /** The closure's state: the flag, how often `func` has run, and how many
      scheduled timeouts have not fired yet. */
  datatype Gate = Gate(inThrottle: bool, runs: nat, timers: nat)

  /** A scheduled timeout exists exactly while the flag is set. */
  predicate Consistent(g: Gate) {
    g.timers == if g.inThrottle then 1 else 0
  }

  /** A call: forwarded to `func` only when the flag is unset, and then the
      flag is set and a timeout is scheduled; otherwise dropped with no
      change at all. */
  function OnCall(g: Gate): (r: Gate)
    ensures r.inThrottle
    ensures g.inThrottle ==> r == g
    ensures !g.inThrottle ==> r.runs == g.runs + 1 && r.timers == g.timers + 1
    ensures Consistent(g) ==> Consistent(r)
  {
    if g.inThrottle then g
    else Gate(true, g.runs + 1, g.timers + 1)
  }

  /** A scheduled timeout fires and clears the flag; with no timeout
      scheduled there is nothing to fire. */
  function OnFire(g: Gate): (r: Gate)
    ensures g.timers > 0 ==> !r.inThrottle && r.runs == g.runs && r.timers == g.timers - 1
    ensures g.timers == 0 ==> r == g
    ensures Consistent(g) ==> Consistent(r)
  {
    if g.timers == 0 then g
    else Gate(false, g.runs, g.timers - 1)
  }

  function Apply(g: Gate, e: Event): Gate {
    match e
    case Call => OnCall(g)
    case TimerFire => OnFire(g)
  }

  /** The gate after a sequence of events, in order. */
  function Replay(g: Gate, events: seq<Event>): Gate
    decreases |events|
  {
    if events == [] then g else Replay(Apply(g, events[0]), events[1..])
  }

  /** The number of timer firings in a sequence of events. */
  function Fires(events: seq<Event>): nat
    decreases |events|
  {
    if events == [] then 0
    else (if events[0] == TimerFire then 1 else 0) + Fires(events[1..])
  }

  /** Every gate reached from a consistent one is consistent: at most one
      timeout is ever outstanding. */
  lemma {:induction false} ReplayConsistent(g: Gate, events: seq<Event>)
    requires Consistent(g)
    ensures Consistent(Replay(g, events))
    decreases |events|
  {
    if events != [] {
      ReplayConsistent(Apply(g, events[0]), events[1..]);
    }
  }

  /** Within one throttle window (no timer firing), `func` runs once if the
      gate was open and the window saw any call, and otherwise not at all:
      later calls are dropped, not queued. */
  lemma {:induction false} OneRunPerWindow(g: Gate, events: seq<Event>)
    requires forall k :: 0 <= k < |events| ==> events[k] == Call
    ensures Replay(g, events).runs == g.runs + (if !g.inThrottle && events != [] then 1 else 0)
    ensures events != [] ==> Replay(g, events).inThrottle
    ensures Replay(g, events).timers == g.timers + (if !g.inThrottle && events != [] then 1 else 0)
    decreases |events|
  {
    if events != [] {
      OneRunPerWindow(OnCall(g), events[1..]);
    }
  }

  /** `runs`, plus one while the gate is open, grows by at most one per
      timer firing: a forwarded call spends the open gate and only a firing
      opens it again. */
  lemma {:induction false} PotentialBound(g: Gate, events: seq<Event>)
    ensures Replay(g, events).runs + (if Replay(g, events).inThrottle then 0 else 1)
      <= g.runs + (if g.inThrottle then 0 else 1) + Fires(events)
    decreases |events|
  {
    if events != [] {
      PotentialBound(Apply(g, events[0]), events[1..]);
    }
  }

  /** Over any sequence of events, `func` runs at most once per timer
      firing, plus once more if the gate was open at the start. */
  lemma RunsBoundedByFires(g: Gate, events: seq<Event>)
    ensures Replay(g, events).runs <= g.runs + Fires(events) + (if g.inThrottle then 0 else 1)
  {
    PotentialBound(g, events);
  }

  /** The throttled wrapper returned by `throttle(func, limit)`. */
  class Throttle {
    var inThrottle: bool
    var runs: nat
    var timers: nat

    ghost predicate Valid()
      reads this
    {
      Consistent(State())
    }

    function State(): Gate
      reads this
    {
      Gate(inThrottle, runs, timers)
    }

    /** `let inThrottle;` starts out undefined, which is falsy. */
    constructor ()
      ensures Valid() && State() == Gate(false, 0, 0)
    {
      inThrottle := false;
      runs := 0;
      timers := 0;
    }

    /** A call of the wrapper; `forwarded` says whether `func` ran. */
    method Call() returns (forwarded: bool)
      requires Valid()
      modifies this
      ensures Valid()
      ensures forwarded == !old(inThrottle)
      ensures State() == OnCall(old(State()))
    {
      forwarded := false;
      if !inThrottle {
        runs := runs + 1;
        forwarded := true;
        inThrottle := true;
        timers := timers + 1;
      }
    }

    /** The scheduled timeout fires: `inThrottle = false`. */
    method TimerFire()
      requires Valid() && timers > 0
      modifies this
      ensures Valid() && !inThrottle
      ensures State() == OnFire(old(State()))
    {
      inThrottle := false;
      timers := timers - 1;
    }
  }
}
