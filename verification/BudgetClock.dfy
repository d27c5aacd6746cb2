/** The session budget: a clock that can be paused, and limits on duration, calls and cost. */
module BudgetClock {
  import opened Wrappers

  // ---------------------------------------------------------------- unpaused time

  /** Calls of `pauseClock` and `resumeClock` with the time that they read, in milliseconds. */
  datatype Event = Pause(at: int) | Resume(at: int)

  /** The clock is paused at `k`: the last call up to then was a pause. */
  predicate PausedAt(events: seq<Event>, k: int) {
    if events == [] then false
    else
      var e := events[|events| - 1];
      if e.at <= k then e.Pause? else PausedAt(events[..|events| - 1], k)
  }

  /** The number of milliseconds from `from` up to `until` at which the clock is not paused. */
  function Unpaused(events: seq<Event>, from: int, until: int): nat
    decreases until - from
  {
    if until <= from then 0 else Unpaused(events, from, until - 1) + if PausedAt(events, until - 1) then 0 else 1
  }

  ghost predicate InOrder(events: seq<Event>, from: int, clock: int) {
    && from <= clock
    && (forall i :: 0 <= i < |events| ==> from <= events[i].at <= clock)
    && forall i, j :: 0 <= i < j < |events| ==> events[i].at <= events[j].at
  }

  lemma {:induction false} BeforeEvent(events: seq<Event>, e: Event, from: int, until: int)
    requires until <= e.at
    ensures Unpaused(events + [e], from, until) == Unpaused(events, from, until)
    decreases until - from
  {
    if until > from {
      BeforeEvent(events, e, from, until - 1);
      assert (events + [e])[..|events|] == events;
    }
  }

  /** After its last event the clock stands still or runs. */
  lemma {:induction false} AfterEvent(events: seq<Event>, e: Event, from: int, until: int)
    requires from <= e.at <= until
    ensures Unpaused(events + [e], from, until) == Unpaused(events, from, e.at) + if e.Pause? then 0 else until - e.at
    decreases until - e.at
  {
    if until == e.at {
      BeforeEvent(events, e, from, until);
    } else {
      AfterEvent(events, e, from, until - 1);
    }
  }

  lemma {:induction false} NoEvents(from: int, until: int)
    requires from <= until
    ensures Unpaused([], from, until) == until - from
    decreases until - from
  {
    if until > from { NoEvents(from, until - 1); }
  }

  /** Unpaused time never decreases, and stands still exactly while the clock is paused throughout. */
  lemma {:induction false} UnpausedGrows(events: seq<Event>, from: int, t: int, u: int)
    requires from <= t <= u
    ensures Unpaused(events, from, t) <= Unpaused(events, from, u)
    ensures Unpaused(events, from, t) == Unpaused(events, from, u) <==> forall k :: t <= k < u ==> PausedAt(events, k)
    decreases u - t
  {
    if t < u {
      UnpausedGrows(events, from, t, u - 1);
      assert Unpaused(events, from, u) == Unpaused(events, from, u - 1) + if PausedAt(events, u - 1) then 0 else 1;
    }
  }

  // ---------------------------------------------------------------- the tracker

  datatype Limits = Limits(maxDurationMs: Option<int>, maxIterations: Option<int>, maxCostUsd: Option<real>)

  datatype Reason = Duration | Iterations | Cost

  function Max0(n: int): int { if n > 0 then n else 0 }

  class BudgetTracker {
    const limits: Limits
    const trackCost: bool
    const startedAt: int
    var iterations: int
    var costUsd: real
    var blockedMs: int
    var blockStartedAt: Option<int>
    /** The calls so far and the latest time that was read. */
    ghost var events: seq<Event>
    ghost var clock: int

    constructor (limits: Limits, trackCost: bool, now: int)
      ensures Valid() && iterations == 0 && costUsd == 0.0 && clock == now && events == [] && blockStartedAt.None?
      ensures this.limits == limits && this.trackCost == trackCost && startedAt == now
    {
      this.limits, this.trackCost, startedAt := limits, trackCost, now;
      iterations, costUsd, blockedMs, blockStartedAt := 0, 0.0, 0, None;
      events, clock := [], now;
      new;
      forall t | t >= now ensures Unpaused([], now, t) == t - now { NoEvents(now, t); }
    }

    /** The fields always tell the unpaused time. */
    ghost predicate Valid()
      reads this
    {
      && InOrder(events, startedAt, clock) && (blockStartedAt.Some? ==> startedAt <= blockStartedAt.value <= clock)
      && forall t :: t >= clock ==>
        Unpaused(events, startedAt, t) == (if blockStartedAt.Some? then blockStartedAt.value else t) - startedAt - blockedMs
    }

    method PauseClock(now: int)
      requires Valid() && now >= clock
      modifies `blockStartedAt, `events, `clock
      ensures Valid() && clock == now && blockStartedAt.Some?
      ensures events == if old(blockStartedAt).Some? then old(events) else old(events) + [Pause(now)]
    {
      clock := now;
      if blockStartedAt.None? {
        forall t | t >= now ensures Unpaused(events + [Pause(now)], startedAt, t) == now - startedAt - blockedMs {
          AfterEvent(events, Pause(now), startedAt, t);
        }
        blockStartedAt := Some(now);
        events := events + [Pause(now)];
      }
    }

    method ResumeClock(now: int)
      requires Valid() && now >= clock
      modifies `blockStartedAt, `blockedMs, `events, `clock
      ensures Valid() && clock == now && blockStartedAt.None?
      ensures events == if old(blockStartedAt).None? then old(events) else old(events) + [Resume(now)]
    {
      clock := now;
      if blockStartedAt.Some? {
        forall t | t >= now
          ensures Unpaused(events + [Resume(now)], startedAt, t) == t - startedAt - (blockedMs + now - blockStartedAt.value)
        {
          AfterEvent(events, Resume(now), startedAt, t);
        }
        blockedMs := blockedMs + Max0(now - blockStartedAt.value);
        blockStartedAt := None;
        events := events + [Resume(now)];
      }
    }

    /** The unpaused time, less the gap between the two reads while paused. */
    ghost function Reported(now: int, later: int): int
      reads this
    {
      if blockStartedAt.None? then Unpaused(events, startedAt, now)
      else Max0(Unpaused(events, startedAt, now) - (later - now))
    }

    /** A limit is crossed: the time before the calls, the calls before the cost. */
    ghost predicate Throws(thrown: Option<Reason>, elapsed: int)
      reads this
    {
      var late := limits.maxDurationMs.Some? && limits.maxDurationMs.value <= elapsed;
      var many := limits.maxIterations.Some? && limits.maxIterations.value < iterations;
      var dear := limits.maxCostUsd.Some? && limits.maxCostUsd.value <= costUsd;
      && (thrown == Some(Duration) <==> late)
      && (thrown == Some(Iterations) <==> !late && many)
      && (thrown == Some(Cost) <==> !late && !many && dear)
    }

    /**
     * The getter `elapsedMs`. It reads the clock once more while paused, so that it then falls short
     * of the unpaused time by what passed between the two reads.
     */
    method ElapsedMs(now: int, later: int) returns (ms: int)
      requires Valid() && clock <= now <= later
      ensures ms == Reported(now, later)
      ensures blockStartedAt.None? ==> ms == Unpaused(events, startedAt, now)
      ensures blockStartedAt.Some? ==> ms == Max0(Unpaused(events, startedAt, now) - (later - now))
      ensures ms == Unpaused(events, startedAt, now) <==>
        blockStartedAt.None? || now == later || Unpaused(events, startedAt, now) == 0
    {
      assert Unpaused(events, startedAt, now) ==
        (if blockStartedAt.Some? then blockStartedAt.value else now) - startedAt - blockedMs;
      var raw := Max0(now - startedAt);
      var inProgressBlock := if blockStartedAt.Some? then Max0(later - blockStartedAt.value) else 0;
      ms := Max0(raw - blockedMs - inProgressBlock);
    }

    /** Which limit is crossed when the getter says `elapsed`. */
    function ExceededReason(elapsed: int): Option<Reason>
      reads this
    {
      if limits.maxDurationMs.Some? && elapsed >= limits.maxDurationMs.value then Some(Duration)
      else if limits.maxIterations.Some? && iterations > limits.maxIterations.value then Some(Iterations)
      else if limits.maxCostUsd.Some? && costUsd >= limits.maxCostUsd.value then Some(Cost)
      else None
    }

    /** `tick`, before each call; the result is the limit that it throws for. */
    method Tick(now: int, later: int) returns (thrown: Option<Reason>)
      requires Valid() && clock <= now <= later
      modifies `iterations, `clock
      ensures Valid() && iterations == old(iterations) + 1
      ensures Throws(thrown, Reported(now, later))
      ensures thrown.None? && limits.maxDurationMs.Some? && blockStartedAt.None? ==>
        Unpaused(events, startedAt, now) < limits.maxDurationMs.value
      ensures clock == later
    {
      iterations := iterations + 1;
      var elapsed := ElapsedMs(now, later);
      NeverMore(now, elapsed);
      clock := later;
      thrown := ExceededReason(elapsed);
    }

    lemma NeverMore(now: int, elapsed: int)
      requires Valid() && clock <= now
      ensures Unpaused(events, startedAt, now) >= 0
    {
    }

    /** `record`, after each call. */
    method Record(cost: real, now: int, later: int) returns (thrown: Option<Reason>)
      requires Valid() && clock <= now <= later && cost >= 0.0
      modifies `costUsd, `clock
      ensures Valid() && clock == (if trackCost then later else old(clock))
      ensures costUsd == if trackCost then old(costUsd) + cost else old(costUsd)
      ensures if trackCost then Throws(thrown, Reported(now, later)) else thrown.None?
    {
      if !trackCost { return None; }
      costUsd := costUsd + cost;
      var elapsed := ElapsedMs(now, later);
      clock := later;
      thrown := ExceededReason(elapsed);
    }
  }

  /**
   * The discipline of the session loop: tick, call, record. At most `maxIterations` calls are made,
   * and the recorded cost exceeds its cap by less than the cost of the last call.
   */
  method Session(tracker: BudgetTracker, costs: seq<real>, start: int) returns (calls: nat, thrown: Option<Reason>)
    requires tracker.Valid() && tracker.iterations == 0 && tracker.costUsd == 0.0 && tracker.clock <= start
    requires forall i :: 0 <= i < |costs| ==> costs[i] >= 0.0
    modifies tracker
    ensures tracker.Valid() && calls <= |costs|
    ensures tracker.limits.maxIterations.Some? ==> calls <= Max0(tracker.limits.maxIterations.value)
    ensures tracker.costUsd == if tracker.trackCost then Sum(costs[..calls]) else 0.0
    ensures tracker.trackCost && tracker.limits.maxCostUsd.Some? && calls > 0 ==>
      tracker.costUsd < tracker.limits.maxCostUsd.value + costs[calls - 1]
    ensures thrown.None? ==> calls == |costs|
    ensures thrown == Some(Iterations) ==> tracker.limits.maxIterations.Some? && calls + 1 > tracker.limits.maxIterations.value
    ensures thrown == Some(Cost) ==> tracker.limits.maxCostUsd.Some? && tracker.costUsd >= tracker.limits.maxCostUsd.value
    ensures thrown == Some(Duration) ==> tracker.limits.maxDurationMs.Some?
    ensures calls > 0 && tracker.trackCost && tracker.limits.maxCostUsd.Some? ==>
      tracker.costUsd >= tracker.limits.maxCostUsd.value ==> thrown.Some? && tracker.iterations == calls
  {
    calls, thrown := 0, None;
    var time := start;
    while calls < |costs|
      invariant calls <= |costs| && tracker.Valid() && tracker.clock <= time && tracker.iterations == calls
      invariant tracker.limits.maxIterations.Some? ==> calls <= Max0(tracker.limits.maxIterations.value)
      invariant tracker.costUsd == if tracker.trackCost then Sum(costs[..calls]) else 0.0
      invariant tracker.trackCost && tracker.limits.maxCostUsd.Some? && calls > 0 ==>
        tracker.costUsd < tracker.limits.maxCostUsd.value + costs[calls - 1]
      invariant thrown.None?
      invariant calls > 0 && tracker.trackCost && tracker.limits.maxCostUsd.Some? ==>
        tracker.costUsd < tracker.limits.maxCostUsd.value
    {
      var a: nat, b: nat, c: nat, d: nat := *, *, *, *;
      thrown := tracker.Tick(time + a, time + a + b);
      if thrown.Some? { return; }
      time := time + a + b;
      var cost := costs[calls];
      calls := calls + 1;
      thrown := tracker.Record(cost, time + c, time + c + d);
      assert costs[..calls][..calls - 1] == costs[..calls - 1];
      time := time + c + d;
      if thrown.Some? { return; }
    }
  }

  function Sum(xs: seq<real>): real { if xs == [] then 0.0 else Sum(xs[..|xs| - 1]) + xs[|xs| - 1] }

  /** With a gap between the two reads, the reported time goes back during a pause. */
  method ReportedTimeGoesBack() returns (before: int, after: int)
    ensures before == 10 && after == 7
  {
    PausedAtTen();
    hide Unpaused, PausedAt;
    var tracker := new BudgetTracker(Limits(None, None, None), true, 0);
    before := tracker.ElapsedMs(10, 10);
    tracker.PauseClock(10);
    assert tracker.events == [Pause(10)];
    after := tracker.ElapsedMs(20, 23);
  }

  lemma PausedAtTen()
    ensures Unpaused([], 0, 10) == 10 && Unpaused([Pause(10)], 0, 20) == 10
  {
    AfterEvent([], Pause(10), 0, 20);
    NoEvents(0, 10);
    assert [] + [Pause(10)] == [Pause(10)];
  }
}
