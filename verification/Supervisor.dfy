/** The restart state machine of the campaign-control supervisor. */
module Supervisor {
  import opened Wrappers

  const POLL_SECONDS := 10
  const RESTART_BASE_SECONDS := 5
  const RESTART_MAX_SECONDS := 300

  function Pow2(n: nat): (p: nat)
    ensures p >= 1
  {
    if n == 0 then 1 else 2 * Pow2(n - 1)
  }

  function RestartDelay(failures: int): (seconds: nat) {
    if failures < 1 then 0
    else if RESTART_BASE_SECONDS * Pow2(failures - 1) <= RESTART_MAX_SECONDS then RESTART_BASE_SECONDS * Pow2(failures - 1)
    else RESTART_MAX_SECONDS
  }

  /** The delay never falls as failures mount, and is bounded. */
  lemma {:induction false} DelayGrows(m: int, n: int)
    requires m <= n
    ensures RestartDelay(m) <= RestartDelay(n) <= RESTART_MAX_SECONDS
    decreases n - m
  {
    if m < n { DelayGrows(m, n - 1); }
  }

  /** Five seconds after the first failure, and with every further one twice as long, up to five minutes. */
  lemma DelayDoubles(n: int)
    ensures n < 1 ==> RestartDelay(n) == 0
    ensures RestartDelay(1) == 5
    ensures n >= 1 ==> RestartDelay(n + 1) == if 2 * RestartDelay(n) <= 300 then 2 * RestartDelay(n) else 300
  {
    assert n >= 1 ==> Pow2(n) == 2 * Pow2(n - 1);
  }

  /** The sum of the first `k` delays. */
  function DelaySum(k: nat): nat { if k == 0 then 0 else DelaySum(k - 1) + RestartDelay(k) }

  /** The first six delays take 315 seconds, and each one after them takes five minutes. */
  lemma {:induction false} DelaySumValue(k: nat)
    ensures DelaySum(k) == if k <= 6 then 5 * (Pow2(k) - 1) else 315 + 300 * (k - 6)
    ensures Pow2(0) == 1 && (k > 0 ==> Pow2(k) == 2 * Pow2(k - 1))
  {
    if k > 0 { DelaySumValue(k - 1); }
    FirstDelays();
    if k > 6 {
      DelayGrows(7, k);
    }
  }

  lemma FirstDelays()
    ensures Pow2(1) == 2 && Pow2(2) == 4 && Pow2(3) == 8 && Pow2(4) == 16 && Pow2(5) == 32 && Pow2(6) == 64
    ensures RestartDelay(1) == 5 && RestartDelay(2) == 10 && RestartDelay(3) == 20
    ensures RestartDelay(4) == 40 && RestartDelay(5) == 80 && RestartDelay(6) == 160 && RestartDelay(7) == 300
  {
    assert Pow2(1) == 2 * Pow2(0) && Pow2(2) == 2 * Pow2(1) && Pow2(3) == 2 * Pow2(2);
    assert Pow2(4) == 2 * Pow2(3) && Pow2(5) == 2 * Pow2(4) && Pow2(6) == 2 * Pow2(5);
  }

  /** Every spawn but the first comes at least the delay of its number after the one before. */
  ghost predicate BackedOff(spawns: seq<real>) {
    forall i :: 0 < i < |spawns| ==> spawns[i - 1] + RestartDelay(i) as real <= spawns[i]
  }

  /** Any `n` consecutive spawns of such a list take at least the sum of the first n - 1 delays. */
  lemma {:induction false} SpawnsTakeTime(spawns: seq<real>, first: nat, n: nat)
    requires BackedOff(spawns) && 0 < n && first + n <= |spawns|
    ensures spawns[first] + DelaySum(n - 1) as real <= spawns[first + n - 1]
    decreases n
  {
    if n > 1 {
      SpawnsTakeTime(spawns, first, n - 1);
      DelayGrows(n - 1, first + n - 1);
    }
  }

  /** What `discover_listener` found: an error, no listener, or the recognised one. */
  datatype Listener = Trouble | Nobody | Ours

  /** The other answers of the system during one step. */
  datatype Answers = Answers(listener: Listener, healthy: bool, wrapperOk: bool, logLinked: bool, popenWorks: bool)

  datatype Report = Said(delay: real) | Raised

  /** The children that are running. */
  class Machine {
    var alive: set<nat>
    var next: nat

    constructor ()
      ensures alive == {} && next == 0
    {
      alive, next := {}, 0;
    }

    /** Any child may exit at any time. */
    method Exit(pid: nat)
      modifies `alive
      ensures alive == old(alive) - {pid}
    {
      alive := alive - {pid};
    }
  }

  /** The step changes nothing: the listener is unclear or ailing, the child is starting, or the backoff is on. */
  predicate Waits(child: Option<nat>, alive: set<nat>, retryAt: real, now: real, a: Answers) {
    || a.listener.Trouble? || (a.listener.Ours? && !a.healthy)
    || (a.listener.Nobody? && if child.Some? then child.value in alive else now < retryAt || (a.wrapperOk && a.logLinked))
  }

  /** The child is gone, or the program to start is not usable. */
  predicate Fails(child: Option<nat>, alive: set<nat>, retryAt: real, now: real, a: Answers) {
    a.listener.Nobody? && if child.Some? then child.value !in alive else now >= retryAt && !a.wrapperOk
  }

  predicate Spawns(child: Option<nat>, retryAt: real, now: real, a: Answers) {
    a.listener.Nobody? && child.None? && now >= retryAt && a.wrapperOk && !a.logLinked
  }

  /** A healthy observation, waiting, a failure and a start: every step is exactly one of them. */
  lemma StepIsOneOf(child: Option<nat>, alive: set<nat>, retryAt: real, now: real, a: Answers)
    ensures var healthy := a.listener.Ours? && a.healthy;
      var waits, fails := Waits(child, alive, retryAt, now, a), Fails(child, alive, retryAt, now, a);
      var spawns := Spawns(child, retryAt, now, a);
      && (healthy || waits || fails || spawns)
      && !(healthy && waits) && !(healthy && fails) && !(healthy && spawns)
      && !(waits && fails) && !(waits && spawns) && !(fails && spawns)
  {
  }

  class CampaignSupervisor {
    const machine: Machine
    var child: Option<nat>
    var failures: nat
    var retryAt: real
    var lastHealthy: Option<real>
    /** The time of the last step and the spawns since the last healthy observation. */
    ghost var clock: real
    ghost var spawns: seq<real>

    constructor (machine: Machine)
      requires machine.alive == {}
      ensures this.machine == machine && Valid() && clock == 0.0 && spawns == []
      ensures child.None? && failures == 0 && retryAt == 0.0 && lastHealthy.None?
    {
      this.machine := machine;
      child, failures, retryAt, lastHealthy := None, 0, 0.0, None;
      clock, spawns := 0.0, [];
    }

    ghost predicate Valid()
      reads this, machine
    {
      && machine.alive <= (if child.Some? then {child.value} else {})
      && BackedOff(spawns)
      && (spawns != [] ==> spawns[|spawns| - 1] <= clock)
      && |spawns| <= failures + (if child.Some? then 1 else 0)
      && (child.None? && spawns != [] ==> spawns[|spawns| - 1] + RestartDelay(|spawns|) as real <= retryAt)
    }

    /** A child was lost or could not be started: the next try waits. */
    method Fail(now: real)
      requires Valid() && now >= clock && |spawns| <= failures + 1 && machine.alive == {}
      modifies `child, `failures, `retryAt, `clock
      ensures Valid() && clock == now && child.None?
      ensures failures == old(failures) + 1 && retryAt == now + RestartDelay(failures) as real
    {
      DelayGrows(|spawns|, failures + 1);
      child := None;
      failures := failures + 1;
      retryAt := now + RestartDelay(failures) as real;
      clock := now;
    }

    /** `step` at time `now`. */
    method Step(now: real, a: Answers) returns (report: Report)
      requires Valid() && now >= clock
      modifies this, machine
      ensures Valid() && clock == now
      ensures old(machine.alive) <= machine.alive && |machine.alive| <= 1
      ensures a.listener.Ours? && a.healthy ==>
        && failures == 0 && retryAt == 0.0 && lastHealthy == Some(now) && spawns == [] && machine.alive == old(machine.alive)
        && child == if old(child).Some? && old(child).value in machine.alive then old(child) else None
      ensures !(a.listener.Ours? && a.healthy) ==> lastHealthy == old(lastHealthy)
      ensures !(a.listener.Ours? && a.healthy) ==> spawns == old(spawns) || spawns == old(spawns) + [now]
      ensures machine.alive != old(machine.alive) ==>
        && a.listener.Nobody? && a.wrapperOk && old(child).None? && now >= old(retryAt) && old(machine.alive) == {}
        && machine.alive == {old(machine.next)} && child == Some(old(machine.next)) && spawns == old(spawns) + [now]
      ensures machine.alive == old(machine.alive) && !(a.listener.Ours? && a.healthy) ==> spawns == old(spawns)
      ensures Waits(old(child), old(machine.alive), old(retryAt), now, a) ==>
        child == old(child) && failures == old(failures) && retryAt == old(retryAt) && machine.alive == old(machine.alive)
      ensures Fails(old(child), old(machine.alive), old(retryAt), now, a) ==>
        child.None? && failures == old(failures) + 1 && retryAt == now + RestartDelay(failures) as real && machine.alive == {}
      ensures report.Raised? <==> Spawns(old(child), old(retryAt), now, a) && !a.popenWorks
      ensures Spawns(old(child), old(retryAt), now, a) && a.popenWorks ==> child == Some(old(machine.next))
      ensures Spawns(old(child), old(retryAt), now, a) ==> failures == old(failures) && retryAt == old(retryAt)
      ensures Spawns(old(child), old(retryAt), now, a) && !a.popenWorks ==> child.None? && machine.alive == old(machine.alive)
      ensures a.listener.Nobody? && child.None? && report.Said? && !a.logLinked ==> now + report.delay == retryAt
      ensures a.listener.Trouble? ==> report == Said(RestartDelay(if failures < 1 then 1 else failures) as real)
      ensures a.listener.Ours? ==> report == Said(if a.healthy then 10.0 else 5.0)
      ensures a.listener.Nobody? && child.Some? ==> report == Said(1.0)
      ensures a.listener.Nobody? && child.None? && old(child).None? && now >= old(retryAt) && a.wrapperOk && a.logLinked ==>
        report == Said(300.0)
    {
      hide RestartDelay, BackedOff, DelaySum;
      NoneBackedOff();
      AtMostTheChild();
      FirstDelays();
      DelayGrows(1, if failures < 1 then 1 else failures);
      clock := now;
      if a.listener.Trouble? {
        return Said(Larger(1, RestartDelay(Larger(1, failures))) as real);
      }
      if a.listener.Ours? {
        if !a.healthy { return Said(5.0); }
        lastHealthy := Some(now);
        if child.Some? && child.value !in machine.alive { child := None; }
        failures, retryAt, spawns := 0, 0.0, [];
        return Said(POLL_SECONDS as real);
      }
      if child.Some? {
        if child.value in machine.alive { return Said(1.0); }
        Fail(now);
        return Said(RestartDelay(failures) as real);
      }
      if now < retryAt { return Said(retryAt - now); }
      if !a.wrapperOk {
        Fail(now);
        return Said(RestartDelay(failures) as real);
      }
      if a.logLinked { return Said(300.0); }
      if !a.popenWorks { return Raised; }
      Spawn(now);
      report := Said(1.0);
    }

    lemma NoneBackedOff()
      ensures BackedOff([])
    {
    }

    lemma AtMostTheChild()
      requires Valid()
      ensures |machine.alive| <= 1 && (child.None? ==> machine.alive == {})
      ensures child.Some? ==> machine.alive == {} || machine.alive == {child.value}
    {
      if child.Some? && machine.alive != {} { assert machine.alive == {child.value}; }
    }

    method Spawn(now: real)
      requires Valid() && child.None? && clock == now && now >= retryAt
      modifies `child, `spawns, machine
      ensures Valid() && child == Some(old(machine.next)) && machine.alive == {old(machine.next)} && spawns == old(spawns) + [now]
    {
      child := Some(machine.next);
      machine.alive := machine.alive + {machine.next};
      machine.next := machine.next + 1;
      spawns := spawns + [now];
    }
  }

  function Larger(a: int, b: int): int { if a >= b then a else b }

  /**
   * Any trace of steps under a clock that never goes back, with children exiting in between: at
   * most one child is alive, and any `n` spawns with no healthy observation between them take at
   * least the sum of the first n - 1 delays.
   */
  method AnyTrace(s: CampaignSupervisor, start: real)
    requires s.Valid() && s.clock <= start
    modifies s, s.machine
    ensures s.Valid() && |s.machine.alive| <= 1
    ensures forall i, j :: 0 <= i <= j < |s.spawns| ==> s.spawns[i] + DelaySum(j - i) as real <= s.spawns[j]
  {
    var steps: int :| 0 <= steps;
    var now := start;
    for k := 0 to steps
      invariant s.Valid() && s.clock <= now
    {
      var exits: bool := *;
      if exits && s.child.Some? { s.machine.Exit(s.child.value); }
      var passes: real :| passes >= 0.0;
      now := now + passes;
      var answers: Answers := *;
      var report := s.Step(now, answers);
    }
    s.AtMostTheChild();
    forall i, j | 0 <= i <= j < |s.spawns| ensures s.spawns[i] + DelaySum(j - i) as real <= s.spawns[j] {
      SpawnsTakeTime(s.spawns, i, j - i + 1);
    }
  }
}
