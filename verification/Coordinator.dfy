/**
 * The repository coordinator: one polling loop, at most two workers and one run lease. A method
 * below is the code between two awaits of one task; the tasks interleave in any order.
 */
module Coordinator {
  import opened Wrappers

  const MAX_CONCURRENT_WORKERS := 2
  const STEPS := ["intake", "deduplicate", "investigate", "prepare-candidate", "verify", "deliver"]
  const EVIDENCE := ["intake", "candidate", "test-receipt", "delivery"]
  const MAX_SAFE_INTEGER := 9_007_199_254_740_991

  // ---------------------------------------------------------------- worker results

  /** `detailsValid` stands for the checks of messages and of the board reference. */
  datatype WorkerResult = WorkerResult(
    status: string,
    stage: Option<string>,
    accounting: string,
    actualMicros: Option<int>,
    actualTokens: Option<int>,
    completedSteps: seq<string>,
    evidence: seq<string>,
    detailsValid: bool)

  function IndexOf(xs: seq<string>, x: string): (i: int)
    ensures if x in xs then 0 <= i < |xs| && xs[i] == x && x !in xs[..i] else i == -1
  {
    if xs == [] then -1
    else if xs[0] == x then 0
    else
      var i := IndexOf(xs[1..], x);
      assert i >= 0 ==> xs[..i + 1] == [xs[0]] + xs[1..][..i];
      if i < 0 then -1 else i + 1
  }

  predicate ValidSteps(steps: seq<string>) {
    forall i :: 0 <= i < |steps| ==>
      steps[i] in STEPS && (i == 0 || IndexOf(STEPS, steps[i]) > IndexOf(STEPS, steps[i - 1]))
  }

  predicate ValidAmount(n: Option<int>) { n.Some? ==> 0 <= n.value <= MAX_SAFE_INTEGER }

  predicate IsValid(r: WorkerResult) {
    && r.status in ["succeeded", "failed", "ambiguous"] && r.accounting in ["measured", "ambiguous"]
    && ValidAmount(r.actualMicros) && ValidAmount(r.actualTokens)
    && ValidSteps(r.completedSteps)
    && (r.stage.Some? ==> r.stage.value in STEPS) && |r.evidence| <= 20 && r.detailsValid
  }

  predicate IsComplete(r: WorkerResult) {
    && r.accounting == "measured" && r.actualMicros.Some? && r.actualTokens.Some?
    && |r.completedSteps| == |STEPS| && (forall i :: 0 <= i < |r.completedSteps| ==> r.completedSteps[i] == STEPS[i])
    && forall kind :: kind in EVIDENCE ==> kind in r.evidence
  }

  predicate Accepted(r: WorkerResult) { IsValid(r) && (r.status == "succeeded" ==> IsComplete(r)) }

  /** What `saveResult` hands to `store.finish`. */
  datatype Final = Measured(status: string, micros: int, tokens: int) | AmbiguousEnd

  function FinalOf(r: WorkerResult): Final {
    if r.accounting == "ambiguous" || r.status == "ambiguous" || r.actualMicros.None? || r.actualTokens.None? then AmbiguousEnd
    else Measured(r.status, r.actualMicros.value, r.actualTokens.value)
  }

  lemma {:induction false} StepPosition(steps: seq<string>, i: nat)
    requires ValidSteps(steps) && i < |steps|
    ensures i <= IndexOf(STEPS, steps[i]) <= |STEPS| - (|steps| - i)
    decreases |steps|
  {
    StepAtLeast(steps, i);
    StepAtMost(steps, i);
  }

  lemma {:induction false} StepAtLeast(steps: seq<string>, i: nat)
    requires ValidSteps(steps) && i < |steps|
    ensures i <= IndexOf(STEPS, steps[i])
  {
    if i > 0 { StepAtLeast(steps, i - 1); }
  }

  lemma {:induction false} StepAtMost(steps: seq<string>, i: nat)
    requires ValidSteps(steps) && i < |steps|
    ensures IndexOf(STEPS, steps[i]) <= |STEPS| - (|steps| - i)
    decreases |steps| - i
  {
    if i + 1 < |steps| {
      StepAtMost(steps, i + 1);
      assert steps[i + 1] in STEPS && IndexOf(STEPS, steps[i + 1]) > IndexOf(STEPS, steps[i]);
    }
  }

  /** A list that `validSteps` accepts repeats nothing, and with six entries it is the whole list. */
  lemma ValidStepsAreDistinct(steps: seq<string>)
    requires ValidSteps(steps)
    ensures |steps| <= |STEPS|
    ensures forall i, j :: 0 <= i < j < |steps| ==> IndexOf(STEPS, steps[i]) < IndexOf(STEPS, steps[j])
    ensures |steps| == |STEPS| ==> steps == STEPS
  {
    if steps != [] { StepPosition(steps, 0); }
    forall i, j | 0 <= i < j < |steps| ensures IndexOf(STEPS, steps[i]) < IndexOf(STEPS, steps[j]) {
      StepsOrdered(steps, i, j);
    }
    if |steps| == |STEPS| {
      forall i | 0 <= i < |steps| ensures steps[i] == STEPS[i] {
        StepPosition(steps, i);
        assert STEPS[IndexOf(STEPS, steps[i])] == steps[i];
      }
    }
  }

  lemma {:induction false} StepsOrdered(steps: seq<string>, i: nat, j: nat)
    requires ValidSteps(steps) && i < j < |steps|
    ensures IndexOf(STEPS, steps[i]) < IndexOf(STEPS, steps[j])
    decreases j
  {
    assert IndexOf(STEPS, steps[j]) > IndexOf(STEPS, steps[j - 1]);
    if i < j - 1 { StepsOrdered(steps, i, j - 1); }
  }

  /** The steps in the order of the repository's list, without repetition. */
  ghost predicate Ordered(steps: seq<string>) {
    && (forall i :: 0 <= i < |steps| ==> steps[i] in STEPS)
    && forall i, j :: 0 <= i < j < |steps| ==> Before(steps[i], steps[j])
  }

  ghost predicate Before(a: string, b: string) { exists p, q :: 0 <= p < q < |STEPS| && STEPS[p] == a && STEPS[q] == b }

  lemma {:induction false} PositionIsUnique(xs: seq<string>, p: nat)
    requires p < |xs| && forall i, j :: 0 <= i < j < |xs| ==> xs[i] != xs[j]
    ensures IndexOf(xs, xs[p]) == p
  {
    if p > 0 { PositionIsUnique(xs[1..], p - 1); }
  }

  lemma NamesDiffer()
    ensures forall i, j :: 0 <= i < j < |STEPS| ==> STEPS[i] != STEPS[j]
  {
    forall i, j | 0 <= i < j < |STEPS| ensures STEPS[i] != STEPS[j] {
      assert STEPS[i][0] != STEPS[j][0] || STEPS[i][1] != STEPS[j][1] || STEPS[i][2] != STEPS[j][2];
    }
  }

  lemma BeforeMeans(a: string, b: string)
    requires a in STEPS && b in STEPS
    ensures Before(a, b) <==> IndexOf(STEPS, a) < IndexOf(STEPS, b)
  {
    NamesDiffer();
    if p, q :| 0 <= p < q < |STEPS| && STEPS[p] == a && STEPS[q] == b {
      PositionIsUnique(STEPS, p);
      PositionIsUnique(STEPS, q);
    }
  }

  /** `validSteps` compares neighbours only; that is enough for the whole list to be in order. */
  lemma ValidStepsMeans(steps: seq<string>)
    ensures ValidSteps(steps) <==> Ordered(steps)
  {
    hide Before;
    if ValidSteps(steps) {
      forall i, j | 0 <= i < j < |steps| ensures Before(steps[i], steps[j]) {
        StepsOrdered(steps, i, j);
        BeforeMeans(steps[i], steps[j]);
      }
    }
    if Ordered(steps) {
      forall i | 0 < i < |steps| ensures IndexOf(STEPS, steps[i]) > IndexOf(STEPS, steps[i - 1]) {
        BeforeMeans(steps[i - 1], steps[i]);
      }
    }
  }

  /** A success: all six steps in their order, all four kinds of evidence, and both amounts measured. */
  ghost predicate Complete(steps: seq<string>, evidence: seq<string>, micros: int, tokens: int) {
    && steps == ["intake", "deduplicate", "investigate", "prepare-candidate", "verify", "deliver"]
    && "intake" in evidence && "candidate" in evidence && "test-receipt" in evidence && "delivery" in evidence
    && 0 <= micros <= 9_007_199_254_740_991 && 0 <= tokens <= 9_007_199_254_740_991
  }

  /** `validateResult` accepts a result exactly when it is well formed and, if it succeeded, complete. */
  lemma AcceptedMeans(r: WorkerResult)
    ensures Accepted(r) <==>
      && (r.status == "succeeded" || r.status == "failed" || r.status == "ambiguous")
      && (r.accounting == "measured" || r.accounting == "ambiguous")
      && (forall n :: Some(n) == r.actualMicros || Some(n) == r.actualTokens ==> 0 <= n <= 9_007_199_254_740_991)
      && Ordered(r.completedSteps) && (r.stage.None? || r.stage.value in STEPS) && |r.evidence| <= 20 && r.detailsValid
      && (r.status == "succeeded" ==>
            r.accounting == "measured" && r.actualMicros.Some? && r.actualTokens.Some?
            && Complete(r.completedSteps, r.evidence, r.actualMicros.value, r.actualTokens.value))
  {
    ValidStepsMeans(r.completedSteps);
    hide ValidSteps, Ordered;
    assert EVIDENCE[0] in EVIDENCE && EVIDENCE[1] in EVIDENCE && EVIDENCE[2] in EVIDENCE && EVIDENCE[3] in EVIDENCE;
  }

  /**
   * An accepted result ends the job with its own status and amounts exactly when it has both and
   * claims neither ambiguity, a failure like a success; and only a complete one ends as succeeded.
   */
  lemma SucceededIsComplete(r: WorkerResult)
    requires Accepted(r)
    ensures FinalOf(r).Measured? <==>
      r.accounting == "measured" && (r.status == "succeeded" || r.status == "failed")
      && r.actualMicros.Some? && r.actualTokens.Some?
    ensures FinalOf(r).Measured? ==> FinalOf(r) == Measured(r.status, r.actualMicros.value, r.actualTokens.value)
    ensures r.status == "succeeded" ==>
      FinalOf(r).Measured? && Complete(r.completedSteps, r.evidence, FinalOf(r).micros, FinalOf(r).tokens)
  {
    AcceptedMeans(r);
  }

  // ---------------------------------------------------------------- tasks

  datatype Kind = DevelopmentCheckpoint | LiveCve

  /** A campaign of a status: the kind of its registered worker, and whether it is enabled and ready. */
  datatype Definition = Definition(campaignId: string, worker: Option<Kind>, enabled: bool)

  /** The campaigns from the first enabled one on. */
  function FromEnabled(definitions: seq<Definition>): seq<Definition> {
    if definitions == [] || definitions[0].enabled then definitions else FromEnabled(definitions[1..])
  }

  datatype Visit = Verifying | Polling | Refreshing | Reverifying | Acquiring | Claiming(kind: Kind)

  /** Where the loop task waits; `Visiting` is the `for` of `tick` at the first of `todo`. */
  datatype LoopTask =
    | NotRunning | Reading | Visiting(todo: seq<Definition>, at: Visit) | EndingRun | TickDone | Sleeping | Returned

  datatype StopTask = NoStop | AwaitingLoop | AwaitingJobs(pending: set<nat>) | StopEndingRun

  datatype WorkerTask = Asserting | Executing | Saving(result: WorkerResult) | Finishing(result: WorkerResult) | FailingOver | Ending

  datatype Active = Active(campaignId: string, aborted: bool) {
    /** None aborts every worker, a campaign only its own. */
    function AbortedBy(campaign: Option<string>): Active {
      Active(campaignId, aborted || campaign.None? || campaign.value == campaignId)
    }
  }

  datatype Process = Process(kind: Kind, at: WorkerTask)

  /** What the store holds of a job's progress. */
  datatype Progress = Progress(steps: seq<string>, evidence: seq<string>)

  function ProgressOf(r: WorkerResult): Progress { Progress(r.completedSteps, r.evidence) }

  /** A call of `store.finish`, the progress that the store held before it, and whether it returned. */
  datatype Finish = Finish(job: nat, final: Final, progress: Progress, returned: bool)

  /** A call of `runLease.finish`, and the workers active at that moment. */
  datatype RunEnd = RunEnd(run: nat, status: string, during: set<nat>)

  ghost predicate OneReturn(fs: seq<Finish>) {
    forall i, j :: 0 <= i < j < |fs| && fs[i].returned && fs[j].returned ==> fs[i].job != fs[j].job
  }

  ghost predicate NotReturned(fs: seq<Finish>, job: nat) { forall f :: f in fs && f.job == job ==> !f.returned }

  /** When a job is finished as succeeded, the store holds all its steps and all four kinds of evidence. */
  ghost predicate SuccessIsComplete(fs: seq<Finish>) {
    forall f :: f in fs && f.final.Measured? && f.final.status == "succeeded" ==>
      Complete(f.progress.steps, f.progress.evidence, f.final.micros, f.final.tokens)
  }

  ghost predicate EndsAlone(es: seq<RunEnd>) {
    && (forall e :: e in es ==> e.during == {})
    && forall i, j :: 0 <= i < j < |es| ==> es[i].run != es[j].run
  }

  ghost predicate WorkersOk(jobs: map<nat, Process>, active: map<nat, Active>, nextJob: nat, globalRun: Option<nat>,
                            saved: map<nat, Progress>)
  {
    && jobs.Keys == active.Keys && |active.Keys| <= MAX_CONCURRENT_WORKERS
    && forall id :: id in jobs ==> id < nextJob && WorkerOk(jobs[id], id, globalRun, saved)
  }

  /** A live worker runs under the run; what it saves was accepted, and is saved before it finishes. */
  ghost predicate WorkerOk(p: Process, id: nat, globalRun: Option<nat>, saved: map<nat, Progress>) {
    && (p.kind.LiveCve? ==> globalRun.Some?)
    && (p.at.Saving? || p.at.Finishing? ==> Accepted(p.at.result))
    && (p.at.Finishing? ==> id in saved && saved[id] == ProgressOf(p.at.result))
  }

  ghost predicate FinishesOk(finishes: seq<Finish>, jobs: map<nat, Process>, nextJob: nat) {
    && OneReturn(finishes) && SuccessIsComplete(finishes)
    && (forall f :: f in finishes ==> f.job < nextJob)
    && (forall id :: id in jobs && !jobs[id].at.Ending? ==> NotReturned(finishes, id))
  }

  ghost predicate RunsOk(runEnds: seq<RunEnd>, globalRun: Option<nat>, hasLease: bool, nextRun: nat) {
    && EndsAlone(runEnds) && (forall e :: e in runEnds ==> e.run < nextRun)
    && (globalRun.Some? ==> hasLease && globalRun.value < nextRun && forall e :: e in runEnds ==> e.run != globalRun.value)
  }

  lemma Launched(jobs: map<nat, Process>, active: map<nat, Active>, id: nat, globalRun: Option<nat>,
                 saved: map<nat, Progress>, finishes: seq<Finish>, p: Process, a: Active)
    requires WorkersOk(jobs, active, id, globalRun, saved) && FinishesOk(finishes, jobs, id)
    requires |active.Keys| < MAX_CONCURRENT_WORKERS && p.at.Asserting? && (p.kind.LiveCve? ==> globalRun.Some?)
    ensures WorkersOk(jobs[id := p], active[id := a], id + 1, globalRun, saved)
    ensures FinishesOk(finishes, jobs[id := p], id + 1)
  {
    hide OneReturn, SuccessIsComplete, Accepted;
    assert active[id := a].Keys == active.Keys + {id};
    assert jobs[id := p].Keys == jobs.Keys + {id};
  }

  lemma Stepped(jobs: map<nat, Process>, active: map<nat, Active>, nextJob: nat, globalRun: Option<nat>,
                saved: map<nat, Progress>, progress: Progress, finishes: seq<Finish>, id: nat, at: WorkerTask)
    requires WorkersOk(jobs, active, nextJob, globalRun, saved) && FinishesOk(finishes, jobs, nextJob)
    requires id in jobs && !jobs[id].at.Ending?
    requires (at.Saving? || at.Finishing? ==> Accepted(at.result)) && (at.Finishing? ==> progress == ProgressOf(at.result))
    ensures var jobs' := jobs[id := jobs[id].(at := at)];
      && WorkersOk(jobs', active, nextJob, globalRun, saved[id := progress])
      && (!at.Finishing? ==> WorkersOk(jobs', active, nextJob, globalRun, saved))
      && FinishesOk(finishes, jobs', nextJob)
  {
    hide OneReturn, SuccessIsComplete, Accepted, NotReturned;
    assert jobs[id := jobs[id].(at := at)].Keys == jobs.Keys;
  }

  lemma FinishLogged(finishes: seq<Finish>, jobs: map<nat, Process>, nextJob: nat, f: Finish)
    requires FinishesOk(finishes, jobs, nextJob) && f.job in jobs && f.job < nextJob
    requires SuccessIsComplete([f])
    requires if f.returned then jobs[f.job].at.Ending? && NotReturned(finishes, f.job) else true
    ensures FinishesOk(finishes + [f], jobs, nextJob)
  {
    assert f in [f];
  }

  lemma Removed(jobs: map<nat, Process>, active: map<nat, Active>, nextJob: nat, globalRun: Option<nat>,
                saved: map<nat, Progress>, finishes: seq<Finish>, id: nat)
    requires WorkersOk(jobs, active, nextJob, globalRun, saved) && FinishesOk(finishes, jobs, nextJob) && id in jobs
    ensures WorkersOk(jobs - {id}, active - {id}, nextJob, globalRun, saved) && FinishesOk(finishes, jobs - {id}, nextJob)
    ensures (active - {id}).Keys == active.Keys - {id} && |active.Keys - {id}| < |active.Keys|
  {
    hide OneReturn, SuccessIsComplete, Accepted, NotReturned;
    assert (active - {id}).Keys == active.Keys - {id} && (jobs - {id}).Keys == jobs.Keys - {id};
  }

  class RepositoryCoordinator {
    const hasLease: bool
    var stopped: bool
    var active: map<nat, Active>
    var jobs: map<nat, Process>
    var globalRun: Option<nat>
    // where the tasks stand
    var loop: LoopTask
    var stopTask: StopTask
    // the store and the lease service, with what they were asked
    var nextJob: nat
    var nextRun: nat
    ghost var saved: map<nat, Progress>
    ghost var finishes: seq<Finish>
    ghost var runEnds: seq<RunEnd>
    ghost var lateLaunches: nat

    constructor (hasLease: bool)
      ensures Valid() && loop.NotRunning? && !stopped
      ensures this.hasLease == hasLease && lateLaunches == 0 && nextJob == 0 && nextRun == 0 && jobs == map[]
    {
      this.hasLease := hasLease;
      stopped, active, jobs, globalRun := false, map[], map[], None;
      loop, stopTask, nextJob, nextRun := NotRunning, NoStop, 0, 0;
      saved, finishes, runEnds, lateLaunches := map[], [], [], 0;
    }

    ghost predicate WorkersValid()
      reads this
    {
      WorkersOk(jobs, active, nextJob, globalRun, saved)
    }

    ghost predicate LogsValid()
      reads this
    {
      FinishesOk(finishes, jobs, nextJob) && RunsOk(runEnds, globalRun, hasLease, nextRun) && lateLaunches <= 1
    }

    /** The loop task is between its first await and its return. */
    ghost predicate Running()
      reads this
    {
      stopTask == (if stopped then AwaitingLoop else NoStop)
    }

    ghost predicate TasksValid()
      reads this
    {
      match loop
      case NotRunning => active.Keys == {} && globalRun.None? && stopTask.NoStop?
      case Returned =>
        && stopped && !stopTask.NoStop?
        && (stopTask.AwaitingJobs? ==> active.Keys <= stopTask.pending)
        && (stopTask.StopEndingRun? ==> active.Keys == {} && globalRun.None?)
      case Visiting(todo, at) =>
        && Running() && todo != [] && |active.Keys| < MAX_CONCURRENT_WORKERS
        && (stopped ==> lateLaunches == 0)
        && (at.Acquiring? ==> hasLease && globalRun.None?)
        && (at.Claiming? && at.kind.LiveCve? ==> globalRun.Some?)
      case _ => Running()
    }

    /** Holds between any two steps of any interleaving. */
    ghost predicate Valid()
      reads this
    {
      WorkersValid() && LogsValid() && TasksValid()
    }

    // -------------------------------------------------------------- the loop task

    /** `start` after `recoverInterrupted`: the loop runs up to its first await. */
    method Start()
      requires Valid() && loop.NotRunning?
      modifies this
      ensures Valid() && !stopped && loop.Reading? && active == map[]
      ensures jobs == old(jobs) && nextJob == old(nextJob) && globalRun == old(globalRun) && stopTask.NoStop?
    {
      stopped := false;
      Tick();
    }

    /** The head of `tick`. */
    method Tick()
      requires WorkersValid() && LogsValid() && Running()
      modifies `loop
      ensures Valid() && loop == if stopped || |active.Keys| >= MAX_CONCURRENT_WORKERS then TickDone else Reading
    {
      loop := if stopped || |active.Keys| >= MAX_CONCURRENT_WORKERS then TickDone else Reading;
    }

    /** The first status was read; None stands for the exception of `readStatus`. */
    method StatusRead(campaigns: Option<seq<Definition>>)
      requires Valid() && loop.Reading?
      modifies `loop, `globalRun, `runEnds
      ensures Valid()
      ensures campaigns.None? ==> loop.TickDone? && globalRun == old(globalRun) && runEnds == old(runEnds)
      ensures campaigns.Some? ==>
        (loop.Visiting? <==> !stopped && |active.Keys| < MAX_CONCURRENT_WORKERS && FromEnabled(campaigns.value) != [])
      ensures loop.Visiting? ==> loop == Visiting(FromEnabled(campaigns.value), Verifying)
    {
      if campaigns.None? {
        loop := TickDone;
      } else {
        VisitNext(campaigns.value);
      }
    }

    /** The loop visits the first enabled one of these campaigns, unless it is stopped, full or there is none. */
    ghost predicate GoesOn(definitions: seq<Definition>)
      reads this
    {
      && (loop.Visiting? <==> !stopped && |active.Keys| < MAX_CONCURRENT_WORKERS && FromEnabled(definitions) != [])
      && (loop.Visiting? ==> loop == Visiting(FromEnabled(definitions), Verifying))
      && (loop.Visiting? || loop.EndingRun? || loop.TickDone?)
    }

    /** The head of the `for`: the next enabled campaign, or the end of `tick`. */
    method VisitNext(definitions: seq<Definition>)
      requires WorkersValid() && LogsValid() && Running()
      modifies `loop, `globalRun, `runEnds
      ensures Valid() && GoesOn(definitions)
      ensures loop.Visiting? || loop.TickDone? ==> globalRun == old(globalRun) && runEnds == old(runEnds)
      ensures loop.EndingRun? ==> active.Keys == {} && old(globalRun).Some?
    {
      var todo := definitions;
      while todo != [] && |active.Keys| < MAX_CONCURRENT_WORKERS && !stopped
        invariant FromEnabled(todo) == FromEnabled(definitions)
      {
        if todo[0].enabled {
          loop := Visiting(todo, Verifying);
          return;
        }
        todo := todo[1..];
      }
      EndTick();
    }

    /** The last line of `tick`: with no active worker, the run is over. */
    method EndTick()
      requires WorkersValid() && LogsValid() && Running()
      modifies `loop, `globalRun, `runEnds
      ensures Valid() && (loop.EndingRun? || loop.TickDone?)
      ensures loop.TickDone? ==> globalRun == old(globalRun) && runEnds == old(runEnds)
      ensures loop.EndingRun? <==> active.Keys == {} && old(globalRun).Some?
      ensures loop.EndingRun? ==>
        globalRun.None? && runEnds == old(runEnds) + [RunEnd(old(globalRun).value, "succeeded", {})]
    {
      if |active.Keys| == 0 && globalRun.Some? {
        FinishGlobalRun("succeeded");
        loop := EndingRun;
      } else {
        loop := TickDone;
      }
    }

    /** `finishGlobalRun` up to its await; whether the lease service then answers changes nothing. */
    method FinishGlobalRun(status: string)
      requires WorkersValid() && LogsValid() && active.Keys == {}
      modifies `globalRun, `runEnds
      ensures WorkersValid() && LogsValid() && globalRun.None?
      ensures runEnds == if old(globalRun).None? then old(runEnds)
                         else old(runEnds) + [RunEnd(old(globalRun).value, status, active.Keys)]
    {
      if globalRun.Some? && hasLease {
        runEnds := runEnds + [RunEnd(globalRun.value, status, active.Keys)];
        globalRun := None;
      }
    }

    predicate Claimable(worker: Option<Kind>) { worker.Some? && (worker.value.LiveCve? ==> hasLease) }

    /** A live worker needs the run before the claim. */
    function NextOf(kind: Kind): Visit
      reads this
    {
      if kind.DevelopmentCheckpoint? || globalRun.Some? then Claiming(kind) else Acquiring
    }

    /** The awaits of one campaign's visit that read, verify or poll. */
    method Visited(passed: bool)
      requires Valid() && loop.Visiting? && !loop.at.Acquiring? && !loop.at.Claiming?
      modifies `loop, `globalRun, `runEnds
      ensures Valid()
      ensures passed && old(loop.at).Verifying? ==> loop == Visiting(old(loop.todo), Polling)
      ensures old(loop.at).Verifying? && !passed ==> GoesOn(old(loop.todo)[1..])
      ensures old(loop.at).Reverifying? && !(passed && Claimable(old(loop.todo[0].worker))) ==> GoesOn(old(loop.todo)[1..])
      ensures old(loop.at).Polling? ==> loop == Visiting(old(loop.todo), Refreshing)
      ensures old(loop.at).Refreshing? ==> loop == if passed then Visiting(old(loop.todo), Reverifying) else TickDone
      ensures old(loop.at).Reverifying? && passed && Claimable(old(loop.todo[0].worker)) ==>
        loop == Visiting(old(loop.todo), NextOf(old(loop.todo[0].worker).value))
      ensures loop.Visiting? && loop.at.Claiming? ==>
        old(loop.at).Reverifying? && passed && loop.todo[0].worker == Some(loop.at.kind)
    {
      var todo := loop.todo;
      match loop.at
      case Verifying =>
        if passed { loop := Visiting(todo, Polling); } else { VisitNext(todo[1..]); }
      case Polling => loop := Visiting(todo, Refreshing);
      case Refreshing =>
        if passed { loop := Visiting(todo, Reverifying); } else { loop := TickDone; }
      case Reverifying =>
        // `passed` also stands for a ready campaign with a queued job
        if passed && Claimable(todo[0].worker) {
          EnsureRun(todo[0].worker.value);
        } else {
          VisitNext(todo[1..]);
        }
      case _ =>
    }

    /** `ensureRun` up to its await, or past it to the claim. */
    method EnsureRun(kind: Kind)
      requires Valid() && loop.Visiting? && (kind.LiveCve? ==> hasLease)
      modifies `loop
      ensures Valid() && loop.Visiting? && loop.todo == old(loop.todo)
      ensures loop.at == NextOf(kind)
    {
      loop := Visiting(loop.todo, NextOf(kind));
    }

    /** The lease service granted a run, refused it or failed. */
    method RunAnswered(granted: bool)
      requires Valid() && loop.Visiting? && loop.at.Acquiring?
      modifies `loop, `globalRun, `runEnds, `nextRun
      ensures Valid()
      ensures granted ==>
        globalRun == Some(old(nextRun)) && nextRun == old(nextRun) + 1 && loop == Visiting(old(loop.todo), Claiming(LiveCve))
      ensures !granted ==>
        globalRun.None? && nextRun == old(nextRun) && runEnds == old(runEnds) && GoesOn(old(loop.todo)[1..])
    {
      if granted {
        globalRun := Some(nextRun);
        nextRun := nextRun + 1;
        loop := Visiting(loop.todo, Claiming(LiveCve));
      } else {
        VisitNext(loop.todo[1..]);
      }
    }

    /** The store handed out a claim (of a job that it never hands out again), none, or failed. */
    method ClaimAnswered(claimed: bool, failed: bool)
      requires Valid() && loop.Visiting? && loop.at.Claiming?
      modifies this
      ensures Valid() && stopped == old(stopped) && stopTask == old(stopTask)
      ensures claimed && !failed ==>
        && jobs == old(jobs)[old(nextJob) := Process(old(loop.at.kind), Asserting)]
        && active == old(active)[old(nextJob) := Active(old(loop.todo[0].campaignId), false)]
      ensures !claimed || failed ==> jobs == old(jobs) && active == old(active)
      ensures nextJob == if claimed && !failed then old(nextJob) + 1 else old(nextJob)
      ensures if failed then loop.TickDone? else GoesOn(old(loop.todo)[1..])
      ensures lateLaunches == old(lateLaunches) + if claimed && !failed && stopped then 1 else 0
    {
      hide WorkersOk, FinishesOk, RunsOk;
      if failed {
        loop := TickDone;
      } else {
        var todo := loop.todo;
        if claimed { Launch(loop.at.kind, todo[0]); }
        VisitNext(todo[1..]);
      }
    }

    method Launch(kind: Kind, definition: Definition)
      requires Valid() && loop.Visiting? && loop.at == Claiming(kind)
      modifies `active, `jobs, `nextJob, `lateLaunches
      ensures WorkersValid() && LogsValid() && Running() && nextJob == old(nextJob) + 1
      ensures jobs == old(jobs)[old(nextJob) := Process(kind, Asserting)]
      ensures active == old(active)[old(nextJob) := Active(definition.campaignId, false)]
      ensures lateLaunches == old(lateLaunches) + if stopped then 1 else 0
    {
      hide WorkersOk, FinishesOk, RunsOk;
      var id := nextJob;
      Launched(jobs, active, id, globalRun, saved, finishes, Process(kind, Asserting), Active(definition.campaignId, false));
      nextJob := nextJob + 1;
      active := active[id := Active(definition.campaignId, false)];
      jobs := jobs[id := Process(kind, Asserting)];
      if stopped { lateLaunches := lateLaunches + 1; }
    }

    /** After `tick`, whether it returned or threw: the loop ends or sleeps. */
    method TickOver()
      requires Valid() && (loop.TickDone? || loop.EndingRun?)
      modifies `loop
      ensures Valid() && loop == if stopped then Returned else Sleeping
    {
      loop := if stopped then Returned else Sleeping;
    }

    /** The timer or `wake`. */
    method Woken()
      requires Valid() && loop.Sleeping?
      modifies `loop
      ensures Valid() && (stopped ==> loop.Returned?)
    {
      if stopped { loop := Returned; } else { Tick(); }
    }

    // -------------------------------------------------------------- the worker tasks

    method MoveTo(id: nat, at: WorkerTask)
      requires Valid() && id in jobs && !jobs[id].at.Ending? && !at.Finishing? && (at.Saving? ==> Accepted(at.result))
      modifies `jobs
      ensures Valid() && jobs == old(jobs)[id := old(jobs[id]).(at := at)]
    {
      hide WorkersOk, FinishesOk, RunsOk, Accepted;
      Stepped(jobs, active, nextJob, globalRun, saved, Progress([], []), finishes, id, at);
      jobs := jobs[id := jobs[id].(at := at)];
    }

    /** `assertClaimCurrent` answered; an aborted worker does not execute. */
    method ClaimChecked(id: nat, current: bool)
      requires Valid() && id in jobs && jobs[id].at.Asserting?
      modifies `jobs
      ensures Valid()
      ensures jobs == old(jobs)[id := old(jobs[id]).(at := if current && !active[id].aborted then Executing else FailingOver)]
    {
      ActiveIsPending(id);
      MoveTo(id, if current && !active[id].aborted then Executing else FailingOver);
    }

    lemma ActiveIsPending(id: nat)
      requires Valid() && id in jobs
      ensures id in active && id < nextJob
    {
    }

    /** The worker returned a result or threw. */
    method Executed(id: nat, result: Option<WorkerResult>)
      requires Valid() && id in jobs && jobs[id].at.Executing?
      modifies `jobs
      ensures Valid()
      ensures jobs == old(jobs)[id := old(jobs[id]).(at :=
        if result.Some? && Accepted(result.value) then Saving(result.value) else FailingOver)]
    {
      MoveTo(id, if result.Some? && Accepted(result.value) then Saving(result.value) else FailingOver);
    }

    /** `updateClaimProgress` stored the completed steps or threw. */
    method Saved(id: nat, ok: bool)
      requires Valid() && id in jobs && jobs[id].at.Saving?
      modifies `jobs, `saved
      ensures Valid()
      ensures jobs == old(jobs)[id := old(jobs[id]).(at := if ok then Finishing(old(jobs[id].at.result)) else FailingOver)]
      ensures saved == if ok then old(saved)[id := ProgressOf(old(jobs[id].at.result))] else old(saved)
    {
      hide FinishesOk, RunsOk, Accepted;
      var result := jobs[id].at.result;
      if ok {
        Stepped(jobs, active, nextJob, globalRun, saved, ProgressOf(result), finishes, id, Finishing(result));
        saved := saved[id := ProgressOf(result)];
        jobs := jobs[id := jobs[id].(at := Finishing(result))];
      } else {
        MoveTo(id, FailingOver);
      }
    }

    /** `store.finish` returned, or threw with its effect unknown. */
    method Finished(id: nat, returned: bool)
      requires Valid() && id in jobs && jobs[id].at.Finishing?
      modifies `jobs, `finishes
      ensures Valid()
      ensures finishes == old(finishes) +
        [Finish(id, FinalOf(old(jobs[id].at.result)), ProgressOf(old(jobs[id].at.result)), returned)]
      ensures jobs == old(jobs)[id := old(jobs[id]).(at := if returned then Ending else FailingOver)]
    {
      FinishMeans(id);
      hide WorkersOk, FinishesOk, RunsOk, Accepted, SuccessIsComplete, OneReturn, NotReturned;
      var result := jobs[id].at.result;
      MoveTo(id, if returned then Ending else FailingOver);
      ghost var f := Finish(id, FinalOf(result), saved[id], returned);
      FinishLogged(finishes, jobs, nextJob, f);
      finishes := finishes + [f];
    }

    lemma FinishMeans(id: nat)
      requires Valid() && id in jobs && !jobs[id].at.Ending?
      ensures id < nextJob && NotReturned(finishes, id)
      ensures jobs[id].at.Finishing? ==>
        var r := jobs[id].at.result;
        && id in saved && saved[id] == ProgressOf(r)
        && forall returned :: SuccessIsComplete([Finish(id, FinalOf(r), ProgressOf(r), returned)])
      ensures forall progress, returned :: SuccessIsComplete([Finish(id, AmbiguousEnd, progress, returned)])
    {
      if jobs[id].at.Finishing? { SucceededIsComplete(jobs[id].at.result); }
    }

    /** `failAmbiguous`: its own failure is swallowed. */
    method FailedOver(id: nat, returned: bool)
      requires Valid() && id in jobs && jobs[id].at.FailingOver?
      modifies `jobs, `finishes
      ensures Valid() && jobs == old(jobs)[id := old(jobs[id]).(at := Ending)]
      ensures |finishes| == |old(finishes)| + 1 && old(finishes) < finishes
      ensures var f := finishes[|finishes| - 1]; f.job == id && f.final.AmbiguousEnd? && f.returned == returned
    {
      FinishMeans(id);
      hide WorkersOk, FinishesOk, RunsOk, Accepted, SuccessIsComplete, OneReturn, NotReturned;
      MoveTo(id, Ending);
      ghost var f := Finish(id, AmbiguousEnd, if id in saved then saved[id] else Progress([], []), returned);
      FinishLogged(finishes, jobs, nextJob, f);
      finishes := finishes + [f];
    }

    /** The `finally` of `launch`. */
    method WorkerOver(id: nat)
      requires Valid() && id in jobs && jobs[id].at.Ending?
      modifies `jobs, `active, `stopTask
      ensures Valid() && jobs == old(jobs) - {id} && active == old(active) - {id}
      ensures stopTask == if old(stopTask).AwaitingJobs? then AwaitingJobs(old(stopTask).pending - {id}) else old(stopTask)
    {
      hide WorkersOk, FinishesOk, RunsOk;
      Removed(jobs, active, nextJob, globalRun, saved, finishes, id);
      active := active - {id};
      jobs := jobs - {id};
      if stopTask.AwaitingJobs? { stopTask := AwaitingJobs(stopTask.pending - {id}); }
    }

    // -------------------------------------------------------------- stop

    method AbortWhere(campaignId: Option<string>)
      requires Valid()
      modifies `active
      ensures Valid() && active.Keys == old(active.Keys)
      ensures forall id :: id in active ==> active[id] == old(active[id]).AbortedBy(campaignId)
    {
      active := map id | id in active :: active[id].AbortedBy(campaignId);
      assert active.Keys == old(active.Keys);
    }

    /** `stop` up to its first await. */
    method Stop()
      requires Valid() && stopTask.NoStop? && !loop.NotRunning?
      modifies `stopped, `active, `stopTask, `lateLaunches
      ensures Valid() && stopped && stopTask.AwaitingLoop? && lateLaunches == 0
      ensures active.Keys == old(active.Keys) && forall id :: id in active ==> active[id].aborted
    {
      hide WorkersOk, FinishesOk, RunsOk;
      AbortWhere(None);
      stopped, stopTask, lateLaunches := true, AwaitingLoop, 0;
    }

    method StopCampaign(campaignId: string)
      requires Valid()
      modifies `active
      ensures Valid() && active.Keys == old(active.Keys)
      ensures forall id :: id in active ==>
        active[id].aborted == (old(active[id].aborted) || old(active[id].campaignId) == campaignId)
    {
      AbortWhere(Some(campaignId));
    }

    /** `stop` saw the loop return and now waits for the workers there are. */
    method StopSawLoop()
      requires Valid() && stopTask.AwaitingLoop? && loop.Returned?
      modifies `stopTask
      ensures Valid() && stopTask == AwaitingJobs(jobs.Keys)
    {
      stopTask := AwaitingJobs(jobs.Keys);
    }

    /** Every worker that `stop` waited for is over. */
    method StopSawJobs()
      requires Valid() && stopTask == AwaitingJobs({})
      modifies `stopTask, `globalRun, `runEnds
      ensures Valid() && stopTask.StopEndingRun? && globalRun.None? && jobs == map[]
      ensures runEnds == if old(globalRun).None? then old(runEnds)
                         else old(runEnds) + [RunEnd(old(globalRun).value, "failed", {})]
    {
      assert active.Keys == {};
      FinishGlobalRun("failed");
      stopTask := StopEndingRun;
    }

    /** `stop` returns: nothing runs and no run is held. */
    method StopOver()
      requires Valid() && stopTask.StopEndingRun?
      modifies `loop, `stopTask
      ensures Valid() && loop.NotRunning? && jobs == map[] && active == map[] && globalRun.None? && stopped
    {
      loop, stopTask := NotRunning, NoStop;
    }

    // -------------------------------------------------------------- interleavings

    /** One step of some task that can move, with whatever its await answered. */
    method Step()
      requires Valid()
      modifies this
      ensures Valid()
    {
      hide *;
      var yes: bool, choice: int, definitions: seq<Definition> := *, *, *;
      if choice == 0 && loop.NotRunning? { Start(); }
      else if choice == 1 && loop.Reading? { StatusRead(if yes then Some(definitions) else None); }
      else if choice == 2 && loop.Visiting? { Visit(yes); }
      else if choice == 3 && (loop.TickDone? || loop.EndingRun?) { TickOver(); }
      else if choice == 4 && loop.Sleeping? { Woken(); }
      else if choice == 5 { WorkerStep(yes); }
      else if choice == 6 { StopStep(); }
      else if choice == 7 { var campaignId: string := *; StopCampaign(campaignId); }
    }

    method Visit(yes: bool)
      requires Valid() && loop.Visiting?
      modifies this
      ensures Valid()
    {
      hide *;
      var failed: bool := *;
      match loop.at
      case Acquiring => RunAnswered(yes);
      case Claiming(_) => ClaimAnswered(yes, failed);
      case _ => Visited(yes);
    }

    method WorkerStep(yes: bool)
      requires Valid()
      modifies this
      ensures Valid()
    {
      hide *;
      if jobs.Keys != {} {
        var id :| id in jobs.Keys;
        match jobs[id].at
        case Asserting => ClaimChecked(id, yes);
        case Executing => var result: Option<WorkerResult> := *; Executed(id, result);
        case Saving(_) => Saved(id, yes);
        case Finishing(_) => Finished(id, yes);
        case FailingOver => FailedOver(id, yes);
        case Ending => WorkerOver(id);
      }
    }

    method StopStep()
      requires Valid()
      modifies this
      ensures Valid()
    {
      hide *;
      if stopTask.NoStop? && !loop.NotRunning? { Stop(); }
      else if stopTask.AwaitingLoop? && loop.Returned? { StopSawLoop(); }
      else if stopTask == AwaitingJobs({}) { StopSawJobs(); }
      else if stopTask.StopEndingRun? { StopOver(); }
    }
  }

  /** What every interleaving keeps. */
  ghost predicate Safe(c: RepositoryCoordinator)
    reads c
  {
    && |c.active.Keys| <= 2 && c.jobs.Keys == c.active.Keys
    && (forall id :: id in c.jobs && c.jobs[id].kind.LiveCve? ==> c.globalRun.Some?)
    && (forall e :: e in c.runEnds ==> e.during == {} && c.globalRun != Some(e.run))
    && (forall i, j :: 0 <= i < j < |c.runEnds| ==> c.runEnds[i].run != c.runEnds[j].run)
    && OneReturn(c.finishes) && SuccessIsComplete(c.finishes)
    && c.lateLaunches <= 1
  }

  lemma ValidIsSafe(c: RepositoryCoordinator)
    requires c.Valid()
    ensures Safe(c)
  {
  }

  /** Any number of steps of any tasks in any order, with starts and stops. */
  method AnyInterleaving(hasLease: bool) returns (c: RepositoryCoordinator)
    ensures c.Valid() && Safe(c)
  {
    hide *;
    c := new RepositoryCoordinator(hasLease);
    var steps: int :| 0 <= steps;
    for n := 0 to steps
      invariant fresh(c) && c.Valid()
    {
      c.Step();
    }
    ValidIsSafe(c);
  }

  /** A claim in flight when `stop` is called still becomes a worker, which nobody aborts; `stop` waits for it. */
  method LaunchAfterStop() returns (c: RepositoryCoordinator)
    ensures c.Valid() && c.stopped && c.stopTask.AwaitingLoop?
    ensures c.jobs == map[0 := Process(DevelopmentCheckpoint, Asserting)] && c.active == map[0 := Active("curl", false)]
  {
    hide WorkersOk, FinishesOk, RunsOk;
    c := new RepositoryCoordinator(false);
    c.Start();
    var todo := [Definition("curl", Some(DevelopmentCheckpoint), true)];
    c.StatusRead(Some(todo));
    c.Visited(true);
    c.Visited(true);
    c.Visited(true);
    c.Visited(true);
    c.Stop();
    c.ClaimAnswered(true, false);
  }

  // ---------------------------------------------------------------- overlapping starts

  /**
   * Calls of `start` that overlap at `recoverInterrupted` each begin a loop. Of several loops: the
   * active workers, and how many loops are past the guard of `tick` with a claim in flight.
   */
  datatype Loops = Loops(active: nat, claiming: nat)

  datatype LoopEvent = PassGuard | ClaimGranted | ClaimMissed | WorkerEnds

  function LoopStep(s: Loops, e: LoopEvent, loops: nat): Loops {
    match e
    case PassGuard => if s.active < MAX_CONCURRENT_WORKERS && s.claiming < loops then s.(claiming := s.claiming + 1) else s
    case ClaimGranted => if s.claiming > 0 then Loops(s.active + 1, s.claiming - 1) else s
    case ClaimMissed => if s.claiming > 0 then s.(claiming := s.claiming - 1) else s
    case WorkerEnds => if s.active > 0 then s.(active := s.active - 1) else s
  }

  function LoopRun(events: seq<LoopEvent>, loops: nat): Loops {
    if events == [] then Loops(0, 0) else LoopStep(LoopRun(events[..|events| - 1], loops), events[|events| - 1], loops)
  }

  /** With `n` loops there are never more than n + 1 workers: two with one loop, three with two. */
  lemma {:induction false} OverlappingLoops(events: seq<LoopEvent>, loops: nat)
    requires loops > 0
    ensures var s := LoopRun(events, loops);
      s.claiming <= loops && s.active + s.claiming <= MAX_CONCURRENT_WORKERS + loops - 1
  {
    if events != [] { OverlappingLoops(events[..|events| - 1], loops); }
  }

  lemma {:induction false} Repeated(events: seq<LoopEvent>, e: LoopEvent, k: nat, loops: nat)
    requires (e.PassGuard? || e.ClaimGranted?) && LoopRun(events, loops).active <= 1
    requires e.PassGuard? ==> LoopRun(events, loops).claiming + k <= loops
    requires e.ClaimGranted? ==> k <= LoopRun(events, loops).claiming
    ensures var s, t := LoopRun(events, loops), LoopRun(events + seq(k, (_: nat) => e), loops);
      t == if e.PassGuard? then Loops(s.active, s.claiming + k) else Loops(s.active + k, s.claiming - k)
  {
    if k == 0 {
      assert events + seq(k, (_: nat) => e) == events;
    } else {
      Repeated(events, e, k - 1, loops);
      var all := events + seq(k, (_: nat) => e);
      assert all[..|all| - 1] == events + seq(k - 1, (_: nat) => e) && all[|all| - 1] == e;
    }
  }

  /** The bound is reached: with one worker active, every loop passes the guard before the first claim is answered. */
  lemma BoundIsReached(loops: nat) returns (events: seq<LoopEvent>)
    requires loops > 0
    ensures LoopRun(events, loops).active == MAX_CONCURRENT_WORKERS + loops - 1
  {
    var first := [PassGuard] + [ClaimGranted];
    assert LoopRun([PassGuard], loops) == Loops(0, 1) by { assert [PassGuard][..0] == []; }
    assert LoopRun(first, loops) == Loops(1, 0) by { assert first[..1] == [PassGuard] && first[1] == ClaimGranted; }
    Repeated(first, PassGuard, loops, loops);
    Repeated(first + seq(loops, (_: nat) => PassGuard), ClaimGranted, loops, loops);
    events := first + seq(loops, (_: nat) => PassGuard) + seq(loops, (_: nat) => ClaimGranted);
  }
}
