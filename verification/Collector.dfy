/**
 * The paid collectors: under one lock, a run opens a phase journal and the shared budget journal
 * and reserves, starts, sends, completes and settles one attempt per slot. A run may end at any
 * await, by an exception, an append of unknown outcome or the death of the process.
 */
module Collector {
  import opened Wrappers
  import opened JournalText
  import opened Journal
  import opened Budget
  import opened Spend

  /** One planned run: its key in the phase journal and its run id in both journals. */
  datatype Planned = Planned(slotKey: string, runId: string)

  // ---------------------------------------------------------------- what a phase journal keeps

  ghost predicate Completes(r: Entry, slotKey: string) {
    r.kind == "attempt_completed" && r.payload == Slot(slotKey)
  }

  /** No slot is completed twice. */
  ghost predicate OneCompletion(rs: seq<Entry>) {
    forall i, j, k :: 0 <= i < j < |rs| && Completes(rs[i], k) ==> !Completes(rs[j], k)
  }

  predicate Opening(r: Entry) { r.kind == "attempt_started" || r.kind == "budget_reserved" }

  /** A new attempt of a run carries an epoch above every earlier epoch of that run. */
  ghost predicate EpochsRise(rs: seq<Entry>) {
    forall j :: 0 <= j < |rs| && Opening(rs[j]) ==> FreshEpoch(rs[..j], rs[j])
  }

  ghost predicate FreshEpoch(rs: seq<Entry>, r: Entry) {
    && r.runId.Some? && r.epoch.Some?
    && (r.runId.value in Epochs(rs) ==> Epochs(rs)[r.runId.value] < r.epoch.value)
  }

  /** Aborting an attempt that still counts as active cannot trip the stale-epoch guard. */
  ghost predicate ActiveNotStale(rs: seq<Entry>) {
    forall id, r :: ActiveAt(rs, r, id) ==> !Stale(rs, r.runId, r.epoch)
  }

  ghost predicate PhaseInv(rs: seq<Entry>) {
    OneCompletion(rs) && EpochsRise(rs) && ActiveNotStale(rs)
  }

  ghost predicate BudgetInv(rs: seq<Entry>) { WithinCaps(rs) && EpochsRise(rs) }

  ghost predicate IsReservation(r: Entry, id: string) {
    r.kind == "budget_reserved" && r.payload == Reservation(id, RUN_TOKENS, RUN_WALL_MS)
  }

  ghost predicate IsAdmission(r: Entry, q: Sent) {
    r.kind == "llm_request_admitted" && r.attemptId == Some(q.attemptId) && r.payload == Request(q.iteration)
  }

  ghost predicate Reserved(budget: seq<Entry>, id: string) { exists r :: r in budget && IsReservation(r, id) }

  ghost predicate Admitted(phase: seq<Entry>, q: Sent) { exists r :: r in phase && IsAdmission(r, q) }

  /** Every request that was sent is backed by a durable reservation and a durable admission. */
  ghost predicate Backed(budget: seq<Entry>, development: seq<Entry>, heldout: seq<Entry>, sent: seq<Sent>) {
    forall q :: q in sent ==> Reserved(budget, q.attemptId) && (Admitted(development, q) || Admitted(heldout, q))
  }

  // ---------------------------------------------------------------- how appends keep it

  /** The record does not raise the noted epoch of its run. */
  ghost predicate Noted(rs: seq<Entry>, r: Entry) {
    r.runId.Some? && r.epoch.Some? ==> r.runId.value in Epochs(rs) && r.epoch.value <= Epochs(rs)[r.runId.value]
  }

  ghost predicate NoneActive(rs: seq<Entry>) { forall id, r :: !ActiveAt(rs, r, id) }

  lemma EpochsRiseStep(rs: seq<Entry>, r: Entry)
    requires EpochsRise(rs) && (Opening(r) ==> FreshEpoch(rs, r))
    ensures EpochsRise(rs + [r])
  {
    var s := rs + [r];
    forall j | 0 <= j < |s| && Opening(s[j]) ensures FreshEpoch(s[..j], s[j]) {
      assert s[..j] == rs[..j];
    }
  }

  lemma ActiveStep(rs: seq<Entry>, r: Entry)
    ensures forall id, x :: ActiveAt(rs + [r], x, id) <==>
      if Mentions(r, id) then x == r && r.kind in ACTIVE_KINDS else ActiveAt(rs, x, id)
  {
    assert (rs + [r])[..|rs|] == rs;
  }

  /** Any record that opens nothing, completes no completed slot and raises no epoch. */
  lemma PhaseStep(rs: seq<Entry>, r: Entry)
    requires PhaseInv(rs) && Noted(rs, r) && r.kind !in ACTIVE_KINDS && !Opening(r)
    requires forall k, i :: Completes(r, k) && 0 <= i < |rs| ==> !Completes(rs[i], k)
    ensures PhaseInv(rs + [r]) && (NoneActive(rs) ==> NoneActive(rs + [r]))
    ensures Epochs(rs + [r]) == Epochs(rs)
  {
    CompletionStep(rs, r);
    EpochsRiseStep(rs, r);
    EpochsStep(rs, r);
    NotStaleStep(rs, r);
  }

  lemma NotStaleStep(rs: seq<Entry>, r: Entry)
    requires ActiveNotStale(rs) && Epochs(rs + [r]) == Epochs(rs) && r.kind !in ACTIVE_KINDS
    ensures ActiveNotStale(rs + [r]) && (NoneActive(rs) ==> NoneActive(rs + [r]))
  {
    ActiveStep(rs, r);
  }

  lemma CompletionStep(rs: seq<Entry>, r: Entry)
    requires OneCompletion(rs) && forall k, i :: Completes(r, k) && 0 <= i < |rs| ==> !Completes(rs[i], k)
    ensures OneCompletion(rs + [r])
  {
    var s := rs + [r];
    forall i, j, k | 0 <= i < j < |s| && Completes(s[i], k) ensures !Completes(s[j], k) {
      assert s[i] == rs[i];
      if j < |rs| { assert s[j] == rs[j]; }
    }
  }

  /** A new attempt with a fresh epoch, once every interrupted attempt is aborted. */
  lemma PhaseStarts(rs: seq<Entry>, r: Entry)
    requires PhaseInv(rs) && NoneActive(rs) && r.kind == "attempt_started" && FreshEpoch(rs, r)
    ensures PhaseInv(rs + [r])
    ensures forall run :: run != r.runId.value ==>
      (run in Epochs(rs + [r]) <==> run in Epochs(rs)) && (run in Epochs(rs) ==> Epochs(rs + [r])[run] == Epochs(rs)[run])
    ensures r.runId.value in Epochs(rs + [r]) && Epochs(rs + [r])[r.runId.value] == r.epoch.value
  {
    CompletionStep(rs, r);
    EpochsRiseStep(rs, r);
    EpochsStep(rs, r);
    ActiveStep(rs, r);
  }

  /** A reservation that passed the admission test, or the settlement that follows it. */
  lemma BudgetStep(rs: seq<Entry>, r: Entry)
    requires BudgetInv(rs) && (Opening(r) ==> FreshEpoch(rs, r))
    requires r.kind == "budget_reserved" ==> UsageOf(rs).Some? && Fits(UsageOf(rs).value) && RunReservation(r.payload)
    ensures BudgetInv(rs + [r])
  {
    EpochsRiseStep(rs, r);
    CapsStep(rs, r);
  }

  lemma BackedGrows(b: seq<Entry>, d: seq<Entry>, h: seq<Entry>, b': seq<Entry>, d': seq<Entry>, h': seq<Entry>, sent: seq<Sent>)
    requires Backed(b, d, h, sent) && b <= b' && d <= d' && h <= h'
    ensures Backed(b', d', h', sent)
  {
    forall q | q in sent ensures Reserved(b', q.attemptId) && (Admitted(d', q) || Admitted(h', q)) {
      var r :| r in b && IsReservation(r, q.attemptId);
      assert r in b';
      if Admitted(d, q) {
        var a :| a in d && IsAdmission(a, q);
        assert a in d';
      } else {
        var a :| a in h && IsAdmission(a, q);
        assert a in h';
      }
    }
  }

  // ---------------------------------------------------------------- the world of the collectors

  /** Lawful, and the payloads above are plain JSON already. */
  ghost predicate PlainCodec(c: Codec<Payload>) {
    Lawful(c) && forall p :: c.readBack(p) == p && (c.persist(p) == Some(p) || c.persist(p) == None)
  }

  lemma PlainRereads(c: Codec<Payload>, rs: seq<Entry>)
    requires PlainCodec(c)
    ensures RereadAll(c, rs) == rs
  {
    assert forall i :: 0 <= i < |rs| ==> Reread(c, rs[i]) == rs[i];
  }

  datatype Phase = Development | Heldout

  class World {
    const codec: Codec<Payload>
    const development: LogFile<Payload>
    const heldout: LogFile<Payload>
    const budget: LogFile<Payload>
    var lockHeld: bool
    var sent: seq<Sent>

    constructor (codec: Codec<Payload>)
      requires PlainCodec(codec)
      ensures Inv() && sent == []
      ensures fresh(development) && fresh(heldout) && fresh(budget)
    {
      this.codec := codec;
      development := new LogFile();
      heldout := new LogFile();
      budget := new LogFile();
      lockHeld, sent := false, [];
      new;
      assert RereadAll(codec, []) == [];
    }

    /** Holds between any two steps of any run. */
    ghost predicate Inv()
      reads this, development, heldout, budget
    {
      && PlainCodec(codec)
      && development != heldout && development != budget && heldout != budget
      && Tracks(codec, development.text, development.durable) && PhaseInv(development.durable)
      && Tracks(codec, heldout.text, heldout.durable) && PhaseInv(heldout.durable)
      && Tracks(codec, budget.text, budget.durable) && BudgetInv(budget.durable)
      && Backed(budget.durable, development.durable, heldout.durable, sent) && Accounted(budget.durable, sent)
      && development.staleRefusals == 0 && heldout.staleRefusals == 0 && budget.staleRefusals == 0
    }
  }

  // ---------------------------------------------------------------- one append

  datatype Attempt = Attempt(runId: string, attemptId: string, epoch: int)

  /** The journal can be appended to, and its memory is what is on disk. */
  ghost predicate Ready(j: PilotJournal<Payload>)
    reads j, j.file
  {
    PlainCodec(j.codec) && j.Valid() && !j.appendOutcomeUncertain && j.file.durable == j.records
  }

  ghost predicate IsEntry(r: Entry, kind: string, payload: Payload, a: Attempt) {
    && r.kind == kind && r.payload == payload
    && r.runId == Some(a.runId) && r.attemptId == Some(a.attemptId) && r.epoch == Some(a.epoch)
  }

  ghost predicate EndsWith(rs: seq<Entry>, kind: string, payload: Payload, a: Attempt) {
    rs != [] && IsEntry(rs[|rs| - 1], kind, payload, a)
  }

  /** The disk has failed an append since there were `faults` of them, or the payload is not JSON. */
  ghost predicate DiskFailed(j: PilotJournal<Payload>, faults: nat, payload: Payload)
    reads j, j.file
  {
    j.file.faults > faults || j.codec.persist(payload).None?
  }

  /** `append` for an attempt; `next` is the record that it forms. */
  method Put(j: PilotJournal<Payload>, kind: string, payload: Payload, a: Attempt)
    returns (res: AppendResult<Payload>, ghost next: Entry)
    requires Ready(j)
    modifies j, j.file
    ensures j.Valid() && IsEntry(next, kind, payload, a)
    ensures res == Refused(StaleEpoch) ==> Stale(old(j.records), Some(a.runId), Some(a.epoch))
    ensures j.file.staleRefusals == old(j.file.staleRefusals) + if res == Refused(StaleEpoch) then 1 else 0
    ensures res.Appended? ==> Ready(j) && j.records == old(j.records) + [next]
    ensures res.Refused? ==> Ready(j) && j.records == old(j.records)
    ensures !res.Appended? && res != Refused(StaleEpoch) ==> DiskFailed(j, old(j.file.faults), payload)
    ensures res.OutcomeUnknown? ==>
      && j.appendOutcomeUncertain && j.records == old(j.records)
      && (j.file.durable == old(j.records) || j.file.durable == old(j.records) + [next])
  {
    hide Lawful, Tracks, InStep, Chain, Epochs;
    ghost var before := j.records;
    next := NextRecord(j.codec, before, kind, "monitor-live-11-12", payload, Some(a.runId), Some(a.attemptId), Some(a.epoch));
    res := j.Append(kind, "monitor-live-11-12", payload, Some(a.runId), Some(a.attemptId), Some(a.epoch));
    assert Reread(j.codec, next) == next;
    assert res.Appended? || res.OutcomeUnknown? || res.why.Uncertain? || res.why.StaleEpoch? || res.why.BadPayload? || res.why.NotOpened?;
  }

  ghost predicate NotCompleted(rs: seq<Entry>, slotKey: string) { forall r :: r in rs ==> !Completes(r, slotKey) }

  /** The attempt owns the latest epoch of its run and no other attempt counts as active. */
  ghost predicate Current(rs: seq<Entry>, a: Attempt) {
    && a.runId in Epochs(rs) && Epochs(rs)[a.runId] == a.epoch
    && forall id, r :: ActiveAt(rs, r, id) ==> id == a.attemptId
  }

  /** An attempt is under way on phase journal `j`. */
  ghost predicate InRun(w: World, j: PilotJournal<Payload>, a: Attempt)
    reads w, w.development, w.heldout, w.budget, j, j.file
  {
    && w.Inv() && Ready(j) && j.codec == w.codec && (j.file == w.development || j.file == w.heldout)
    && Reserved(w.budget.durable, a.attemptId)
    && Current(j.records, a)
  }

  lemma CurrentStep(rs: seq<Entry>, a: Attempt, r: Entry)
    requires PhaseInv(rs) && Current(rs, a) && r.kind !in ACTIVE_KINDS && !Opening(r)
    requires r.runId == Some(a.runId) && r.attemptId == Some(a.attemptId) && r.epoch == Some(a.epoch)
    requires forall k :: Completes(r, k) ==> NotCompleted(rs, k)
    ensures PhaseInv(rs + [r]) && Current(rs + [r], a)
  {
    forall k, i | Completes(r, k) && 0 <= i < |rs| ensures !Completes(rs[i], k) { assert rs[i] in rs; }
    PhaseStep(rs, r);
    ActiveStep(rs, r);
  }

  lemma CurrentNotStale(rs: seq<Entry>, a: Attempt)
    requires Current(rs, a)
    ensures !Stale(rs, Some(a.runId), Some(a.epoch))
  {
  }

  /** A record of the attempt in its phase journal. */
  method Log(w: World, j: PilotJournal<Payload>, a: Attempt, kind: string, payload: Payload)
    returns (res: AppendResult<Payload>, ghost next: Entry)
    requires InRun(w, j, a) && kind != "attempt_started" && kind != "attempt_running" && kind != "budget_reserved"
    requires kind == "attempt_completed" && payload.Slot? ==> NotCompleted(j.records, payload.slotKey)
    modifies j, j.file
    ensures w.Inv() && j.Valid() && (j.appendOutcomeUncertain || InRun(w, j, a))
    ensures IsEntry(next, kind, payload, a) && next.kind == kind && next.runId == Some(a.runId)
    ensures j.records == old(j.records) || j.records == old(j.records) + [next]
    ensures res.Appended? ==> InRun(w, j, a) && j.records == old(j.records) + [next]
    ensures res.Refused? ==> InRun(w, j, a) && j.records == old(j.records)
    ensures res != Refused(StaleEpoch) && (!res.Appended? ==> DiskFailed(j, old(j.file.faults), payload))
    ensures j.file.durable == old(j.records) || j.file.durable == old(j.records) + [next]
  {
    hide Lawful, Tracks, InStep, PhaseInv, BudgetInv, Backed, Accounted, Current;
    ghost var before, d, h := j.records, w.development.durable, w.heldout.durable;
    CurrentNotStale(before, a);
    res, next := Put(j, kind, payload, a);
    CurrentStep(before, a, next);
    BackedGrows(w.budget.durable, d, h, w.budget.durable, w.development.durable, w.heldout.durable, w.sent);
  }

  // ---------------------------------------------------------------- one trajectory

  datatype Step = Went | Failed | Died

  /** The records that only describe an attempt. */
  datatype Descriptive =
    | Boundary | Prediction | Intervention | ResponseReceived | BillingReceived | ResponseBilled
    | ForbiddenOperation | DeterministicIntervention | VirtualTurn | TrajectoryFinished

  function KindOf(d: Descriptive): (kind: string)
    ensures kind !in {"attempt_started", "attempt_running", "attempt_completed", "budget_reserved"}
  {
    match d
    case Boundary => "boundary"
    case Prediction => "prediction"
    case Intervention => "intervention"
    case ResponseReceived => "llm_response_received"
    case BillingReceived => "llm_billing_metadata_received"
    case ResponseBilled => "llm_response_billed"
    case ForbiddenOperation => "forbidden_operation"
    case DeterministicIntervention => "deterministic_intervention"
    case VirtualTurn => "virtual_turn"
    case TrajectoryFinished => "trajectory_finished"
  }

  /**
   * Any number of descriptive records; the process may die at any of the awaits. Here and below
   * `trouble` notes what goes wrong outside: a death, a call that throws, an append that fails, a
   * reply that must be refused, a clock that has run out.
   */
  method Describe(w: World, j: PilotJournal<Payload>, a: Attempt, kinds: seq<Descriptive>, ghost base: seq<Entry>)
    returns (step: Step, ghost trouble: bool)
    requires InRun(w, j, a) && Extends(a.runId, base, j.records)
    modifies j, j.file
    ensures w.Inv() && j.Valid() && (j.appendOutcomeUncertain || InRun(w, j, a))
    ensures step.Went? ==> InRun(w, j, a)
    ensures !trouble ==> step.Went?
    ensures Extends(a.runId, base, j.records)
  {
    InRunMeans(w, j, a);
    hide *;
    step, trouble := Went, false;
    for i := 0 to |kinds|
      invariant InRun(w, j, a) && w.Inv() && j.Valid() && Extends(a.runId, base, j.records) && step.Went?
    {
      var times: int :| 0 <= times;
      for n := 0 to times
        invariant InRun(w, j, a) && w.Inv() && j.Valid() && Extends(a.runId, base, j.records) && step.Went?
      {
        ghost var before := j.records;
        var res, next := Log(w, j, a, KindOf(kinds[i]), Note);
        ExtendsStep(a.runId, base, before, next);
        var dies: bool := *;
        trouble := dies || !res.Appended?;
        if dies { return Died, trouble; }
        if !res.Appended? { return Failed, trouble; }
        InRunMeans(w, j, a);
      }
    }
  }

  lemma InRunMeans(w: World, j: PilotJournal<Payload>, a: Attempt)
    requires InRun(w, j, a)
    ensures w.Inv() && j.Valid() && Current(j.records, a) && j.file != w.budget
  {
  }

  /** The noted epochs of all runs but `run` are the same. */
  ghost predicate SameEpochsBut(run: string, before: seq<Entry>, after: seq<Entry>) {
    forall x :: x != run ==>
      (x in Epochs(after) <==> x in Epochs(before)) && (x in Epochs(before) ==> Epochs(after)[x] == Epochs(before)[x])
  }

  lemma SameEpochsStep(run: string, before: seq<Entry>, rs: seq<Entry>, r: Entry)
    requires SameEpochsBut(run, before, rs) && r.runId == Some(run)
    ensures SameEpochsBut(run, before, rs + [r])
  {
    EpochsStep(rs, r);
  }

  ghost predicate NoCompletionAdded(before: seq<Entry>, after: seq<Entry>) {
    forall k :: NotCompleted(before, k) ==> NotCompleted(after, k)
  }

  /** `rs` goes on from `base` with records of `run`, none of which completes a slot. */
  ghost predicate Extends(run: string, base: seq<Entry>, rs: seq<Entry>) {
    base <= rs && NoCompletionAdded(base, rs) && SameEpochsBut(run, base, rs)
  }

  lemma ExtendsStep(run: string, base: seq<Entry>, rs: seq<Entry>, r: Entry)
    requires Extends(run, base, rs) && r.runId == Some(run) && r.kind != "attempt_completed"
    ensures Extends(run, base, rs + [r])
  {
    SameEpochsStep(run, base, rs, r);
  }

  /**
   * Recovery sees an attempt only while its last record says that it started or runs. The records
   * of a trajectory carry the attempt's id too, so an attempt interrupted in the middle of one is
   * not reported as active; no other promise rests on that step.
   */
  lemma InterruptedIsNotActive(rs: seq<Entry>, r: Entry, id: string)
    requires Mentions(r, id)
    ensures (exists x :: ActiveAt(rs + [r], x, id)) <==> r.kind in ACTIVE_KINDS
    ensures forall d :: r.kind == KindOf(d) ==> forall x :: !ActiveAt(rs + [r], x, id)
    ensures r.kind == "llm_request_admitted" ==> forall x :: !ActiveAt(rs + [r], x, id)
  {
    ActiveStep(rs, r);
    if r.kind in ACTIVE_KINDS { assert ActiveAt(rs + [r], r, id); }
  }

  /** What the requests since `root` were billed, all of them by attempt `a`, which has not settled. */
  ghost predicate Tally(w: World, root: seq<Sent>, a: Attempt, tokens: int)
    reads w, w.budget
  {
    Tallied(w.budget.durable, w.sent, root, a.attemptId, tokens)
  }

  /** One model request: admitted in the journal, then sent. */
  method AdmitAndSend(w: World, j: PilotJournal<Payload>, a: Attempt, iteration: int, promptBytes: nat, maxTokens: int,
                      used: int, ghost base: seq<Entry>, ghost root: seq<Sent>)
    returns (step: Step, reply: Reply, ghost went: bool, ghost trouble: bool)
    requires InRun(w, j, a) && Extends(a.runId, base, j.records)
    requires Tally(w, root, a, used) && promptBytes + maxTokens <= RUN_TOKENS - used
    modifies j, j.file, w`sent
    ensures w.Inv() && j.Valid() && (j.appendOutcomeUncertain || InRun(w, j, a))
    ensures step.Went? ==> InRun(w, j, a) && went
    ensures !trouble ==> step.Went?
    ensures Extends(a.runId, base, j.records)
    ensures var q := Sent(a.attemptId, iteration, promptBytes, maxTokens, reply);
      if went then w.sent == old(w.sent) + [q] && Tally(w, root, a, used + Cost(q))
      else w.sent == old(w.sent)
  {
    InRunMeans(w, j, a);
    hide *;
    went, reply := false, *;
    ghost var next;
    step, next, trouble := Admit(w, j, a, iteration, base);
    if !step.Went? { return; }
    reply := Send(w, j, a, iteration, promptBytes, maxTokens, used, next, root);
    went := true;
    step, trouble := AwaitReply();
  }

  /** The model call returns, throws or never comes back; it may have been charged all the same. */
  method AwaitReply() returns (step: Step, ghost trouble: bool)
    ensures !trouble <==> step.Went?
  {
    var dies: bool, throws: bool := *, *;
    trouble := dies || throws;
    step := if dies then Died else if throws then Failed else Went;
  }

  /** The admission record of a request. */
  method Admit(w: World, j: PilotJournal<Payload>, a: Attempt, iteration: int, ghost base: seq<Entry>)
    returns (step: Step, ghost next: Entry, ghost trouble: bool)
    requires InRun(w, j, a) && Extends(a.runId, base, j.records)
    modifies j, j.file
    ensures w.Inv() && j.Valid() && (j.appendOutcomeUncertain || InRun(w, j, a))
    ensures step.Went? ==> InRun(w, j, a) && next in j.records && IsEntry(next, "llm_request_admitted", Request(iteration), a)
    ensures !trouble ==> step.Went?
    ensures Extends(a.runId, base, j.records)
  {
    InRunMeans(w, j, a);
    hide *;
    ghost var before := j.records;
    var res;
    res, next := Log(w, j, a, "llm_request_admitted", Request(iteration));
    ExtendsStep(a.runId, base, before, next);
    var dies: bool := *;
    trouble := dies || !res.Appended?;
    step := if dies then Died else if res.Appended? then Went else Failed;
    if step.Went? { assert j.records[|before|] == next; }
  }

  /** The request leaves; the provider answers and bills what it will. */
  method Send(w: World, j: PilotJournal<Payload>, a: Attempt, iteration: int, promptBytes: nat, maxTokens: int, used: int,
              ghost admission: Entry, ghost root: seq<Sent>)
    returns (reply: Reply)
    requires InRun(w, j, a) && admission in j.records
    requires IsEntry(admission, "llm_request_admitted", Request(iteration), a)
    requires Tally(w, root, a, used) && promptBytes + maxTokens <= RUN_TOKENS - used
    modifies w`sent
    ensures var q := Sent(a.attemptId, iteration, promptBytes, maxTokens, reply);
      w.Inv() && j.Valid() && InRun(w, j, a) && w.sent == old(w.sent) + [q] && Tally(w, root, a, used + Cost(q))
  {
    hide Lawful, Tracks, InStep, PhaseInv, BudgetInv, UsageOf, Accounted, Backed, Tallied, Current, Admitted, IsEntry;
    reply := *;
    var q := Sent(a.attemptId, iteration, promptBytes, maxTokens, reply);
    ghost var sent, budget := w.sent, w.budget.durable;
    AdmissionIsSeen(j.records, admission, q, a);
    BackedSends(budget, w.development.durable, w.heldout.durable, sent, q);
    TalliedSends(budget, sent, root, q, used);
    w.sent := w.sent + [q];
  }

  lemma AdmissionIsSeen(rs: seq<Entry>, admission: Entry, q: Sent, a: Attempt)
    requires admission in rs && IsEntry(admission, "llm_request_admitted", Request(q.iteration), a) && q.attemptId == a.attemptId
    ensures Admitted(rs, q)
  {
    assert IsAdmission(admission, q);
  }

  lemma BackedSends(b: seq<Entry>, d: seq<Entry>, h: seq<Entry>, sent: seq<Sent>, q: Sent)
    requires Backed(b, d, h, sent) && Reserved(b, q.attemptId) && (Admitted(d, q) || Admitted(h, q))
    ensures Backed(b, d, h, sent + [q])
  {
  }

  /** The requests that one attempt adds: one per iteration, in order, from the first on. */
  ghost predicate SentBy(before: seq<Sent>, after: seq<Sent>, id: string, count: nat) {
    && |after| == |before| + count && before <= after
    && forall i :: |before| <= i < |after| ==> after[i].attemptId == id && after[i].iteration == i - |before| + 1
  }

  lemma SentByStep(before: seq<Sent>, after: seq<Sent>, id: string, count: nat, q: Sent)
    requires SentBy(before, after, id, count) && q.attemptId == id && q.iteration == count + 1
    ensures SentBy(before, after + [q], id, count + 1)
  {
  }

  lemma RunLimits()
    ensures RUN_TOKENS > 0 && RUN_WALL_MS > 0 && RUN_CALLS > 0
  {
  }

  /** The request of a turn: within its caller's cap and within what is left of the run's tokens. */
  ghost predicate Asked(q: Sent, a: Attempt, iteration: int, maxOutputTokens: int, used: int) {
    && q.attemptId == a.attemptId && q.iteration == iteration
    && q.maxTokens <= maxOutputTokens && q.maxTokens <= RUN_TOKENS - used
    && (q.maxTokens == maxOutputTokens || q.maxTokens == RUN_TOKENS - used)
    && q.promptBytes + q.maxTokens <= RUN_TOKENS - used
  }

  /** A reply that the turn accepts: authentic, within the request's cap and the run's tokens. */
  ghost predicate Accepted(q: Sent, used: int) {
    q.reply.authentic && q.reply.visible <= q.maxTokens && used + q.reply.prompt + q.reply.completion <= RUN_TOKENS
  }

  lemma AskedFits(q: Sent, a: Attempt, iteration: int, maxOutputTokens: int, used: int)
    requires q.attemptId == a.attemptId && q.iteration == iteration && q.promptBytes + q.maxTokens <= RUN_TOKENS - used
    requires q.maxTokens == if maxOutputTokens < RUN_TOKENS - used then maxOutputTokens else RUN_TOKENS - used
    ensures Asked(q, a, iteration, maxOutputTokens, used)
  {
  }

  /** The checks on a reply, in their order; `q` is the request that it answers. */
  method CheckReply(reply: Reply, maxTokens: int, used: int, ghost q: Sent) returns (accepted: bool)
    requires q.reply == reply && q.maxTokens == maxTokens
    ensures accepted <==> Accepted(q, used)
    ensures Cost(q) == reply.prompt + reply.completion && (accepted ==> used + Cost(q) <= RUN_TOKENS)
  {
    if !reply.authentic { return false; }
    if reply.visible > maxTokens { return false; }
    if used + reply.prompt + reply.completion > RUN_TOKENS { return false; }
    return true;
  }

  /** A request and its reply: of a request that goes through, all that the provider bills is counted. */
  method Exchange(w: World, j: PilotJournal<Payload>, a: Attempt, iteration: nat, promptBytes: nat, maxTokens: int, used: int,
                  ghost base: seq<Entry>, ghost root: seq<Sent>)
    returns (step: Step, tokens: int, ghost went: bool, ghost q: Sent, ghost trouble: bool)
    requires InRun(w, j, a) && Extends(a.runId, base, j.records) && 0 <= used <= RUN_TOKENS
    requires Tally(w, root, a, used) && promptBytes + maxTokens <= RUN_TOKENS - used
    modifies j, j.file, w`sent
    ensures w.Inv() && j.Valid() && (j.appendOutcomeUncertain || InRun(w, j, a))
    ensures 0 <= tokens <= RUN_TOKENS && Extends(a.runId, base, j.records)
    ensures q == Sent(a.attemptId, iteration, promptBytes, maxTokens, q.reply)
    ensures w.sent == if went then old(w.sent) + [q] else old(w.sent)
    ensures step.Went? ==>
      InRun(w, j, a) && went && Accepted(q, used) && tokens == used + Cost(q) && Tally(w, root, a, tokens)
    ensures !trouble ==> step.Went?
  {
    InRunMeans(w, j, a);
    hide *;
    tokens := used;
    var reply;
    step, reply, went, trouble := AdmitAndSend(w, j, a, iteration, promptBytes, maxTokens, used, base, root);
    q := Sent(a.attemptId, iteration, promptBytes, maxTokens, reply);
    if !step.Went? { return; }
    step, tokens, trouble := Receive(w, j, a, reply, maxTokens, used, base, q);
  }

  /** The reply is recorded, checked and counted; then the turn is carried out. */
  method Receive(w: World, j: PilotJournal<Payload>, a: Attempt, reply: Reply, maxTokens: int, used: int,
                 ghost base: seq<Entry>, ghost q: Sent)
    returns (step: Step, tokens: int, ghost trouble: bool)
    requires InRun(w, j, a) && Extends(a.runId, base, j.records) && 0 <= used <= RUN_TOKENS
    requires q.reply == reply && q.maxTokens == maxTokens
    modifies j, j.file
    ensures w.Inv() && j.Valid() && (j.appendOutcomeUncertain || InRun(w, j, a))
    ensures 0 <= tokens <= RUN_TOKENS && Extends(a.runId, base, j.records)
    ensures step.Went? ==> InRun(w, j, a) && Accepted(q, used) && tokens == used + Cost(q)
    ensures !trouble ==> step.Went?
  {
    InRunMeans(w, j, a);
    hide *;
    tokens := used;
    step, trouble := Describe(w, j, a, [ResponseReceived, BillingReceived], base);
    if !step.Went? { return; }
    trouble := !Accepted(q, used);
    var accepted := CheckReply(reply, maxTokens, tokens, q);
    if !accepted { step := Failed; return; }
    tokens := tokens + reply.prompt + reply.completion;
    step, trouble := Describe(w, j, a, [ResponseBilled, ForbiddenOperation, DeterministicIntervention, VirtualTurn], base);
  }

  /**
   * One turn of the trajectory; `stop` leaves the loop without an exception. Of a request that went
   * through, all that the provider bills is counted.
   */
  method Turn(w: World, j: PilotJournal<Payload>, a: Attempt, maxOutputTokens: int, iteration: nat, used: int, deadline: bool,
              ghost base: seq<Entry>, ghost root: seq<Sent>)
    returns (step: Step, stop: bool, tokens: int, ghost went: bool, ghost q: Sent, ghost trouble: bool)
    requires InRun(w, j, a) && Extends(a.runId, base, j.records) && 0 <= used <= RUN_TOKENS && Tally(w, root, a, used)
    modifies j, j.file, w`sent
    ensures w.Inv() && j.Valid() && (j.appendOutcomeUncertain || InRun(w, j, a))
    ensures step.Went? ==> InRun(w, j, a) && (went || stop)
    ensures 0 <= tokens <= RUN_TOKENS && Extends(a.runId, base, j.records)
    ensures deadline ==> step.Went? && stop && !went
    ensures !trouble ==> step.Went?
    ensures w.sent == if went then old(w.sent) + [q] else old(w.sent)
    ensures went ==> Asked(q, a, iteration, maxOutputTokens, used)
    ensures step.Went? ==>
      tokens == used + (if went then Cost(q) else 0) && Tally(w, root, a, tokens) && (went ==> Accepted(q, used))
  {
    InRunMeans(w, j, a);
    RunLimits();
    hide *;
    step, stop, tokens, went, q, trouble := Went, true, used, false, *, false;
    if deadline { return; }
    if iteration > 1 {
      step, trouble := Describe(w, j, a, [Boundary, Prediction, Intervention], base);
      if !step.Went? { return; }
    }
    var promptBytes: nat := *;
    var maxTokens := if maxOutputTokens < RUN_TOKENS - tokens then maxOutputTokens else RUN_TOKENS - tokens;
    if promptBytes + maxTokens > RUN_TOKENS - tokens { return; }
    step, tokens, went, q, trouble := Exchange(w, j, a, iteration, promptBytes, maxTokens, used, base, root);
    AskedFits(q, a, iteration, maxOutputTokens, used);
    stop := *;
  }

  /** Two reads of the clock, as milliseconds since the trajectory began: for the check and for the result. */
  datatype Clock = Clock(checked: nat, reported: nat)

  /**
   * One trajectory: at most sixteen requests, each within what is left of the run's tokens. What it
   * returns is what the provider billed for its requests. The clock, the prompt sizes, the replies
   * and the tool results are whatever they are.
   */
  method RunLiveTrajectory(w: World, j: PilotJournal<Payload>, a: Attempt, maxOutputTokens: int, clock: Clock,
                           ghost base: seq<Entry>)
    returns (step: Step, tokens: int, wallMs: int, ghost calls: nat, ghost trouble: bool)
    requires InRun(w, j, a) && Extends(a.runId, base, j.records) && Tally(w, w.sent, a, 0)
    modifies j, j.file, w`sent
    ensures w.Inv() && j.Valid() && (j.appendOutcomeUncertain || InRun(w, j, a))
    ensures step.Went? ==> InRun(w, j, a) && 0 <= tokens <= RUN_TOKENS && Tally(w, old(w.sent), a, tokens)
    ensures step.Went? ==> clock.checked <= RUN_WALL_MS && wallMs == clock.reported
    ensures !trouble ==> step.Went?
    ensures Extends(a.runId, base, j.records)
    ensures SentBy(old(w.sent), w.sent, a.attemptId, calls) && calls <= RUN_CALLS
  {
    InRunMeans(w, j, a);
    RunLimits();
    SentByNone(w.sent, a.attemptId);
    hide *;
    tokens, wallMs, calls, trouble := 0, 0, 0, false;
    var iteration := 1;
    var stop := false;
    while iteration <= RUN_CALLS && !stop
      invariant 1 <= iteration <= RUN_CALLS + 1 && calls < iteration && (!stop ==> calls == iteration - 1)
      invariant InRun(w, j, a) && w.Inv() && j.Valid() && 0 <= tokens <= RUN_TOKENS && j.file != w.budget
      invariant Extends(a.runId, base, j.records) && SentBy(old(w.sent), w.sent, a.attemptId, calls)
      invariant Tally(w, old(w.sent), a, tokens)
    {
      var deadline: bool := *;
      step, stop, tokens, calls, trouble := CountedTurn(w, j, a, maxOutputTokens, iteration, tokens, deadline, base, old(w.sent));
      if !step.Went? { return; }
      iteration := iteration + 1;
    }
    step, wallMs, trouble := FinishTrajectory(w, j, a, clock, base);
  }

  lemma AskedStep(root: seq<Sent>, sent: seq<Sent>, a: Attempt, iteration: nat, maxOutputTokens: int, used: int, q: Sent)
    requires iteration > 0 && SentBy(root, sent, a.attemptId, iteration - 1) && Asked(q, a, iteration, maxOutputTokens, used)
    ensures SentBy(root, sent + [q], a.attemptId, iteration)
  {
    SentByStep(root, sent, a.attemptId, iteration - 1, q);
  }

  /** One turn, with the requests of the attempt so far: one for each earlier iteration. */
  method CountedTurn(w: World, j: PilotJournal<Payload>, a: Attempt, maxOutputTokens: int, iteration: nat, used: int,
                     deadline: bool, ghost base: seq<Entry>, ghost root: seq<Sent>)
    returns (step: Step, stop: bool, tokens: int, ghost calls: nat, ghost trouble: bool)
    requires InRun(w, j, a) && Extends(a.runId, base, j.records) && 0 <= used <= RUN_TOKENS && Tally(w, root, a, used)
    requires iteration > 0 && SentBy(root, w.sent, a.attemptId, iteration - 1)
    modifies j, j.file, w`sent
    ensures w.Inv() && j.Valid() && (j.appendOutcomeUncertain || InRun(w, j, a))
    ensures step.Went? ==> InRun(w, j, a) && (stop || calls == iteration) && Tally(w, root, a, tokens)
    ensures !trouble ==> step.Went?
    ensures 0 <= tokens <= RUN_TOKENS && Extends(a.runId, base, j.records)
    ensures SentBy(root, w.sent, a.attemptId, calls) && calls <= iteration
  {
    InRunMeans(w, j, a);
    hide *;
    ghost var sent, went, q := w.sent, false, *;
    step, stop, tokens, went, q, trouble := Turn(w, j, a, maxOutputTokens, iteration, used, deadline, base, root);
    if went { AskedStep(root, sent, a, iteration, maxOutputTokens, used, q); }
    calls := if went then iteration else iteration - 1;
  }

  /** The wall clock is checked, and read again for the result. */
  method FinishTrajectory(w: World, j: PilotJournal<Payload>, a: Attempt, clock: Clock, ghost base: seq<Entry>)
    returns (step: Step, wallMs: int, ghost trouble: bool)
    requires InRun(w, j, a) && Extends(a.runId, base, j.records)
    modifies j, j.file
    ensures w.Inv() && j.Valid() && (j.appendOutcomeUncertain || InRun(w, j, a))
    ensures step.Went? ==> InRun(w, j, a) && clock.checked <= RUN_WALL_MS && wallMs == clock.reported
    ensures !trouble ==> step.Went?
    ensures Extends(a.runId, base, j.records)
  {
    InRunMeans(w, j, a);
    hide *;
    wallMs := 0;
    trouble := clock.checked > RUN_WALL_MS;
    if clock.checked > RUN_WALL_MS { return Failed, 0, trouble; }
    step, trouble := Describe(w, j, a, [Intervention, TrajectoryFinished], base);
    wallMs := clock.reported;
  }

  lemma SentByNone(sent: seq<Sent>, id: string)
    ensures SentBy(sent, sent, id, 0)
  {
  }

  // ---------------------------------------------------------------- one slot

  /** Between two attempts: both journals in step with their files and nothing under way. */
  ghost predicate Idle(w: World, j: PilotJournal<Payload>, g: PilotJournal<Payload>)
    reads w, w.development, w.heldout, w.budget, j, j.file, g, g.file
  {
    && w.Inv() && Ready(j) && Ready(g) && j.codec == w.codec && g.codec == w.codec && j != g
    && (j.file == w.development || j.file == w.heldout) && g.file == w.budget
    && NoneActive(j.records)
  }

  predicate Above(rs: seq<Entry>, run: string, epoch: int) { run in Epochs(rs) ==> Epochs(rs)[run] < epoch }

  /** The budget journal, open next to phase journal `j`. */
  ghost predicate Beside(w: World, j: PilotJournal<Payload>, g: PilotJournal<Payload>)
    reads g, g.file
  {
    Ready(g) && g.codec == w.codec && j != g && g.file == w.budget
  }

  lemma BesideMeans(w: World, j: PilotJournal<Payload>, g: PilotJournal<Payload>)
    requires Beside(w, j, g) && w.Inv() && (j.file == w.development || j.file == w.heldout)
    ensures g.Valid() && j != g && j.file != g.file
  {
  }

  /** The reservation, admitted by the ledger, with an epoch above every earlier one of its run. */
  method Reserve(w: World, j: PilotJournal<Payload>, g: PilotJournal<Payload>, a: Attempt)
    returns (res: AppendResult<Payload>)
    requires Idle(w, j, g) && Above(g.records, a.runId, a.epoch)
    requires UsageOf(g.records).Some? && Fits(UsageOf(g.records).value)
    modifies g, g.file
    ensures w.Inv() && g.Valid() && res != Refused(StaleEpoch)
    ensures !res.Appended? ==> DiskFailed(g, old(g.file.faults), Reservation(a.attemptId, RUN_TOKENS, RUN_WALL_MS))
    ensures Ready(j) && NoneActive(j.records)
    ensures res.Appended? ==>
      && Idle(w, j, g) && Reserved(w.budget.durable, a.attemptId)
      && SameEpochsBut(a.runId, old(g.records), g.records) && OwnsEpoch(g.records, a) && Beside(w, j, g)
      && Tally(w, w.sent, a, 0)
  {
    hide Lawful, Tracks, InStep, PhaseInv, BudgetInv, Backed, Accounted, NoneActive, UsageOf, Fits;
    ghost var before := g.records;
    var payload := Reservation(a.attemptId, RUN_TOKENS, RUN_WALL_MS);
    ghost var next;
    res, next := Put(g, "budget_reserved", payload, a);
    BudgetStep(before, next);
    AccountedRecords(before, next, w.sent);
    SameEpochsStep(a.runId, before, before, next);
    EpochsStep(before, next);
    if UsageOf(before + [next]).Some? { NewAttempt(w, before, next); }
    BackedGrows(before, w.development.durable, w.heldout.durable, w.budget.durable, w.development.durable, w.heldout.durable, w.sent);
    if res.Appended? { assert next in w.budget.durable && IsReservation(next, a.attemptId); }
  }

  /** A reservation that the ledger accepts is the attempt's first trace. */
  lemma NewAttempt(w: World, before: seq<Entry>, next: Entry)
    requires Backed(before, w.development.durable, w.heldout.durable, w.sent)
    requires next.kind == "budget_reserved" && next.payload.Reservation? && UsageOf(before + [next]).Some?
    ensures SpentBy(w.sent, next.payload.attemptId) == 0 && Unsettled(before + [next], next.payload.attemptId)
  {
    BackedIsReserved(before, w.development.durable, w.heldout.durable, w.sent);
    ReservedIsNew(before, next, w.sent);
  }

  lemma BackedIsReserved(budget: seq<Entry>, development: seq<Entry>, heldout: seq<Entry>, sent: seq<Sent>)
    requires Backed(budget, development, heldout, sent)
    ensures AllReserved(budget, sent)
  {
    forall q | q in sent ensures HasReservation(budget, q.attemptId, Usage(RUN_TOKENS, RUN_WALL_MS)) {
      var r :| r in budget && IsReservation(r, q.attemptId);
      var i :| 0 <= i < |budget| && budget[i] == r;
      assert ReservedAt(budget, i, q.attemptId, Usage(RUN_TOKENS, RUN_WALL_MS));
    }
  }

  method Start(w: World, j: PilotJournal<Payload>, g: PilotJournal<Payload>, slot: Planned, a: Attempt)
    returns (res: AppendResult<Payload>)
    requires Idle(w, j, g) && Above(j.records, a.runId, a.epoch) && Reserved(w.budget.durable, a.attemptId)
    modifies j, j.file
    ensures w.Inv() && j.Valid() && Ready(g) && res != Refused(StaleEpoch)
    ensures !res.Appended? ==> DiskFailed(j, old(j.file.faults), Slot(slot.slotKey))
    ensures res.Appended? ==> InRun(w, j, a) && Extends(a.runId, old(j.records), j.records)
    ensures res.Appended? ==> StartedAs(j.records, slot.slotKey, a)
  {
    hide Lawful, Tracks, InStep, PhaseInv, BudgetInv, Backed, Accounted, NoneActive, Current, StartedAs;
    ghost var before, d, h := j.records, w.development.durable, w.heldout.durable;
    ghost var next;
    res, next := Put(j, "attempt_started", Slot(slot.slotKey), a);
    PhaseStarts(before, next);
    StartCurrent(before, a, next);
    ExtendsStep(a.runId, before, before, next);
    StartIsSeen(before, next, slot.slotKey, a);
    BackedGrows(w.budget.durable, d, h, w.budget.durable, w.development.durable, w.heldout.durable, w.sent);
  }

  lemma StartIsSeen(rs: seq<Entry>, r: Entry, slotKey: string, a: Attempt)
    requires IsEntry(r, "attempt_started", Slot(slotKey), a)
    ensures StartedAs(rs + [r], slotKey, a)
  {
    assert (rs + [r])[|rs|] == r;
  }

  lemma StartCurrent(rs: seq<Entry>, a: Attempt, r: Entry)
    requires PhaseInv(rs) && NoneActive(rs) && IsEntry(r, "attempt_started", r.payload, a) && FreshEpoch(rs, r)
    ensures Current(rs + [r], a)
  {
    PhaseStarts(rs, r);
    ActiveStep(rs, r);
  }

  /** The phase journal after the attempt is completed: nothing is under way any more. */
  lemma CompleteIdle(rs: seq<Entry>, a: Attempt, r: Entry)
    requires Current(rs, a) && IsEntry(r, "attempt_completed", r.payload, a) && a.attemptId != ""
    ensures NoneActive(rs + [r])
  {
    ActiveStep(rs, r);
  }

  lemma CompletionAdded(a: Attempt, base: seq<Entry>, rs: seq<Entry>, r: Entry, slotKey: string)
    requires Extends(a.runId, base, rs) && IsEntry(r, "attempt_completed", Slot(slotKey), a)
    ensures Moved(a.runId, slotKey, base, rs + [r]) && EndsWith(rs + [r], "attempt_completed", Slot(slotKey), a)
  {
    assert r in rs + [r] && Completes(r, slotKey);
    SameEpochsStep(a.runId, base, rs, r);
  }

  /** The slot is completed; the others keep their epochs and stay not completed. */
  ghost predicate Moved(run: string, slotKey: string, base: seq<Entry>, rs: seq<Entry>) {
    base <= rs && !NotCompleted(rs, slotKey) && SameEpochsBut(run, base, rs) &&
    forall k :: k != slotKey && NotCompleted(base, k) ==> NotCompleted(rs, k)
  }

  ghost predicate OwnsEpoch(rs: seq<Entry>, a: Attempt) { a.runId in Epochs(rs) && Epochs(rs)[a.runId] == a.epoch }

  lemma ReservedGrows(rs: seq<Entry>, id: string)
    requires Reserved(rs, id)
    ensures forall r :: Reserved(rs + [r], id)
  {
    var x :| x in rs && IsReservation(x, id);
    assert forall r: Entry :: x in rs + [r];
  }

  /** The settlement; it may exceed the reservation, and then no later admission passes. */
  method Settle(w: World, j: PilotJournal<Payload>, g: PilotJournal<Payload>, a: Attempt, tokens: int, wallMs: int,
                ghost base: seq<Entry>, ghost root: seq<Sent>)
    returns (res: AppendResult<Payload>)
    requires Idle(w, j, g) && InRun(w, j, a) && OwnsEpoch(g.records, a) && SameEpochsBut(a.runId, base, g.records)
    requires Tally(w, root, a, tokens)
    modifies g, g.file
    ensures w.Inv() && g.Valid() && InRun(w, j, a) && res != Refused(StaleEpoch)
    ensures !res.Appended? ==> DiskFailed(g, old(g.file.faults), Settlement(a.attemptId, tokens, wallMs))
    ensures res.Appended? ==> Idle(w, j, g) && SameEpochsBut(a.runId, base, g.records)
    ensures res.Appended? ==>
      |g.records| == |old(g.records)| + 1 && EndsWith(g.records, "budget_settled", Settlement(a.attemptId, tokens, wallMs), a)
  {
    hide Lawful, Tracks, InStep, PhaseInv, BudgetInv, Backed, Accounted, NoneActive, UsageOf, Fits;
    ghost var before := g.records;
    ReservedGrows(before, a.attemptId);
    ghost var next;
    res, next := Put(g, "budget_settled", Settlement(a.attemptId, tokens, wallMs), a);
    BudgetStep(before, next);
    AccountedRecords(before, next, w.sent);
    SameEpochsStep(a.runId, base, before, next);
    BackedGrows(before, w.development.durable, w.heldout.durable, w.budget.durable, w.development.durable, w.heldout.durable, w.sent);
  }

  /** The last records of both journals complete the slot and settle the same attempt with these amounts. */
  ghost predicate Finished(phase: seq<Entry>, budget: seq<Entry>, slotKey: string, run: string, epoch: int, tokens: int,
                           wallMs: int)
  {
    phase != [] && budget != [] &&
    var p, b := phase[|phase| - 1], budget[|budget| - 1];
    && Completes(p, slotKey) && b.kind == "budget_settled" && b.payload.Settlement?
    && b.payload.actualTokens == tokens && b.payload.actualWallMs == wallMs && p.attemptId == b.attemptId == Some(b.payload.attemptId)
    && p.runId == b.runId == Some(run) && p.epoch == b.epoch == Some(epoch)
  }

  /**
   * The slot is finished, settled with what the provider billed for the requests sent since
   * `before`, which is within the run's tokens, and with the time that the clock reported.
   */
  ghost predicate PaidFor(phase: seq<Entry>, budget: seq<Entry>, slotKey: string, run: string, epoch: int, before: seq<Sent>,
                          sent: seq<Sent>, clock: Clock)
  {
    && before <= sent && Spent(sent[|before|..]) <= RUN_TOKENS && clock.checked <= RUN_WALL_MS
    && Finished(phase, budget, slotKey, run, epoch, Spent(sent[|before|..]), clock.reported)
  }

  lemma SlotFinished(phase: seq<Entry>, budget: seq<Entry>, slotKey: string, a: Attempt, tokens: int, wallMs: int)
    requires EndsWith(phase, "attempt_completed", Slot(slotKey), a)
    requires EndsWith(budget, "budget_settled", Settlement(a.attemptId, tokens, wallMs), a)
    ensures Finished(phase, budget, slotKey, a.runId, a.epoch, tokens, wallMs)
  {
  }

  datatype SlotEnd = Done | Stopped | Faulted | Dead

  /**
   * One slot of the loop, from the admission test to the settlement or the abort record. A finished
   * slot settles what the provider billed for its requests, and the time that the clock reported.
   */
  method RunSlot(w: World, j: PilotJournal<Payload>, g: PilotJournal<Payload>, slot: Planned, epoch: int, maxOutputTokens: int,
                 clock: Clock)
    returns (end: SlotEnd, ghost trouble: bool)
    requires Idle(w, j, g) && NotCompleted(j.records, slot.slotKey)
    requires Above(j.records, slot.runId, epoch) && Above(g.records, slot.runId, epoch)
    modifies j, j.file, g, g.file, w`sent
    ensures w.Inv() && j.Valid() && g.Valid()
    ensures end.Done? ==>
      Idle(w, j, g) && Moved(slot.runId, slot.slotKey, old(j.records), j.records)
      && SameEpochsBut(slot.runId, old(g.records), g.records)
      && PaidFor(j.records, g.records, slot.slotKey, slot.runId, epoch, old(w.sent), w.sent, clock)
    ensures UsageOf(old(g.records)).None? ==>
      end.Faulted? && Idle(w, j, g) && w.sent == old(w.sent) && j.records == old(j.records) && g.records == old(g.records)
    ensures UsageOf(old(g.records)).Some? && !Fits(UsageOf(old(g.records)).value) ==>
      end.Stopped? && Idle(w, j, g) && w.sent == old(w.sent) && j.records == old(j.records) && g.records == old(g.records)
    ensures !trouble && UsageOf(old(g.records)).Some? && Fits(UsageOf(old(g.records)).value) ==> end.Done?
    ensures end.Stopped? ==>
      HasAborted(j.records, slot.slotKey) || (j.records == old(j.records) && g.records == old(g.records) && w.sent == old(w.sent))
    ensures old(w.sent) <= w.sent && |w.sent| <= |old(w.sent)| + RUN_CALLS
  {
    IdleMeans(w, j, g);
    RunLimits();
    hide *;
    assert "uuid" != "";
    var attemptId: string :| attemptId != "";  // randomUUID
    var a := Attempt(slot.runId, attemptId, epoch);
    var used := GlobalBudgetUsage(g.records);
    if used.None? { return Faulted, false; }
    var fits := FitsRun(used.value);
    if !fits { return Stopped, false; }
    var reserved := Reserve(w, j, g, a);
    var dies: bool, secured: bool := *, *;  // chmod of the journal, outside the try block like the append itself
    trouble := dies || !reserved.Appended? || !secured;
    if dies { return Dead, trouble; }
    if !reserved.Appended? || !secured { return Faulted, trouble; }
    var started := Start(w, j, g, slot, a);
    dies, secured := *, *;
    trouble := dies || !started.Appended? || !secured;
    if dies { return Dead, trouble; }
    if !started.Appended? || !secured { return Faulted, trouble; }
    end, trouble := Carry(w, j, g, slot, a, maxOutputTokens, clock, old(j.records), old(g.records));
  }

  method FitsRun(used: Usage) returns (fits: bool)
    ensures fits <==> Fits(used)
  {
    fits := Fits(used);
  }

  lemma IdleMeans(w: World, j: PilotJournal<Payload>, g: PilotJournal<Payload>)
    requires Idle(w, j, g)
    ensures w.Inv() && j.Valid() && g.Valid() && j != g && j.file != g.file
    ensures Ready(j) && Ready(g)
  {
  }

  /** The attempt is one of the slot's. */
  ghost predicate StartedAs(rs: seq<Entry>, slotKey: string, a: Attempt) {
    exists i :: 0 <= i < |rs| && Starts(rs[i], slotKey) && rs[i].attemptId == Some(a.attemptId)
  }

  /** From its abort record on, the slot is known to have an aborted attempt. */
  lemma AbortIsSeen(start: seq<Entry>, before: seq<Entry>, after: seq<Entry>, slotKey: string, a: Attempt)
    requires StartedAs(start, slotKey, a) && start <= before && |after| == |before| + 1 && before <= after
    requires IsEntry(after[|after| - 1], "attempt_aborted", Slot(slotKey), a)
    ensures HasAborted(after, slotKey)
  {
    var i :| 0 <= i < |start| && Starts(start[i], slotKey) && start[i].attemptId == Some(a.attemptId);
    assert after[i] == start[i];
  }

  lemma ExtendsSelf(run: string, rs: seq<Entry>)
    ensures Extends(run, rs, rs)
  {
  }

  lemma ExtendsTrans(run: string, a: seq<Entry>, b: seq<Entry>, c: seq<Entry>)
    requires Extends(run, a, b) && Extends(run, b, c)
    ensures Extends(run, a, c) && b <= c
  {
  }

  lemma SentByMeans(before: seq<Sent>, after: seq<Sent>, id: string, count: nat)
    requires SentBy(before, after, id, count)
    ensures before <= after && |after| == |before| + count
  {
  }

  /** A started attempt: the try block, and the catch block for what it throws. */
  method Carry(w: World, j: PilotJournal<Payload>, g: PilotJournal<Payload>, slot: Planned, a: Attempt, maxOutputTokens: int,
               clock: Clock, ghost base: seq<Entry>, ghost budgetBase: seq<Entry>)
    returns (end: SlotEnd, ghost trouble: bool)
    requires InRun(w, j, a) && Beside(w, j, g) && Extends(a.runId, base, j.records) && OwnsEpoch(g.records, a)
    requires SameEpochsBut(a.runId, budgetBase, g.records)
    requires NotCompleted(base, slot.slotKey) && a.attemptId != "" && StartedAs(j.records, slot.slotKey, a)
    requires Tally(w, w.sent, a, 0)
    modifies j, j.file, g, g.file, w`sent
    ensures w.Inv() && j.Valid() && g.Valid()
    ensures end.Stopped? ==> HasAborted(j.records, slot.slotKey)
    ensures !trouble ==> end.Done?
    ensures old(w.sent) <= w.sent && |w.sent| <= |old(w.sent)| + RUN_CALLS
    ensures end.Done? ==>
      Idle(w, j, g) && Moved(a.runId, slot.slotKey, base, j.records) && SameEpochsBut(a.runId, budgetBase, g.records)
      && PaidFor(j.records, g.records, slot.slotKey, a.runId, a.epoch, old(w.sent), w.sent, clock)
  {
    BesideMeans(w, j, g);
    hide *;
    ghost var start := j.records;
    end, trouble := CarryOut(w, j, g, slot, a, maxOutputTokens, clock, base, budgetBase);
    if !end.Stopped? { return; }
    ghost var failing;
    end, failing := Catch(w, j, a, slot, start);
  }

  /** The try block: the trajectory, its completion and its settlement; Stopped stands for an exception. */
  method CarryOut(w: World, j: PilotJournal<Payload>, g: PilotJournal<Payload>, slot: Planned, a: Attempt, maxOutputTokens: int,
                  clock: Clock, ghost base: seq<Entry>, ghost budgetBase: seq<Entry>)
    returns (end: SlotEnd, ghost trouble: bool)
    requires InRun(w, j, a) && Beside(w, j, g) && Extends(a.runId, base, j.records) && OwnsEpoch(g.records, a)
    requires SameEpochsBut(a.runId, budgetBase, g.records)
    requires NotCompleted(base, slot.slotKey) && a.attemptId != "" && Tally(w, w.sent, a, 0)
    modifies j, j.file, g, g.file, w`sent
    ensures w.Inv() && j.Valid() && g.Valid() && (end.Done? || end.Stopped? || end.Dead?)
    ensures end.Stopped? ==> j.appendOutcomeUncertain || InRun(w, j, a)
    ensures old(j.records) <= j.records && (!trouble ==> end.Done?)
    ensures old(w.sent) <= w.sent && |w.sent| <= |old(w.sent)| + RUN_CALLS
    ensures end.Done? ==>
      Idle(w, j, g) && Moved(a.runId, slot.slotKey, base, j.records) && SameEpochsBut(a.runId, budgetBase, g.records)
      && PaidFor(j.records, g.records, slot.slotKey, a.runId, a.epoch, old(w.sent), w.sent, clock)
  {
    BesideMeans(w, j, g);
    hide *;
    ghost var start := j.records;
    ExtendsSelf(a.runId, start);
    var step, tokens, wallMs;
    ghost var calls;
    step, tokens, wallMs, calls, trouble := RunLiveTrajectory(w, j, a, maxOutputTokens, clock, start);
    SentByMeans(old(w.sent), w.sent, a.attemptId, calls);
    ExtendsTrans(a.runId, base, start, j.records);
    if step.Died? { return Dead, trouble; }
    if step.Failed? { return Stopped, trouble; }
    WillBePaidFor(w, slot.slotKey, a, old(w.sent), tokens, clock);
    end, trouble := CompleteAndSettle(w, j, g, slot, a, tokens, wallMs, base, budgetBase, old(w.sent));
  }

  /** Once the slot is finished with what the trajectory returned, it is settled with what was billed. */
  lemma WillBePaidFor(w: World, slotKey: string, a: Attempt, before: seq<Sent>, tokens: int, clock: Clock)
    requires Tally(w, before, a, tokens) && tokens <= RUN_TOKENS && clock.checked <= RUN_WALL_MS
    ensures forall phase, budget :: Finished(phase, budget, slotKey, a.runId, a.epoch, tokens, clock.reported) ==>
      PaidFor(phase, budget, slotKey, a.runId, a.epoch, before, w.sent, clock)
  {
  }

  /** The catch block as a whole: unless it fails too, the slot is from now on known to need a retry. */
  method Catch(w: World, j: PilotJournal<Payload>, a: Attempt, slot: Planned, ghost start: seq<Entry>)
    returns (end: SlotEnd, ghost trouble: bool)
    requires w.Inv() && j.Valid() && (j.appendOutcomeUncertain || InRun(w, j, a))
    requires StartedAs(start, slot.slotKey, a) && start <= j.records
    modifies j, j.file
    ensures w.Inv() && j.Valid() && (end.Dead? || end.Faulted? || end.Stopped?)
    ensures !trouble ==> end.Stopped?
    ensures end.Stopped? ==> HasAborted(j.records, slot.slotKey)
  {
    hide *;
    ghost var before := j.records;
    var ok := AbortAttempt(w, j, a, slot);
    var dies: bool := *;
    trouble := dies || !ok;
    if dies { return Dead, trouble; }
    if !ok { return Faulted, trouble; }
    AbortIsSeen(start, before, j.records, slot.slotKey, a);
    return Stopped, trouble;
  }

  /** The completion record and the settlement; Stopped stands for an exception of either. */
  method CompleteAndSettle(w: World, j: PilotJournal<Payload>, g: PilotJournal<Payload>, slot: Planned, a: Attempt,
                           tokens: int, wallMs: int, ghost base: seq<Entry>, ghost budgetBase: seq<Entry>,
                           ghost root: seq<Sent>)
    returns (end: SlotEnd, ghost trouble: bool)
    requires InRun(w, j, a) && Beside(w, j, g) && Extends(a.runId, base, j.records) && OwnsEpoch(g.records, a)
    requires SameEpochsBut(a.runId, budgetBase, g.records)
    requires NotCompleted(base, slot.slotKey) && a.attemptId != "" && Tally(w, root, a, tokens)
    modifies j, j.file, g, g.file
    ensures w.Inv() && j.Valid() && g.Valid() && (end.Done? || end.Stopped? || end.Dead?)
    ensures end.Stopped? ==> j.appendOutcomeUncertain || InRun(w, j, a)
    ensures old(j.records) <= j.records && (!trouble ==> end.Done?)
    ensures end.Done? ==>
      Idle(w, j, g) && Moved(a.runId, slot.slotKey, base, j.records) && SameEpochsBut(a.runId, budgetBase, g.records)
      && Finished(j.records, g.records, slot.slotKey, a.runId, a.epoch, tokens, wallMs)
  {
    InRunMeans(w, j, a);
    BesideMeans(w, j, g);
    hide *;
    var completed := Complete(w, j, g, slot, a, base);
    var dies: bool := *;
    trouble := dies || !completed;
    if dies { return Dead, trouble; }
    if !completed { return Stopped, trouble; }
    end, trouble := SettleCompleted(w, j, g, slot, a, tokens, wallMs, budgetBase, root);
  }

  method SettleCompleted(w: World, j: PilotJournal<Payload>, g: PilotJournal<Payload>, slot: Planned, a: Attempt, tokens: int,
                         wallMs: int, ghost budgetBase: seq<Entry>, ghost root: seq<Sent>)
    returns (end: SlotEnd, ghost trouble: bool)
    requires Idle(w, j, g) && InRun(w, j, a) && OwnsEpoch(g.records, a) && SameEpochsBut(a.runId, budgetBase, g.records)
    requires EndsWith(j.records, "attempt_completed", Slot(slot.slotKey), a)
    requires Tally(w, root, a, tokens)
    modifies g, g.file
    ensures w.Inv() && j.Valid() && g.Valid() && InRun(w, j, a) && (end.Done? || end.Stopped? || end.Dead?)
    ensures !trouble ==> end.Done?
    ensures end.Done? ==>
      Idle(w, j, g) && SameEpochsBut(a.runId, budgetBase, g.records)
      && Finished(j.records, g.records, slot.slotKey, a.runId, a.epoch, tokens, wallMs)
  {
    IdleMeans(w, j, g);
    hide *;
    var settled := Settle(w, j, g, a, tokens, wallMs, budgetBase, root);
    var dies: bool := *;
    trouble := dies || !settled.Appended?;
    if dies { return Dead, trouble; }
    if !settled.Appended? { return Stopped, trouble; }
    SlotFinished(j.records, g.records, slot.slotKey, a, tokens, wallMs);
    return Done, trouble;
  }

  /** The completion record; with it nothing is under way any more. */
  method Complete(w: World, j: PilotJournal<Payload>, g: PilotJournal<Payload>, slot: Planned, a: Attempt, ghost base: seq<Entry>)
    returns (ok: bool)
    requires InRun(w, j, a) && Beside(w, j, g) && Extends(a.runId, base, j.records)
    requires NotCompleted(base, slot.slotKey) && a.attemptId != ""
    modifies j, j.file
    ensures w.Inv() && j.Valid() && (j.appendOutcomeUncertain || InRun(w, j, a))
    ensures old(j.records) <= j.records && (!ok ==> DiskFailed(j, old(j.file.faults), Slot(slot.slotKey)))
    ensures ok ==>
      && Idle(w, j, g) && InRun(w, j, a)
      && |j.records| == |old(j.records)| + 1 && EndsWith(j.records, "attempt_completed", Slot(slot.slotKey), a)
      && Moved(a.runId, slot.slotKey, base, j.records)
  {
    BesideMeans(w, j, g);
    InRunMeans(w, j, a);
    hide *;
    ghost var before := j.records;
    ExtendsMeans(a.runId, base, before, slot.slotKey);
    var completed, next := Log(w, j, a, "attempt_completed", Slot(slot.slotKey));
    ok := completed.Appended?;
    if ok { IsCompleted(w, j, g, a, base, before, next, slot.slotKey); }
  }

  lemma ExtendsMeans(run: string, base: seq<Entry>, rs: seq<Entry>, slotKey: string)
    requires Extends(run, base, rs) && NotCompleted(base, slotKey)
    ensures NotCompleted(rs, slotKey)
  {
  }

  lemma IsCompleted(w: World, j: PilotJournal<Payload>, g: PilotJournal<Payload>, a: Attempt, base: seq<Entry>,
                    before: seq<Entry>, r: Entry, slotKey: string)
    requires InRun(w, j, a) && Beside(w, j, g) && Current(before, a) && j.records == before + [r]
    requires Extends(a.runId, base, before) && IsEntry(r, "attempt_completed", Slot(slotKey), a) && a.attemptId != ""
    ensures Idle(w, j, g) && Moved(a.runId, slotKey, base, j.records)
    ensures before <= j.records && |j.records| == |before| + 1
    ensures EndsWith(j.records, "attempt_completed", Slot(slotKey), a)
  {
    hide *;
    CompletionAdded(a, base, before, r, slotKey);
    BecomeIdle(w, j, g, a, before, r, slotKey);
  }

  lemma BecomeIdle(w: World, j: PilotJournal<Payload>, g: PilotJournal<Payload>, a: Attempt, before: seq<Entry>, r: Entry,
                   slotKey: string)
    requires InRun(w, j, a) && Beside(w, j, g) && Current(before, a) && j.records == before + [r]
    requires IsEntry(r, "attempt_completed", Slot(slotKey), a) && a.attemptId != ""
    ensures Idle(w, j, g)
  {
    CompleteIdle(before, a, r);
  }

  /** The catch block: the attempt is recorded as aborted unless the journal itself is in doubt. */
  method AbortAttempt(w: World, j: PilotJournal<Payload>, a: Attempt, slot: Planned) returns (ok: bool)
    requires w.Inv() && j.Valid() && (j.appendOutcomeUncertain || InRun(w, j, a))
    modifies j, j.file
    ensures w.Inv() && j.Valid()
    ensures old(j.appendOutcomeUncertain) ==> !ok && j.file.durable == old(j.file.durable)
    ensures !ok ==> old(j.appendOutcomeUncertain) || DiskFailed(j, old(j.file.faults), Slot(slot.slotKey))
    ensures ok ==> |j.records| == |old(j.records)| + 1 && old(j.records) <= j.records
    ensures ok ==> IsEntry(j.records[|j.records| - 1], "attempt_aborted", Slot(slot.slotKey), a)
  {
    if j.appendOutcomeUncertain { return false; }
    var res, next := Log(w, j, a, "attempt_aborted", Slot(slot.slotKey));
    ok := res.Appended?;
  }

  // ---------------------------------------------------------------- opening a phase

  /** Abort records for attempts that count as active keep the phase journal in order. */
  lemma {:induction false} AbortsKeep(c: Codec<Payload>, rs: seq<Entry>, active: seq<Entry>, describe: Entry -> Payload,
                                      tail: seq<Entry>)
    requires PlainCodec(c) && PhaseInv(rs) && ActiveRecords(rs, active)
    requires AbortsOf(c, rs, active, "monitor-live-11-12", describe, tail)
    ensures PhaseInv(rs + tail) && Epochs(rs + tail) == Epochs(rs)
    decreases |tail|
  {
    hide Lawful, PhaseInv, ActiveRecords;
    if tail == [] {
      assert rs + tail == rs;
    } else {
      var n := |tail| - 1;
      AbortsKeep(c, rs, active, describe, tail[..n]);
      assert rs + tail == (rs + tail[..n]) + [tail[n]];
      ActiveIsNoted(rs, active, n);
      PhaseStep(rs + tail[..n], tail[n]);
    }
  }

  /** What still counts as active was active before and is not among the aborted ones. */
  lemma {:induction false} AbortsSettle(c: Codec<Payload>, rs: seq<Entry>, active: seq<Entry>, describe: Entry -> Payload,
                                        tail: seq<Entry>, id: string, x: Entry)
    requires AbortsOf(c, rs, active, "monitor-live-11-12", describe, tail) && ActiveAt(rs + tail, x, id)
    ensures ActiveAt(rs, x, id) && |tail| <= |active| && x !in active[..|tail|]
    decreases |tail|
  {
    if tail == [] {
      assert rs + tail == rs;
    } else {
      var n := |tail| - 1;
      assert rs + tail == (rs + tail[..n]) + [tail[n]];
      ActiveStep(rs + tail[..n], tail[n]);
      AbortsSettle(c, rs, active, describe, tail[..n], id, x);
      LastIndexIsLast(rs, id);
      assert active[..n + 1] == active[..n] + [active[n]];
    }
  }

  lemma AllAborted(c: Codec<Payload>, rs: seq<Entry>, active: seq<Entry>, describe: Entry -> Payload, tail: seq<Entry>)
    requires AbortsOf(c, rs, active, "monitor-live-11-12", describe, tail)
    requires ActiveRecords(rs, active) && |tail| == |active|
    ensures NoneActive(rs + tail)
  {
    assert active[..|active|] == active;
    forall id, x ensures !ActiveAt(rs + tail, x, id) {
      if ActiveAt(rs + tail, x, id) { AbortsSettle(c, rs, active, describe, tail, id, x); }
    }
  }

  lemma AbortNotStale(rs: seq<Entry>, active: seq<Entry>, k: nat, later: seq<Entry>)
    requires PhaseInv(rs) && ActiveRecords(rs, active) && k < |active| && Epochs(later) == Epochs(rs)
    ensures !Stale(later, active[k].runId, active[k].epoch)
  {
    assert active[k] in active;
    var id :| ActiveAt(rs, active[k], id);
  }

  lemma {:induction false} AbortsPrefix(c: Codec<Payload>, rs: seq<Entry>, active: seq<Entry>, describe: Entry -> Payload,
                                        tail: seq<Entry>, longer: seq<Entry>)
    requires AbortsOf(c, rs, active, "monitor-live-11-12", describe, longer) && tail <= longer
    ensures AbortsOf(c, rs, active, "monitor-live-11-12", describe, tail)
    decreases |longer|
  {
    if |tail| < |longer| {
      AbortsPrefix(c, rs, active, describe, tail, longer[..|longer| - 1]);
    } else {
      assert tail == longer;
    }
  }

  lemma ActiveIsNoted(rs: seq<Entry>, active: seq<Entry>, n: nat)
    requires ActiveRecords(rs, active) && n < |active|
    ensures Noted(rs, active[n])
  {
    var r := active[n];
    assert r in active;
    var id :| ActiveAt(rs, r, id);
    if r.runId.Some? && r.epoch.Some? {
      EpochsAreMaxima(rs, r.runId.value);
      assert HasEpoch(rs[LastIndex(rs, id)], r.runId.value, r.epoch.value);
    }
  }

  /** A phase journal that was just opened or cleaned up. */
  ghost predicate Opened(w: World, j: PilotJournal<Payload>)
    reads w, w.development, w.heldout, w.budget, j, j.file
  {
    w.Inv() && Ready(j) && j.codec == w.codec && (j.file == w.development || j.file == w.heldout)
  }

  /** Attempts that an earlier process left active are recorded as aborted before anything else. */
  method AbortInterrupted(w: World, j: PilotJournal<Payload>) returns (step: Step, stale: bool, ghost trouble: bool)
    requires Opened(w, j)
    modifies j, j.file
    ensures w.Inv() && j.Valid() && !stale
    ensures step.Went? ==> Opened(w, j) && NoneActive(j.records)
    ensures !trouble ==> step.Went?
  {
    hide Lawful, Tracks, InStep, PhaseInv, BudgetInv, Backed, Accounted, NoneActive, AbortsOf, ActiveRecords;
    ghost var before, d, h := j.records, w.development.durable, w.heldout.durable;
    var describe := (r: Entry) => Note;
    var ok, aborted, last, active, written := j.AbortActiveAttempts("monitor-live-11-12", describe);
    PlainRereads(w.codec, before + written);
    AbortsKeep(w.codec, before, active, describe, written);
    AbortsPrefix(w.codec, before, active, describe, aborted, written);
    AbortsKeep(w.codec, before, active, describe, aborted);
    if |aborted| < |active| { AbortNotStale(before, active, |aborted|, before + aborted); }
    if ok { AllAborted(w.codec, before, active, describe, aborted); }
    BackedGrows(w.budget.durable, d, h, w.budget.durable, w.development.durable, w.heldout.durable, w.sent);
    stale, trouble := last == Some(Refused(StaleEpoch)), !ok;
    var died: bool := *;
    step := if ok then Went else if died then Died else Failed;
  }

  // ---------------------------------------------------------------- one run of a collector

  /** The slots that have a completion record, whatever its index. */
  method CompletedSlots(records: seq<Entry>) returns (done: set<string>)
    ensures forall k :: k in done <==> !NotCompleted(records, k)
  {
    done := {};
    for i := 0 to |records|
      invariant forall k :: k in done <==> exists n :: 0 <= n < i && Completes(records[n], k)
    {
      if records[i].kind == "attempt_completed" && records[i].payload.Slot? {
        done := done + {records[i].payload.slotKey};
      }
    }
    forall k ensures k in done <==> !NotCompleted(records, k) {
      if k in done { assert exists r :: r in records && Completes(r, k); }
    }
  }

  /** The collector's own pass over a journal for the latest epoch of every run. */
  method LatestEpochs(records: seq<Entry>) returns (epochs: map<string, int>)
    ensures epochs == Epochs(records)
  {
    epochs := map[];
    assert records[..0] == [];
    for i := 0 to |records|
      invariant epochs == Epochs(records[..i])
    {
      assert records[..i + 1] == records[..i] + [records[i]];
      EpochsStep(records[..i], records[i]);
      epochs := NoteEpoch(epochs, records[i]);
    }
    assert records[..|records|] == records;
  }

  predicate Starts(r: Entry, slotKey: string) { r.kind == "attempt_started" && r.payload == Slot(slotKey) }

  function CountStarts(rs: seq<Entry>, slotKey: string): nat {
    if rs == [] then 0 else CountStarts(rs[..|rs| - 1], slotKey) + if Starts(rs[|rs| - 1], slotKey) then 1 else 0
  }

  /** Some earlier attempt of the slot has an abort record. */
  predicate HasAborted(rs: seq<Entry>, slotKey: string) {
    exists i, j :: 0 <= i < |rs| && 0 <= j < |rs|
      && Starts(rs[i], slotKey) && rs[j].kind == "attempt_aborted" && rs[j].attemptId == rs[i].attemptId
  }

  function Max(a: int, b: int): int { if a > b then a else b }

  function EpochOr0(epochs: map<string, int>, run: string): int { if run in epochs then epochs[run] else 0 }

  function NextEpoch(rs: seq<Entry>, slot: Planned, globalEpochs: map<string, int>, localEpochs: map<string, int>): int {
    Max(CountStarts(rs, slot.slotKey), Max(EpochOr0(globalEpochs, slot.runId), EpochOr0(localEpochs, slot.runId))) + 1
  }

  ghost predicate DistinctPlan(slots: seq<Planned>) {
    forall i, k :: 0 <= i < k < |slots| ==> slots[i].slotKey != slots[k].slotKey && slots[i].runId != slots[k].runId
  }

  /** What the collector looked up at the start is still right for the slots from `i` on. */
  ghost predicate StillRight(slots: seq<Planned>, i: nat, done: set<string>, localEpochs: map<string, int>,
                             globalEpochs: map<string, int>, phase: seq<Entry>, budget: seq<Entry>)
  {
    forall k :: i <= k < |slots| ==>
      && (slots[k].slotKey in done <==> !NotCompleted(phase, slots[k].slotKey))
      && SameAt(slots[k].runId, Epochs(phase), localEpochs) && SameAt(slots[k].runId, Epochs(budget), globalEpochs)
  }

  ghost predicate SameAt(run: string, m: map<string, int>, n: map<string, int>) {
    (run in m <==> run in n) && (run in m ==> m[run] == n[run])
  }

  lemma StillRightStep(slots: seq<Planned>, i: nat, done: set<string>, localEpochs: map<string, int>,
                       globalEpochs: map<string, int>, phase: seq<Entry>, budget: seq<Entry>,
                       phase': seq<Entry>, budget': seq<Entry>)
    requires i < |slots| && DistinctPlan(slots) && StillRight(slots, i, done, localEpochs, globalEpochs, phase, budget)
    requires Moved(slots[i].runId, slots[i].slotKey, phase, phase') && SameEpochsBut(slots[i].runId, budget, budget')
    ensures StillRight(slots, i + 1, done, localEpochs, globalEpochs, phase', budget')
    ensures AllDone(phase, slots[..i]) ==> AllDone(phase', slots[..i + 1])
  {
    CompletedStays(phase, phase');
    assert slots[..i + 1] == slots[..i] + [slots[i]];
  }

  /** Every slot has its completion record. */
  ghost predicate AllDone(rs: seq<Entry>, slots: seq<Planned>) {
    forall slot :: slot in slots ==> !NotCompleted(rs, slot.slotKey)
  }

  lemma CompletedStays(rs: seq<Entry>, longer: seq<Entry>)
    requires rs <= longer
    ensures forall k :: !NotCompleted(rs, k) ==> !NotCompleted(longer, k)
    ensures forall slots :: AllDone(rs, slots) ==> AllDone(longer, slots)
  {
    forall k | !NotCompleted(rs, k) ensures !NotCompleted(longer, k) {
      var r :| r in rs && Completes(r, k);
      assert r in longer;
    }
  }

  lemma EpochIsAbove(slots: seq<Planned>, i: nat, done: set<string>, localEpochs: map<string, int>,
                     globalEpochs: map<string, int>, phase: seq<Entry>, budget: seq<Entry>)
    requires i < |slots| && StillRight(slots, i, done, localEpochs, globalEpochs, phase, budget)
    ensures var e := NextEpoch(phase, slots[i], globalEpochs, localEpochs);
      Above(phase, slots[i].runId, e) && Above(budget, slots[i].runId, e)
    ensures slots[i].slotKey !in done ==> NotCompleted(phase, slots[i].slotKey)
  {
  }

  /** `LockFailed` tells whether the lock file was created before the error. */
  datatype RunEnd = LockHeld | LockFailed(created: bool) | Killed | Ended(end: SlotEnd) | ReleaseFailed

  /** The loop over the planned slots. */
  method RunSlots(w: World, j: PilotJournal<Payload>, g: PilotJournal<Payload>, slots: seq<Planned>, retryAborted: bool,
                  maxOutputTokens: int)
    returns (end: SlotEnd, ghost trouble: bool)
    requires Idle(w, j, g) && DistinctPlan(slots)
    modifies j, j.file, g, g.file, w`sent
    ensures w.Inv() && j.Valid() && g.Valid()
    ensures !trouble && !end.Done? ==> Idle(w, j, g) && Halts(j.records, g.records, slots, retryAborted, end)
    ensures end.Done? ==> Idle(w, j, g) && AllDone(j.records, slots)
    ensures UsageOf(old(g.records)).None? ==> w.sent == old(w.sent)
  {
    IdleMeans(w, j, g);
    NoneDone(j.records);
    hide *;
    var done := CompletedSlots(j.records);
    var globalEpochs := LatestEpochs(g.records);
    var localEpochs := LatestEpochs(j.records);
    RightAtStart(slots, done, j.records, g.records);
    end, trouble := Done, false;
    var i := 0;
    assert slots[..0] == [];
    while i < |slots|
      invariant 0 <= i <= |slots| && Idle(w, j, g) && w.Inv() && j.Valid() && g.Valid() && j != g && j.file != g.file
      invariant StillRight(slots, i, done, localEpochs, globalEpochs, j.records, g.records)
      invariant UsageOf(old(g.records)).None? ==> g.records == old(g.records) && w.sent == old(w.sent)
      invariant end.Done? && AllDone(j.records, slots[..i])
    {
      end, trouble := VisitSlot(w, j, g, slots, i, done, globalEpochs, localEpochs, retryAborted, maxOutputTokens);
      if !end.Done? {
        if !trouble { HaltsFor(j.records, j.records, g.records, [slots[i]], slots, retryAborted, end); }
        return;
      }
      i := i + 1;
    }
    assert slots[..|slots|] == slots;
  }

  lemma NoneDone(rs: seq<Entry>)
    ensures AllDone(rs, [])
  {
  }

  /** Why the loop ends early when nothing goes wrong: a ledger that is refused or full, or an aborted slot. */
  ghost predicate Halts(phase: seq<Entry>, budget: seq<Entry>, slots: seq<Planned>, retryAborted: bool, end: SlotEnd) {
    || (end.Faulted? && UsageOf(budget).None?)
    || (end.Stopped? && UsageOf(budget).Some? && !Fits(UsageOf(budget).value))
    || (end.Stopped? && !retryAborted && exists slot :: slot in slots && HasAborted(phase, slot.slotKey))
  }

  lemma HaltsFor(phase: seq<Entry>, longer: seq<Entry>, budget: seq<Entry>, some: seq<Planned>, slots: seq<Planned>,
                 retryAborted: bool, end: SlotEnd)
    requires Halts(phase, budget, some, retryAborted, end) && phase <= longer && forall slot :: slot in some ==> slot in slots
    ensures Halts(longer, budget, slots, retryAborted, end)
  {
    if slot :| slot in some && HasAborted(phase, slot.slotKey) {
      var i, k :| 0 <= i < |phase| && 0 <= k < |phase| && Starts(phase[i], slot.slotKey)
        && phase[k].kind == "attempt_aborted" && phase[k].attemptId == phase[i].attemptId;
      assert longer[i] == phase[i] && longer[k] == phase[k];
    }
  }

  lemma AbortedHalts(phase: seq<Entry>, budget: seq<Entry>, slot: Planned)
    requires HasAborted(phase, slot.slotKey)
    ensures Halts(phase, budget, [slot], false, Stopped)
  {
    assert slot in [slot];
  }

  lemma LedgerHalts(phase: seq<Entry>, budget: seq<Entry>, slots: seq<Planned>, retryAborted: bool)
    ensures UsageOf(budget).None? ==> Halts(phase, budget, slots, retryAborted, Faulted)
    ensures UsageOf(budget).Some? && !Fits(UsageOf(budget).value) ==> Halts(phase, budget, slots, retryAborted, Stopped)
  {
  }

  /** One turn of the loop: skip a completed slot, refuse a silent retry, or run the slot. */
  method VisitSlot(w: World, j: PilotJournal<Payload>, g: PilotJournal<Payload>, slots: seq<Planned>, i: nat, done: set<string>,
                   globalEpochs: map<string, int>, localEpochs: map<string, int>, retryAborted: bool, maxOutputTokens: int)
    returns (end: SlotEnd, ghost trouble: bool)
    requires Idle(w, j, g) && DistinctPlan(slots) && i < |slots|
    requires StillRight(slots, i, done, localEpochs, globalEpochs, j.records, g.records)
    modifies j, j.file, g, g.file, w`sent
    ensures w.Inv() && j.Valid() && g.Valid() && j != g && j.file != g.file
    ensures end.Done? ==> Idle(w, j, g) && StillRight(slots, i + 1, done, localEpochs, globalEpochs, j.records, g.records)
    ensures end.Done? && AllDone(old(j.records), slots[..i]) ==> AllDone(j.records, slots[..i + 1])
    ensures UsageOf(old(g.records)).None? ==> w.sent == old(w.sent) && (end.Done? ==> g.records == old(g.records))
    ensures var key := slots[i].slotKey;
      && (key in done ==> end.Done? && j.records == old(j.records) && g.records == old(g.records) && w.sent == old(w.sent))
      && (key !in done && !retryAborted && HasAborted(old(j.records), key) ==>
            end.Stopped? && j.records == old(j.records) && g.records == old(g.records) && w.sent == old(w.sent))
      && (end.Stopped? && w.sent != old(w.sent) ==> HasAborted(j.records, key))
    ensures !trouble && !end.Done? ==>
      Idle(w, j, g) && Halts(j.records, g.records, [slots[i]], retryAborted, end)
    ensures old(w.sent) <= w.sent && |w.sent| <= |old(w.sent)| + RUN_CALLS
  {
    IdleMeans(w, j, g);
    RunLimits();
    hide *;
    if slots[i].slotKey in done {
      StillRightSkip(slots, i, done, localEpochs, globalEpochs, j.records, g.records);
      return Done, false;
    }
    var prior := PriorAttempts(j.records, slots[i].slotKey);
    var aborted := AbortedBefore(j.records, prior, slots[i].slotKey);
    if |aborted| > 0 && !retryAborted {
      AbortedHalts(j.records, g.records, slots[i]);
      return Stopped, false;
    }
    EpochIsAbove(slots, i, done, localEpochs, globalEpochs, j.records, g.records);
    var epoch := ComputeEpoch(|prior|, slots[i], globalEpochs, localEpochs);
    ghost var phase, budget := j.records, g.records;
    LedgerHalts(phase, budget, [slots[i]], retryAborted);
    var clock: Clock := *;
    end, trouble := RunSlot(w, j, g, slots[i], epoch, maxOutputTokens, clock);
    if end.Done? { StillRightStep(slots, i, done, localEpochs, globalEpochs, phase, budget, j.records, g.records); }
  }

  lemma StillRightSkip(slots: seq<Planned>, i: nat, done: set<string>, localEpochs: map<string, int>,
                       globalEpochs: map<string, int>, phase: seq<Entry>, budget: seq<Entry>)
    requires StillRight(slots, i, done, localEpochs, globalEpochs, phase, budget)
    ensures StillRight(slots, i + 1, done, localEpochs, globalEpochs, phase, budget)
    ensures i < |slots| && slots[i].slotKey in done && AllDone(phase, slots[..i]) ==> AllDone(phase, slots[..i + 1])
  {
    if i < |slots| { assert slots[..i + 1] == slots[..i] + [slots[i]]; }
  }

  lemma RightAtStart(slots: seq<Planned>, done: set<string>, phase: seq<Entry>, budget: seq<Entry>)
    requires forall k :: k in done <==> !NotCompleted(phase, k)
    ensures StillRight(slots, 0, done, Epochs(phase), Epochs(budget), phase, budget)
  {
  }

  /** The attempts of a slot that were started, in order. */
  method PriorAttempts(records: seq<Entry>, slotKey: string) returns (prior: seq<Entry>)
    ensures |prior| == CountStarts(records, slotKey)
    ensures forall r :: r in prior <==> r in records && Starts(r, slotKey)
  {
    prior := [];
    assert records[..0] == [];
    for i := 0 to |records|
      invariant |prior| == CountStarts(records[..i], slotKey)
      invariant forall r :: r in prior <==> r in records[..i] && Starts(r, slotKey)
    {
      assert records[..i + 1] == records[..i] + [records[i]];
      if Starts(records[i], slotKey) { prior := prior + [records[i]]; }
    }
    assert records[..|records|] == records;
  }

  /** Some record of the journal aborts the attempt. */
  method HasAbortRecord(records: seq<Entry>, attemptId: Option<string>) returns (found: bool)
    ensures found <==> exists r :: r in records && r.kind == "attempt_aborted" && r.attemptId == attemptId
  {
    for i := 0 to |records|
      invariant forall r :: r in records[..i] ==> !(r.kind == "attempt_aborted" && r.attemptId == attemptId)
    {
      if records[i].kind == "attempt_aborted" && records[i].attemptId == attemptId {
        assert records[i] in records;
        return true;
      }
    }
    found := false;
  }

  /** Those of a slot's prior attempts that have an abort record. */
  method AbortedBefore(records: seq<Entry>, prior: seq<Entry>, ghost slotKey: string) returns (aborted: seq<Entry>)
    requires forall r :: r in prior <==> r in records && Starts(r, slotKey)
    ensures forall r :: r in aborted ==> r in prior
    ensures |aborted| > 0 <==> HasAborted(records, slotKey)
  {
    aborted := [];
    for i := 0 to |prior|
      invariant forall r :: r in aborted ==> r in prior && AbortedIn(records, r)
      invariant forall r :: r in prior[..i] && AbortedIn(records, r) ==> r in aborted
    {
      var found := HasAbortRecord(records, prior[i].attemptId);
      if found { aborted := aborted + [prior[i]]; }
    }
    AbortedMeans(records, slotKey);
    assert |aborted| > 0 ==> aborted[0] in aborted;
    if HasAborted(records, slotKey) {
      var r :| r in records && Starts(r, slotKey) && AbortedIn(records, r);
      assert r in prior[..|prior|];
    }
  }

  ghost predicate AbortedIn(records: seq<Entry>, attempt: Entry) {
    exists r :: r in records && r.kind == "attempt_aborted" && r.attemptId == attempt.attemptId
  }

  lemma AbortedMeans(records: seq<Entry>, slotKey: string)
    ensures HasAborted(records, slotKey) <==> exists r :: r in records && Starts(r, slotKey) && AbortedIn(records, r)
  {
    if r :| r in records && Starts(r, slotKey) && AbortedIn(records, r) {
      var i :| 0 <= i < |records| && records[i] == r;
      var j :| 0 <= j < |records| && records[j].kind == "attempt_aborted" && records[j].attemptId == r.attemptId;
    }
  }

  /** The epoch of a new attempt, from the number of prior attempts and the epochs looked up at the start. */
  method ComputeEpoch(prior: nat, slot: Planned, globalEpochs: map<string, int>, localEpochs: map<string, int>)
    returns (epoch: int)
    ensures forall rs :: CountStarts(rs, slot.slotKey) == prior ==> epoch == NextEpoch(rs, slot, globalEpochs, localEpochs)
  {
    var globalEpoch := if slot.runId in globalEpochs then globalEpochs[slot.runId] else 0;
    var localEpoch := if slot.runId in localEpochs then localEpochs[slot.runId] else 0;
    epoch := prior;
    if globalEpoch > epoch { epoch := globalEpoch; }
    if localEpoch > epoch { epoch := localEpoch; }
    epoch := epoch + 1;
  }

  /** The held-out collector first asks that the reservations of all open slots fit together. */
  predicate AllFit(used: Usage, outstanding: nat) {
    && used.tokens + outstanding * RUN_TOKENS <= GLOBAL_TOKENS
    && used.wallMs + outstanding * RUN_WALL_MS <= GLOBAL_WALL_MS
  }

  /** How many slots have no completion record. */
  ghost function Outstanding(slots: seq<Planned>, rs: seq<Entry>): nat {
    if slots == [] then 0
    else Outstanding(slots[..|slots| - 1], rs) + if NotCompleted(rs, slots[|slots| - 1].slotKey) then 1 else 0
  }

  method CountOpen(slots: seq<Planned>, done: set<string>, ghost rs: seq<Entry>) returns (n: nat)
    requires forall k :: k in done <==> !NotCompleted(rs, k)
    ensures n == Outstanding(slots, rs)
  {
    n := 0;
    assert slots[..0] == [];
    for i := 0 to |slots|
      invariant n == Outstanding(slots[..i], rs)
    {
      assert slots[..i + 1][..i] == slots[..i];
      if slots[i].slotKey !in done { n := n + 1; }
    }
    assert slots[..|slots|] == slots;
  }

  /** An open slot has an aborted attempt. */
  ghost predicate NeedsRetry(slots: seq<Planned>, rs: seq<Entry>) {
    exists slot :: slot in slots && NotCompleted(rs, slot.slotKey) && HasAborted(rs, slot.slotKey)
  }

  method SomeSlotAborted(slots: seq<Planned>, done: set<string>, records: seq<Entry>) returns (found: bool)
    requires forall k :: k in done <==> !NotCompleted(records, k)
    ensures found <==> NeedsRetry(slots, records)
  {
    for i := 0 to |slots|
      invariant !NeedsRetry(slots[..i], records)
    {
      assert slots[..i + 1] == slots[..i] + [slots[i]];
      if slots[i].slotKey !in done {
        var prior := PriorAttempts(records, slots[i].slotKey);
        var aborted := AbortedBefore(records, prior, slots[i].slotKey);
        if |aborted| > 0 { return true; }
      }
    }
    assert slots[..|slots|] == slots;
    found := false;
  }

  /** The held-out collector starts only if no retry is open and the reservations of all open slots fit together. */
  method Gate(phase: Phase, slots: seq<Planned>, records: seq<Entry>, budget: seq<Entry>, retryAborted: bool)
    returns (end: SlotEnd)
    ensures end.Done? || end.Stopped? || end.Faulted?
    ensures end.Faulted? <==> phase.Heldout? && UsageOf(budget).None?
    ensures end.Done? <==>
      phase.Development?
      || (UsageOf(budget).Some? && (retryAborted || !NeedsRetry(slots, records))
          && AllFit(UsageOf(budget).value, Outstanding(slots, records)))
  {
    if phase.Development? { return Done; }
    var done := CompletedSlots(records);
    var used := GlobalBudgetUsage(budget);
    if used.None? { return Faulted; }
    var open := CountOpen(slots, done, records);
    var retryOpen := SomeSlotAborted(slots, done, records);
    if retryOpen && !retryAborted { return Stopped; }
    end := if AllFit(used.value, open) then Done else Stopped;
  }

  const SUMMARY_KINDS := {"predictor_frozen", "pilot_stopped", "development_summary", "heldout_summary"}

  /** The summary records that close a run; they belong to no attempt. */
  method Summarize(w: World, j: PilotJournal<Payload>, kinds: seq<string>) returns (ok: bool, ghost trouble: bool)
    requires w.Inv() && j.Valid() && j.codec == w.codec && (j.file == w.development || j.file == w.heldout)
    requires (j.appendOutcomeUncertain || Ready(j)) && forall kind :: kind in kinds ==> kind in SUMMARY_KINDS
    modifies j, j.file
    ensures w.Inv() && old(j.file.durable) <= j.file.durable
    ensures !trouble && !old(j.appendOutcomeUncertain) ==> ok
  {
    hide *;
    trouble := false;
    for i := 0 to |kinds|
      invariant w.Inv() && j.Valid() && (j.appendOutcomeUncertain || Ready(j)) && old(j.file.durable) <= j.file.durable
      invariant !old(j.appendOutcomeUncertain) ==> !j.appendOutcomeUncertain
    {
      ok := AppendSummary(w, j, kinds[i]);
      trouble := !ok;
      if !ok { return; }
    }
    ok := true;
  }

  method AppendSummary(w: World, j: PilotJournal<Payload>, kind: string) returns (ok: bool)
    requires w.Inv() && j.Valid() && j.codec == w.codec && (j.file == w.development || j.file == w.heldout)
    requires (j.appendOutcomeUncertain || Ready(j)) && kind in SUMMARY_KINDS
    modifies j, j.file
    ensures w.Inv() && j.Valid() && (j.appendOutcomeUncertain || Ready(j)) && old(j.file.durable) <= j.file.durable
    ensures ok ==> !j.appendOutcomeUncertain
    ensures !ok ==> old(j.appendOutcomeUncertain) || DiskFailed(j, old(j.file.faults), Note)
  {
    if j.appendOutcomeUncertain { return false; }
    hide Lawful, Tracks, InStep, PhaseInv, BudgetInv, Backed, Accounted, Epochs, Chain;
    ghost var before, d, h := j.records, w.development.durable, w.heldout.durable;
    var res, next := PutSummary(j, kind);
    SummaryStep(before, next);
    BackedGrows(w.budget.durable, d, h, w.budget.durable, w.development.durable, w.heldout.durable, w.sent);
    ok := res.Appended?;
  }

  /** `append` for a record of no attempt. */
  method PutSummary(j: PilotJournal<Payload>, kind: string) returns (res: AppendResult<Payload>, ghost next: Entry)
    requires Ready(j)
    modifies j, j.file
    ensures j.Valid() && next.kind == kind && next.payload == Note && next.runId.None?
    ensures res != Refused(StaleEpoch) && j.file.staleRefusals == old(j.file.staleRefusals)
    ensures res.Appended? ==> Ready(j) && j.records == old(j.records) + [next]
    ensures res.Refused? ==> Ready(j) && j.records == old(j.records)
    ensures !res.Appended? ==> DiskFailed(j, old(j.file.faults), Note)
    ensures res.OutcomeUnknown? ==>
      && j.appendOutcomeUncertain && j.records == old(j.records)
      && (j.file.durable == old(j.records) || j.file.durable == old(j.records) + [next])
  {
    hide Lawful, Tracks, InStep, Chain, Epochs;
    next := NextRecord(j.codec, j.records, kind, "monitor-live-11-12", Note, None, None, None);
    res := j.Append(kind, "monitor-live-11-12", Note, None, None, None);
    assert Reread(j.codec, next) == next;
    assert res.Appended? || res.OutcomeUnknown? || res.why.Uncertain? || res.why.StaleEpoch? || res.why.BadPayload? || res.why.NotOpened?;
  }

  lemma SummaryStep(rs: seq<Entry>, r: Entry)
    requires PhaseInv(rs) && r.kind in SUMMARY_KINDS && r.runId.None?
    ensures PhaseInv(rs + [r])
  {
    PhaseStep(rs, r);
  }

  /** Which summary records a run writes; `qualified` is whether the development run froze a predictor. */
  function SummaryOf(phase: Phase, qualified: bool): (kinds: seq<string>)
    ensures forall kind :: kind in kinds ==> kind in SUMMARY_KINDS
  {
    if phase.Heldout? then ["heldout_summary"]
    else [if qualified then "predictor_frozen" else "pilot_stopped", "development_summary"]
  }

  /** Opens a journal file; an error of `open` ends the run. */
  method OpenPhase(w: World, file: LogFile<Payload>) returns (j: PilotJournal<Payload>, ok: bool)
    requires w.Inv() && (file == w.development || file == w.heldout)
    ensures fresh(j) && j.file == file && j.codec == w.codec
    ensures ok <==> OpenText(w.codec, file.text).Some?
    ensures ok ==> Opened(w, j)
  {
    hide PhaseInv, BudgetInv, Backed, Accounted;
    j := new PilotJournal(w.codec, file);
    ok := j.Open();
  }

  method OpenBudget(w: World) returns (g: PilotJournal<Payload>, ok: bool)
    requires w.Inv()
    ensures fresh(g) && g.file == w.budget && g.codec == w.codec
    ensures ok <==> OpenText(w.codec, w.budget.text).Some?
    ensures ok ==> Ready(g)
  {
    hide PhaseInv, BudgetInv, Backed, Accounted;
    g := new PilotJournal(w.codec, w.budget);
    ok := g.Open();
  }

  /** The body of a collector run, with the lock held. */
  method CollectLocked(w: World, phase: Phase, slots: seq<Planned>, retryAborted: bool, maxOutputTokens: int)
    returns (end: RunEnd, ghost trouble: bool)
    requires w.Inv() && DistinctPlan(slots)
    modifies w`sent, w.development, w.heldout, w.budget
    ensures w.Inv()
    ensures end == Ended(Done) ==> AllDone(PhaseFile(w, phase).durable, slots)
    ensures UsageOf(old(w.budget.durable)).None? ==> w.sent == old(w.sent)
    ensures end.Killed? || end.Ended?
    ensures !trouble && old(Readable(w, phase)) ==>
      end.Ended? && EndsFor(w, PhaseFile(w, phase).durable, phase, slots, retryAborted, end.end)
  {
    FilesDiffer(w);
    FileOfPhase(w, phase);
    ReadableMeans(w, phase);
    hide *;
    var file := PhaseFile(w, phase);
    trouble := false;
    var j, ok := OpenPhase(w, file);
    if !ok { return Ended(Faulted), trouble; }
    var step, stale;
    step, stale, trouble := AbortInterrupted(w, j);
    if step.Died? { return Killed, trouble; }
    if step.Failed? { return Ended(Faulted), trouble; }
    OpenedMeans(w, j);
    var g, readable := OpenBudget(w);
    if !readable { return Ended(Faulted), trouble; }
    IdleAtStart(w, j, g);
    var done;
    done, trouble := RunOpened(w, j, g, phase, slots, retryAborted, maxOutputTokens);
    if !trouble { NotDead(w, PhaseFile(w, phase).durable, phase, slots, retryAborted, done); }
    return if done.Dead? then Killed else Ended(done), trouble;
  }

  /** Both journals of the run can be opened. */
  ghost predicate Readable(w: World, phase: Phase)
    reads PhaseFile(w, phase), w.budget
  {
    OpenText(w.codec, PhaseFile(w, phase).text).Some? && OpenText(w.codec, w.budget.text).Some?
  }

  lemma ReadableMeans(w: World, phase: Phase)
    ensures Readable(w, phase) ==> OpenText(w.codec, PhaseFile(w, phase).text).Some? && OpenText(w.codec, w.budget.text).Some?
  {
  }

  function PhaseFile(w: World, phase: Phase): LogFile<Payload> { if phase.Development? then w.development else w.heldout }

  lemma FileOfPhase(w: World, phase: Phase)
    requires w.Inv()
    ensures (PhaseFile(w, phase) == w.development || PhaseFile(w, phase) == w.heldout) && PhaseFile(w, phase) != w.budget
  {
  }

  lemma NotDead(w: World, durable: seq<Entry>, phase: Phase, slots: seq<Planned>, retryAborted: bool, end: SlotEnd)
    requires EndsFor(w, durable, phase, slots, retryAborted, end)
    ensures !end.Dead?
  {
  }

  /** How a run ends when nothing goes wrong: every slot completed, or halted, or held back by the held-out gate. */
  ghost predicate EndsFor(w: World, durable: seq<Entry>, phase: Phase, slots: seq<Planned>, retryAborted: bool, end: SlotEnd)
    reads w, w.budget
  {
    || (end.Done? && AllDone(durable, slots))
    || Halts(durable, w.budget.durable, slots, retryAborted, end)
    || (phase.Heldout? && end.Stopped?)
  }

  lemma EndsAre(w: World, j: PilotJournal<Payload>, g: PilotJournal<Payload>, phase: Phase, slots: seq<Planned>,
                retryAborted: bool, end: SlotEnd)
    requires Idle(w, j, g)
    requires (end.Done? && AllDone(j.records, slots)) || Halts(j.records, g.records, slots, retryAborted, end)
      || (phase.Heldout? && (end.Stopped? || (end.Faulted? && UsageOf(g.records).None?)))
    ensures EndsFor(w, j.file.durable, phase, slots, retryAborted, end) && !j.appendOutcomeUncertain
  {
  }

  lemma EndsStay(w: World, durable: seq<Entry>, longer: seq<Entry>, phase: Phase, slots: seq<Planned>, retryAborted: bool,
                 end: SlotEnd)
    requires EndsFor(w, durable, phase, slots, retryAborted, end) && durable <= longer
    ensures EndsFor(w, longer, phase, slots, retryAborted, end)
  {
    CompletedStays(durable, longer);
    if Halts(durable, w.budget.durable, slots, retryAborted, end) {
      HaltsFor(durable, longer, w.budget.durable, slots, slots, retryAborted, end);
    }
    hide Halts, AllDone;
  }

  /** The part of a run that follows once both journals are open and nothing is under way. */
  method RunOpened(w: World, j: PilotJournal<Payload>, g: PilotJournal<Payload>, phase: Phase, slots: seq<Planned>,
                   retryAborted: bool, maxOutputTokens: int)
    returns (end: SlotEnd, ghost trouble: bool)
    requires Idle(w, j, g) && DistinctPlan(slots)
    modifies j, j.file, g, g.file, w`sent
    ensures w.Inv()
    ensures end.Done? ==> AllDone(j.file.durable, slots)
    ensures UsageOf(old(g.records)).None? ==> w.sent == old(w.sent)
    ensures !trouble ==> EndsFor(w, j.file.durable, phase, slots, retryAborted, end)
  {
    IdleMeans(w, j, g);
    hide *;
    trouble := false;
    end := Gate(phase, slots, j.records, g.records, retryAborted);
    if end.Done? {
      end, trouble := RunSlots(w, j, g, slots, retryAborted, maxOutputTokens);
    }
    if !trouble { EndsAre(w, j, g, phase, slots, retryAborted, end); }
    if end.Done? || end.Stopped? {
      var ok, failing := Close(w, j, g, phase, slots, retryAborted, end, trouble);
      trouble := trouble || failing;
      if !ok { end := Faulted; }
    }
  }

  /** The records that close a run; they change nothing about how it ended. */
  method Close(w: World, j: PilotJournal<Payload>, g: PilotJournal<Payload>, phase: Phase, slots: seq<Planned>,
               retryAborted: bool, end: SlotEnd, ghost trouble: bool)
    returns (ok: bool, ghost failing: bool)
    requires w.Inv() && j.Valid() && j.codec == w.codec && (j.file == w.development || j.file == w.heldout) && j.file != w.budget
    requires end.Done? ==> Idle(w, j, g) && AllDone(j.records, slots)
    requires !trouble ==> EndsFor(w, j.file.durable, phase, slots, retryAborted, end) && !j.appendOutcomeUncertain
    modifies j, j.file
    ensures w.Inv() && (end.Done? ==> AllDone(j.file.durable, slots))
    ensures !trouble ==> EndsFor(w, j.file.durable, phase, slots, retryAborted, end)
    ensures !trouble && !failing ==> ok
  {
    hide *;
    JournalMeans(w, j);
    ghost var durable := j.file.durable;
    if end.Done? { DoneIsDurable(w, j, g, slots); }
    var qualified: bool := *;
    ok, failing := Summarize(w, j, SummaryOf(phase, qualified && end.Done?));
    CompletedStays(durable, j.file.durable);
    if !trouble { EndsStay(w, durable, j.file.durable, phase, slots, retryAborted, end); }
  }

  lemma FilesDiffer(w: World)
    requires w.Inv()
    ensures w.development != w.heldout && w.development != w.budget && w.heldout != w.budget
  {
  }

  lemma OpenedMeans(w: World, j: PilotJournal<Payload>)
    requires Opened(w, j)
    ensures w.Inv() && j.Valid() && Ready(j)
  {
  }

  lemma IdleAtStart(w: World, j: PilotJournal<Payload>, g: PilotJournal<Payload>)
    requires Opened(w, j) && NoneActive(j.records) && Ready(g) && g.codec == w.codec && g.file == w.budget && j != g
    ensures Idle(w, j, g) && g.records == w.budget.durable && j != g && j.file != g.file
  {
  }

  lemma DoneIsDurable(w: World, j: PilotJournal<Payload>, g: PilotJournal<Payload>, slots: seq<Planned>)
    requires Idle(w, j, g) && AllDone(j.records, slots)
    ensures AllDone(j.file.durable, slots)
  {
  }

  /** Out of doubt, the memory of a journal is what is on disk. */
  lemma JournalMeans(w: World, j: PilotJournal<Payload>)
    requires w.Inv() && j.Valid() && j.codec == w.codec
    ensures j.appendOutcomeUncertain || Ready(j)
  {
    PlainRereads(j.codec, j.records);
  }

  /**
   * One run of a collector. It takes the exclusive lock or ends at once. The lock file stays exactly
   * when it was there before, the process is killed, writing it failed, or its removal failed.
   */
  method Collect(w: World, phase: Phase, slots: seq<Planned>, retryAborted: bool, maxOutputTokens: int)
    returns (end: RunEnd, ghost trouble: bool)
    requires w.Inv() && DistinctPlan(slots)
    modifies w`lockHeld, w`sent, w.development, w.heldout, w.budget
    ensures w.Inv()
    ensures end == Ended(Done) ==> AllDone(PhaseFile(w, phase).durable, slots)
    ensures old(w.lockHeld) ==> end.LockHeld? || end == LockFailed(false)
    ensures end.LockHeld? ==> old(w.lockHeld)
    ensures end.LockHeld? || end.LockFailed? ==>
      w.sent == old(w.sent) && unchanged(w.development) && unchanged(w.heldout) && unchanged(w.budget)
    ensures UsageOf(old(w.budget.durable)).None? ==> w.sent == old(w.sent)
    ensures w.lockHeld <==> old(w.lockHeld) || end.Killed? || end == LockFailed(true) || end.ReleaseFailed?
    ensures !trouble && old(w.lockHeld) ==> end.LockHeld?
    ensures !trouble && !old(w.lockHeld) && old(Readable(w, phase)) ==>
      end.Ended? && EndsFor(w, PhaseFile(w, phase).durable, phase, slots, retryAborted, end.end)
  {
    FilesDiffer(w);
    FileOfPhase(w, phase);
    hide *;
    var acquired;
    acquired, trouble := AcquireLock(w);
    if acquired.Some? { return acquired.value, trouble; }
    end, trouble := CollectLocked(w, phase, slots, retryAborted, maxOutputTokens);
    if !end.Killed? {
      var released: bool := *;
      ReleaseLock(w, released);
      trouble := trouble || !released;
      if !released { end := ReleaseFailed; }
    }
  }

  /** `acquire`: creates the lock file and writes to it; an error of the write leaves the file behind. */
  method AcquireLock(w: World) returns (failure: Option<RunEnd>, ghost trouble: bool)
    requires w.Inv()
    modifies w`lockHeld
    ensures w.Inv()
    ensures failure.None? ==> !old(w.lockHeld) && w.lockHeld
    ensures !trouble ==> failure == if old(w.lockHeld) then Some(LockHeld) else None
    ensures failure.Some? ==>
      && (failure.value.LockHeld? || failure.value.LockFailed?)
      && (failure.value.LockHeld? ==> old(w.lockHeld)) && (failure.value == LockFailed(true) ==> !old(w.lockHeld))
      && w.lockHeld == (old(w.lockHeld) || failure.value == LockFailed(true))
  {
    var unopened: bool := *;
    trouble := unopened;
    if unopened { return Some(LockFailed(false)), trouble; }
    if w.lockHeld { return Some(LockHeld), trouble; }
    TakeLock(w, true);
    var unwritten: bool := *;
    trouble := unwritten;
    failure := if unwritten then Some(LockFailed(true)) else None;
  }

  /** `release`: an error of the removal leaves the file behind and hides how the run ended. */
  method ReleaseLock(w: World, removed: bool)
    requires w.Inv() && w.lockHeld
    modifies w`lockHeld
    ensures w.Inv() && w.lockHeld == !removed
  {
    if removed { TakeLock(w, false); }
  }

  method TakeLock(w: World, held: bool)
    requires w.Inv()
    modifies w`lockHeld
    ensures w.Inv() && w.lockHeld == held
  {
    w.lockHeld := held;
  }

  /**
   * What every history keeps: the ledger refuses or stays within both caps; it settles every attempt
   * with what the provider billed for its requests, and its total bounds the whole bill of a provider
   * that bills no request beyond its size and cap; every request that was sent is backed by a durable
   * reservation and admission, no slot completes twice, each new attempt of a run has a higher epoch
   * than all before it, and the stale-epoch guard never fired.
   */
  ghost predicate Safe(w: World)
    reads w, w.development, w.heldout, w.budget
  {
    && WithinCaps(w.budget.durable)
    && BillInOrder(w.budget.durable, w.sent)
    && (forall q :: q in w.sent ==>
          Reserved(w.budget.durable, q.attemptId) && (Admitted(w.development.durable, q) || Admitted(w.heldout.durable, q)))
    && OneCompletion(w.development.durable) && OneCompletion(w.heldout.durable)
    && EpochsRise(w.development.durable) && EpochsRise(w.heldout.durable) && EpochsRise(w.budget.durable)
    && w.development.staleRefusals == 0 && w.heldout.staleRefusals == 0 && w.budget.staleRefusals == 0
  }

  lemma InvIsSafe(w: World)
    requires w.Inv()
    ensures Safe(w)
  {
    BackedIsReserved(w.budget.durable, w.development.durable, w.heldout.durable, w.sent);
    BillIsInOrder(w.budget.durable, w.sent);
    hide UsageOf, Accounted, BillInOrder;
  }

  /**
   * Any history: runs of both collectors, each ending in any way, and an operator who removes the
   * lock of a killed run. Whatever happened, the invariant holds.
   */
  method AnyHistory(w: World, development: seq<Planned>, heldout: seq<Planned>, maxOutputTokens: int)
    requires w.Inv() && DistinctPlan(development) && DistinctPlan(heldout)
    modifies w`lockHeld, w`sent, w.development, w.heldout, w.budget
    ensures w.Inv() && Safe(w)
  {
    hide *;
    var runs: int :| 0 <= runs;
    for n := 0 to runs
      invariant w.Inv()
    {
      var removeLock: bool, retryAborted: bool, first: bool := *, *, *;
      if removeLock { TakeLock(w, false); }
      if first {
        var end, trouble := Collect(w, Development, development, retryAborted, maxOutputTokens);
      } else {
        var end, trouble := Collect(w, Heldout, heldout, retryAborted, maxOutputTokens);
      }
    }
    InvIsSafe(w);
  }

  /** A later process that opens the budget file is told a total within the caps, or refused. */
  method Audit(w: World) returns (ok: bool, usage: Option<Usage>)
    requires w.Inv()
    ensures ok && usage.Some? ==> usage.value.tokens <= GLOBAL_TOKENS && usage.value.wallMs <= GLOBAL_WALL_MS
  {
    var g, readable := OpenBudget(w);
    ok, usage := readable, None;
    if ok {
      usage := GlobalBudgetUsage(g.records);
    }
  }
}
