/**
 * Delivery of the repair draft: under one exclusive lock, each step is preceded by a durable
 * intent. A run may end at any await, by an exception or by the death of its process, and a write
 * of the state file that is not seen to return may have taken effect.
 */
module DraftDelivery {
  import opened Wrappers

  datatype EntryState =
    | AlreadyFixed | PushIntent | BranchUncertain | BranchPushed | PrIntent | PrUncertain | DraftReady | Blocked

  datatype Claim = Claim(claimId: string, epoch: int, jobId: string)

  datatype Entry = Entry(identity: string, claim: Claim, state: EntryState, reason: string, privateRef: Option<string>)

  datatype Pull = Pull(url: string, matches: bool)

  /** How a step ends: with a receipt, by going on, by an exception or with the process. */
  datatype Outcome = Receipt(entry: Entry) | Proceed | Threw | Died

  /** What an awaited call answers, unless it throws or the process dies there. */
  datatype Reply<T> = Said(value: T) | Raised | Killed

  function OutcomeOf<T>(r: Reply<T>): Outcome { if r.Said? then Proceed else if r.Raised? then Threw else Died }

  /** The revision of the repair branch at the remote: none, the reviewed candidate, or another one. */
  datatype Remote = Absent | Candidate | Other

  /** How the inspected target is classified. */
  datatype Target = Current | Vulnerable | Unknown | Invalid

  /** The answers that the claim store and the two repository adapters have ready for one run. */
  datatype Answers = Answers(
    claim: Reply<()>, target: Reply<Target>, candidatePresent: Reply<bool>, claimAtFixed: Reply<()>,
    branch: Reply<Remote>, unmovedAtPush: Reply<bool>, claimAtPush: Reply<()>, push: Reply<()>,
    recovered: Reply<Remote>, readBack: Reply<Remote>,
    pulls: Reply<seq<Pull>>, unmovedAtDraft: Reply<bool>, claimAtDraft: Reply<()>, draft: Reply<()>, drafts: Reply<seq<Pull>>)

  /** The push was seen to return, or it was not and the branch holds the candidate all the same. */
  ghost predicate Pushed(x: Answers) { x.push.Said? || (x.push.Raised? && x.recovered == Said(Candidate)) }

  /** The branch may be pushed: it was read as absent, the target has not moved and the claim is current. */
  ghost predicate MayPush(x: Answers) { x.branch == Said(Absent) && x.unmovedAtPush == Said(true) && x.claimAtPush.Said? }

  /** The branch was read as holding the candidate, before or after a push. */
  ghost predicate ReadAsCandidate(x: Answers) {
    x.branch == Said(Candidate) || (MayPush(x) && Pushed(x) && x.readBack == Said(Candidate))
  }

  /** A draft may be asked for: there is none, the target has not moved and the claim is current. */
  ghost predicate MayRequest(x: Answers) { x.pulls == Said([]) && x.unmovedAtDraft == Said(true) && x.claimAtDraft.Said? }

  /** No call throws or ends with the process, the push and the request apart, which may throw. */
  ghost predicate Calm(x: Answers) {
    && x.claim.Said? && x.target.Said? && x.candidatePresent.Said? && x.claimAtFixed.Said?
    && x.branch.Said? && x.unmovedAtPush.Said? && x.claimAtPush.Said? && !x.push.Killed? && x.recovered.Said? && x.readBack.Said?
    && x.pulls.Said? && x.unmovedAtDraft.Said? && x.claimAtDraft.Said? && !x.draft.Killed? && x.drafts.Said?
  }

  /** The one pull request that a run saw, before or after it asked for one. */
  ghost predicate SawDraft(x: Answers, requested: bool, url: string) {
    var seen := if requested then x.drafts else x.pulls;
    seen.Said? && |seen.value| == 1 && seen.value[0].matches && seen.value[0].url == url
  }

  predicate IsTerminal(s: EntryState) { s.AlreadyFixed? || s.DraftReady? || s.Blocked? }

  predicate IsBranchReady(s: EntryState) { s.BranchPushed? || s.PrIntent? || s.PrUncertain? || s.DraftReady? }

  predicate HasUncertainDraft(prior: Option<Entry>) {
    prior.Some? && (prior.value.state.PrIntent? || prior.value.state.PrUncertain?)
  }

  /** How far a delivery has come; a stored state never goes back. */
  ghost function Rank(s: EntryState): nat {
    match s
    case PushIntent => 0
    case BranchUncertain => 0
    case BranchPushed => 1
    case PrIntent => 2
    case PrUncertain => 2
    case _ => 3
  }

  ghost predicate Forward(before: map<string, Entry>, after: map<string, Entry>) {
    forall k :: k in before ==>
      k in after && Rank(before[k].state) <= Rank(after[k].state) && (IsTerminal(before[k].state) ==> after[k] == before[k])
  }

  ghost function Count(requests: seq<string>, key: string): nat {
    if requests == [] then 0
    else Count(requests[..|requests| - 1], key) + if requests[|requests| - 1] == key then 1 else 0
  }

  /** At most one request per key, and only after its intent was stored. */
  ghost predicate AtMostOnce(file: map<string, Entry>, requests: seq<string>) {
    forall key :: Count(requests, key) <= 1 && (Count(requests, key) > 0 ==> key in file && Rank(file[key].state) >= 2)
  }

  lemma CountStep(requests: seq<string>, key: string)
    ensures forall k :: Count(requests + [key], k) == Count(requests, k) + if k == key then 1 else 0
  {
    assert (requests + [key])[..|requests|] == requests;
  }

  lemma ForwardKeeps(file: map<string, Entry>, after: map<string, Entry>, requests: seq<string>)
    requires AtMostOnce(file, requests) && Forward(file, after)
    ensures AtMostOnce(after, requests)
  {
  }

  /** Whose branch holds the candidate according to the file. */
  ghost predicate IsPushed(s: EntryState) { s.BranchPushed? || s.PrIntent? }

  /** Every request, and every stored state that leads to one, is of a key whose branch was read as the candidate. */
  ghost predicate OnlyForCandidates(file: map<string, Entry>, requests: seq<string>, verified: set<string>) {
    && (forall key :: key in requests ==> key in verified)
    && (forall key :: key in file && IsPushed(file[key].state) ==> key in verified)
  }

  /** A set file never leads out of the invariants: states only go forward, and to pushed ones after the read. */
  lemma StoreKeeps(file: map<string, Entry>, requests: seq<string>, verified: set<string>, key: string, e: Entry)
    requires AtMostOnce(file, requests) && OnlyForCandidates(file, requests, verified)
    requires key in file ==> Rank(file[key].state) <= Rank(e.state) && !IsTerminal(file[key].state)
    requires IsPushed(e.state) ==> key in verified
    ensures AtMostOnce(file[key := e], requests) && OnlyForCandidates(file[key := e], requests, verified)
    ensures Forward(file, file[key := e])
  {
    ForwardKeeps(file, file[key := e], requests);
  }

  /**
   * The state file, and what was done and seen at the remote: the drafts asked for, the branches
   * pushed, and the keys whose branch was read as holding the candidate.
   */
  class World {
    var file: map<string, Entry>
    ghost var requests: seq<string>
    ghost var pushes: seq<string>
    ghost var verified: set<string>

    constructor ()
      ensures Inv() && file == map[] && requests == [] && pushes == [] && verified == {}
    {
      file, requests, pushes, verified := map[], [], [], {};
    }

    ghost predicate Inv()
      reads this
    {
      AtMostOnce(file, requests) && OnlyForCandidates(file, requests, verified)
    }
  }

  class Context {
    const world: World
    const key: string
    const identity: string
    const claim: Claim
    const answers: Answers
    const prior: Option<Entry>
    var state: map<string, Entry>
    var entry: Entry
    /** A write of the state file was not seen to return. */
    ghost var disturbed: bool

    /** What `loadDeliveryState` read, with the entry of `createRepairContext`. */
    constructor (world: World, key: string, identity: string, claim: Claim, answers: Answers)
      ensures this.world == world && this.key == key && this.identity == identity && this.claim == claim
      ensures this.answers == answers && !disturbed
      ensures state == world.file && prior == if key in world.file then Some(world.file[key]) else None
      ensures entry == if key in world.file then world.file[key] else Entry(identity, claim, PushIntent, "push-intent", None)
    {
      this.world, this.key, this.identity, this.claim, this.answers := world, key, identity, claim, answers;
      state := world.file;
      prior := if key in world.file then Some(world.file[key]) else None;
      entry := if key in world.file then world.file[key] else Entry(identity, claim, PushIntent, "push-intent", None);
      disturbed := false;
    }

    ghost predicate Sync()
      reads this, world
    {
      world.Inv() && state == world.file && (prior.Some? ==> key in state)
    }

    /** The stored state of this key may move to `s`. */
    ghost predicate Allows(s: EntryState)
      reads this, world
    {
      && (key in state ==> Rank(state[key].state) <= Rank(s) && !IsTerminal(state[key].state))
      && (IsPushed(s) ==> key in world.verified)
    }

    /** `saveEntry`: the file holds the old state or the new one, and the new one if this returns. */
    method SaveEntry() returns (o: Outcome)
      requires Sync() && Allows(entry.state)
      modifies `state, `disturbed, world`file
      ensures world.Inv() && (o.Proceed? || o.Threw? || o.Died?)
      ensures state == old(state)[key := entry] && Forward(old(world.file), world.file)
      ensures world.file == old(world.file) || world.file == state
      ensures o.Proceed? ==> Sync()
      ensures disturbed == (old(disturbed) || !(o.Receipt? || o.Proceed?))
    {
      StoreKeeps(world.file, world.requests, world.verified, key, entry);
      state := state[key := entry];
      var applied: bool, returned: bool, died: bool := *, *, *;
      if applied || (returned && !died) { world.file := state; }
      o := if died then Died else if returned then Proceed else Threw;
      if !o.Proceed? { disturbed := true; }
    }

    method SetState(s: EntryState) returns (o: Outcome)
      requires Sync() && Allows(s)
      modifies `entry, `state, `disturbed, world`file
      ensures world.Inv() && (o.Proceed? || o.Threw? || o.Died?)
      ensures Forward(old(world.file), world.file)
      ensures entry == old(entry).(state := s)
      ensures world.file == old(world.file) || world.file == old(world.file)[key := entry]
      ensures o.Proceed? ==> Sync() && state == old(state)[key := entry]
      ensures disturbed == (old(disturbed) || !(o.Receipt? || o.Proceed?))
    {
      entry := entry.(state := s);
      o := SaveEntry();
    }

    /** A fresh entry for this delivery. */
    function Made(s: EntryState, reason: string): Entry { Entry(identity, claim, s, reason, None) }

    /** `saveBlocked`: stores a fresh entry with the state that it is passed. */
    method SaveBlocked(reason: string, s: EntryState) returns (o: Outcome)
      requires Sync() && Allows(s)
      modifies `state, `disturbed, world`file
      ensures world.Inv() && Forward(old(world.file), world.file)
      ensures o == Receipt(Entry(identity, claim, s, reason, None)) || o.Threw? || o.Died?
      ensures world.file == old(world.file) || world.file == old(world.file)[key := Made(s, reason)]
      ensures o.Receipt? ==> world.file == old(world.file)[key := Made(s, reason)]
      ensures disturbed == (old(disturbed) || !(o.Receipt? || o.Proceed?))
    {
      var e := Made(s, reason);
      StoreKeeps(world.file, world.requests, world.verified, key, e);
      state := state[key := e];
      var applied: bool, returned: bool, died: bool := *, *, *;
      if applied || (returned && !died) { world.file := state; }
      o := if died then Died else if returned then Receipt(e) else Threw;
      if !o.Receipt? { disturbed := true; }
    }

    // -------------------------------------------------------------- the draft

    /** The branch is there: pushed in this run or by an earlier one, which may have asked for the draft. */
    ghost predicate AtDraft()
      reads this, world
    {
      && Sync() && key in state && state[key] == entry
      && if HasUncertainDraft(prior) then entry == prior.value else entry.state.BranchPushed?
    }

    method RecordDraftReady(url: string) returns (o: Outcome)
      requires Sync() && Allows(DraftReady)
      modifies `entry, `state, `disturbed, world`file
      ensures world.Inv() && Forward(old(world.file), world.file)
      ensures o.Receipt? || o.Threw? || o.Died?
      ensures o.Receipt? ==> o.entry == old(entry).(state := DraftReady, privateRef := Some(url))
      ensures o.Receipt? ==> world.file == old(world.file)[key := o.entry]
      ensures disturbed == (old(disturbed) || !(o.Receipt? || o.Proceed?))
    {
      entry := entry.(state := DraftReady, privateRef := Some(url));
      o := SaveEntry();
      if o.Proceed? { o := Receipt(entry); }
    }

    /** The request itself, sent after its intent is on disk. */
    method RequestDraft() returns (o: Outcome)
      requires Sync() && key in state && state[key].state.PrIntent? && Count(world.requests, key) == 0
      modifies world`requests
      ensures Sync() && world.requests == old(world.requests) + [key]
      ensures o == OutcomeOf(answers.draft)
    {
      CountStep(world.requests, key);
      world.requests := world.requests + [key];
      o := OutcomeOf(answers.draft);
    }

    /** What the receipt says once the request was made or the target had moved. */
    ghost function Created(e: Entry): Entry
      requires answers.unmovedAtDraft.Said?
    {
      if !answers.unmovedAtDraft.value then Made(Blocked, "private-target-moved-before-draft-write")
      else if answers.draft.Raised? then Made(PrUncertain, "private-draft-write-needs-readback")
      else if answers.drafts.Said? && |answers.drafts.value| == 1 && answers.drafts.value[0].matches
      then e.(state := DraftReady, privateRef := Some(answers.drafts.value[0].url))
      else Made(PrUncertain, "private-draft-write-readback-mismatch")
    }

    lemma PushedIsVerified()
      requires AtDraft() && !HasUncertainDraft(prior)
      ensures key in world.verified && Rank(state[key].state) == 1 && Count(world.requests, key) == 0
    {
    }

    /** Asks only if the target has not moved and the claim is current, and then reads back what is there. */
    method CreateDraftPullRequest() returns (o: Outcome)
      requires AtDraft() && !HasUncertainDraft(prior)
      modifies `entry, `state, `disturbed, world`file, world`requests
      ensures world.Inv() && Forward(old(world.file), world.file) && !o.Proceed?
      ensures world.requests == old(world.requests)
        || (world.requests == old(world.requests) + [key] && answers.unmovedAtDraft == Said(true) && answers.claimAtDraft.Said?)
      ensures o.Receipt? ==>
        && answers.unmovedAtDraft.Said? && o.entry == Created(old(entry))
        && (world.requests != old(world.requests) <==> answers.unmovedAtDraft.value)
        && (o.entry.state.DraftReady? ==> answers.draft.Said?)
      ensures old(disturbed) ==> disturbed
      ensures Calm(answers) && !disturbed ==> o.Receipt? || o.Proceed?
    {
      PushedIsVerified();
      ForwardSelf(world.file);
      hide AtMostOnce, OnlyForCandidates, Forward;
      if !answers.unmovedAtDraft.Said? { return OutcomeOf(answers.unmovedAtDraft); }
      if !answers.unmovedAtDraft.value {
        o := SaveBlocked("private-target-moved-before-draft-write", Blocked);
        return;
      }
      o := SetState(PrIntent);
      if !o.Proceed? { return; }
      if !answers.claimAtDraft.Said? { return OutcomeOf(answers.claimAtDraft); }
      ghost var file, marked := world.file, entry;
      o := RequestDraft();
      if o.Died? { return; }
      o := VerifyDraft(o.Proceed?);
      ForwardThrough(old(world.file), file, world.file);
    }

    /** After the request: an exception of it is stored as uncertain, and so is anything but one exact read-back. */
    method VerifyDraft(requested: bool) returns (o: Outcome)
      requires Sync() && key in state && state[key] == entry && entry.state.PrIntent?
      modifies `entry, `state, `disturbed, world`file
      ensures world.Inv() && Forward(old(world.file), world.file) && !o.Proceed?
      ensures o.Receipt? && requested ==> answers.drafts.Said?
      ensures o.Receipt? ==>
        o.entry ==
        if !requested then Made(PrUncertain, "private-draft-write-needs-readback")
        else if |answers.drafts.value| == 1 && answers.drafts.value[0].matches
        then old(entry).(state := DraftReady, privateRef := Some(answers.drafts.value[0].url))
        else Made(PrUncertain, "private-draft-write-readback-mismatch")
      ensures old(disturbed) ==> disturbed
      ensures Calm(answers) && !disturbed ==> o.Receipt? || o.Proceed?
    {
      ForwardSelf(world.file);
      hide AtMostOnce, OnlyForCandidates, Forward;
      if !requested {
        o := SaveBlocked("private-draft-write-needs-readback", PrUncertain);
        return;
      }
      if !answers.drafts.Said? { return OutcomeOf(answers.drafts); }
      if |answers.drafts.value| != 1 || !answers.drafts.value[0].matches {
        o := SaveBlocked("private-draft-write-readback-mismatch", PrUncertain);
      } else {
        o := RecordDraftReady(answers.drafts.value[0].url);
      }
    }

    method EnsureDraftPullRequest() returns (o: Outcome)
      requires AtDraft()
      modifies `entry, `state, `disturbed, world`file, world`requests
      ensures world.Inv() && Forward(old(world.file), world.file) && !o.Proceed?
      ensures world.requests == old(world.requests)
        || (world.requests == old(world.requests) + [key] && MayRequest(answers) && !HasUncertainDraft(prior))
      ensures o.Receipt? ==> answers.pulls.Said?
      ensures o.Receipt? ==> (world.requests != old(world.requests) <==> MayRequest(answers) && !HasUncertainDraft(prior))
      ensures o.Receipt? && o.entry.state.DraftReady? ==>
        && o.entry == old(entry).(state := DraftReady, privateRef := o.entry.privateRef)
        && o.entry.privateRef.Some? && SawDraft(answers, world.requests != old(world.requests), o.entry.privateRef.value)
      ensures o.Receipt? && !o.entry.state.DraftReady? ==>
        var pulls := answers.pulls.value;
        if |pulls| > 1 then o.entry == Made(Blocked, "private-draft-pull-request-ambiguous")
        else if |pulls| == 1 then
          !pulls[0].matches && o.entry == Made(Blocked, "private-draft-pull-request-metadata-mismatch")
        else if HasUncertainDraft(prior) then o.entry == Made(PrUncertain, "prior-draft-write-has-no-exact-readback")
        else answers.unmovedAtDraft.Said? && o.entry == Created(old(entry))
      ensures old(disturbed) ==> disturbed
      ensures Calm(answers) && !disturbed ==> o.Receipt? || o.Proceed?
    {
      ForwardSelf(world.file);
      hide AtMostOnce, OnlyForCandidates, Forward;
      if !answers.pulls.Said? { return OutcomeOf(answers.pulls); }
      var pulls := answers.pulls.value;
      if |pulls| > 1 {
        o := SaveBlocked("private-draft-pull-request-ambiguous", Blocked);
      } else if |pulls| == 1 {
        if pulls[0].matches {
          o := RecordDraftReady(pulls[0].url);
        } else {
          o := SaveBlocked("private-draft-pull-request-metadata-mismatch", Blocked);
        }
      } else if HasUncertainDraft(prior) {
        o := SaveBlocked("prior-draft-write-has-no-exact-readback", PrUncertain);
      } else {
        o := CreateDraftPullRequest();
      }
    }

    // -------------------------------------------------------------- the branch

    /** The context that `createRepairContext` makes of an unfinished delivery. */
    ghost predicate AtStart()
      reads this, world
    {
      && Sync() && (prior.Some? <==> key in state) && (prior.Some? ==> prior.value == state[key] && !IsTerminal(prior.value.state))
      && entry == if prior.Some? then prior.value else Entry(identity, claim, PushIntent, "push-intent", None)
    }

    /** An earlier run has already pushed the branch. */
    ghost predicate BranchReady() { prior.Some? && IsBranchReady(prior.value.state) }

    /** A read of the branch; the world notes whether it holds the candidate. */
    method ReadBranch(reply: Reply<Remote>) returns (o: Outcome, remote: Remote)
      requires Sync()
      modifies world`verified
      ensures Sync() && o == OutcomeOf(reply) && (o.Proceed? ==> reply == Said(remote))
      ensures world.verified == if reply == Said(Candidate) then old(world.verified) + {key} else old(world.verified)
    {
      o, remote := OutcomeOf(reply), Absent;
      if reply.Said? {
        remote := reply.value;
        if remote.Candidate? { world.verified := world.verified + {key}; }
      }
    }

    /** The push itself. */
    method PushCandidate() returns (o: Outcome)
      requires Sync() && MayPush(answers)
      modifies world`pushes
      ensures Sync() && world.pushes == old(world.pushes) + [key] && o == OutcomeOf(answers.push)
    {
      world.pushes := world.pushes + [key];
      o := OutcomeOf(answers.push);
    }

    /** What the receipt of a branch that holds no candidate says. */
    ghost function NotPushed(): Entry {
      if answers.branch == Said(Other) then Made(Blocked, "private-repair-branch-is-occupied")
      else if answers.unmovedAtPush == Said(false) then Made(Blocked, "private-target-moved-before-branch-write")
      else if !Pushed(answers) then Made(BranchUncertain, "private-branch-write-needs-readback")
      else Made(PrUncertain, "private-branch-write-readback-mismatch")
    }

    /**
     * Proceeds exactly for a branch that was read as the candidate, or that an earlier run has pushed.
     * A branch that holds another revision is never pushed to: the delivery is blocked.
     */
    method EnsureRepairBranch() returns (o: Outcome)
      requires AtStart()
      modifies `entry, `state, `disturbed, world`file, world`pushes, world`verified
      ensures world.Inv() && Forward(old(world.file), world.file)
      ensures o.Proceed? ==> AtDraft() && (BranchReady() || ReadAsCandidate(answers))
      ensures BranchReady() ==>
        o.Proceed? && world.file == old(world.file) && world.pushes == old(world.pushes) && world.verified == old(world.verified)
      ensures world.pushes == old(world.pushes) || (world.pushes == old(world.pushes) + [key] && MayPush(answers))
      ensures o.Receipt? || o.Proceed? ==> (world.pushes != old(world.pushes) <==> !BranchReady() && MayPush(answers))
      ensures world.verified == old(world.verified)
        || (world.verified == old(world.verified) + {key} && ReadAsCandidate(answers))
      ensures o.Receipt? ==>
        !ReadAsCandidate(answers) && o.entry == NotPushed() && key in world.file && world.file[key] == o.entry
      ensures old(disturbed) ==> disturbed
      ensures Calm(answers) && !disturbed ==> o.Receipt? || o.Proceed?
    {
      ForwardSelf(world.file);
      hide AtMostOnce, OnlyForCandidates, Forward;
      if IsBranchReady(entry.state) { return Proceed; }
      o := SetState(PushIntent);
      if !o.Proceed? { return; }
      ghost var file := world.file;
      var remote;
      o, remote := ReadBranch(answers.branch);
      if !o.Proceed? { return; }
      o := ReconcileRemoteBranch(remote);
      ForwardThrough(old(world.file), file, world.file);
    }

    /** The three cases of the branch: occupied, absent or already there. */
    method ReconcileRemoteBranch(remote: Remote) returns (o: Outcome)
      requires Sync() && key in state && state[key] == entry && entry.state.PushIntent? && answers.branch == Said(remote)
      requires remote.Candidate? ==> key in world.verified
      modifies `entry, `state, `disturbed, world`file, world`pushes, world`verified
      ensures world.Inv() && Forward(old(world.file), world.file)
      ensures o.Proceed? ==>
        Sync() && key in state && state[key] == entry && entry.state.BranchPushed? && ReadAsCandidate(answers)
      ensures world.pushes == old(world.pushes) || (world.pushes == old(world.pushes) + [key] && MayPush(answers))
      ensures o.Receipt? || o.Proceed? ==> (world.pushes != old(world.pushes) <==> MayPush(answers))
      ensures world.verified == old(world.verified)
        || (world.verified == old(world.verified) + {key} && ReadAsCandidate(answers))
      ensures o.Receipt? ==>
        !ReadAsCandidate(answers) && o.entry == NotPushed() && key in world.file && world.file[key] == o.entry
      ensures old(disturbed) ==> disturbed
      ensures Calm(answers) && !disturbed ==> o.Receipt? || o.Proceed?
    {
      ForwardSelf(world.file);
      hide AtMostOnce, OnlyForCandidates, Forward;
      if remote.Other? {
        o := SaveBlocked("private-repair-branch-is-occupied", Blocked);
        return;
      }
      if remote.Absent? {
        o := PushRepairBranch();
        if !o.Proceed? { return; }
      }
      ghost var file := world.file;
      o := SetState(BranchPushed);
      ForwardThrough(old(world.file), file, world.file);
    }

    /** Pushes and reads back; a mismatch is stored as if a draft had been asked for. */
    method PushRepairBranch() returns (o: Outcome)
      requires Sync() && key in state && state[key].state.PushIntent? && answers.branch == Said(Absent)
      modifies `state, `disturbed, world`file, world`pushes, world`verified
      ensures world.Inv() && Forward(old(world.file), world.file)
      ensures o.Proceed? ==> Sync() && state == old(state) && key in world.verified && ReadAsCandidate(answers)
      ensures world.pushes == old(world.pushes) || (world.pushes == old(world.pushes) + [key] && MayPush(answers))
      ensures o.Receipt? || o.Proceed? ==> (world.pushes != old(world.pushes) <==> MayPush(answers))
      ensures world.verified == old(world.verified)
        || (world.verified == old(world.verified) + {key} && ReadAsCandidate(answers))
      ensures o.Receipt? ==>
        !ReadAsCandidate(answers) && o.entry == NotPushed() && key in world.file && world.file[key] == o.entry
      ensures old(disturbed) ==> disturbed
      ensures Calm(answers) && !disturbed ==> o.Receipt? || o.Proceed?
    {
      ForwardSelf(world.file);
      hide AtMostOnce, OnlyForCandidates, Forward;
      if !answers.unmovedAtPush.Said? { return OutcomeOf(answers.unmovedAtPush); }
      if !answers.unmovedAtPush.value {
        o := SaveBlocked("private-target-moved-before-branch-write", Blocked);
        return;
      }
      if !answers.claimAtPush.Said? { return OutcomeOf(answers.claimAtPush); }
      o := PushCandidate();
      if o.Died? { return; }
      if o.Threw? {
        if !answers.recovered.Said? { return OutcomeOf(answers.recovered); }
        if !answers.recovered.value.Candidate? {
          o := SaveBlocked("private-branch-write-needs-readback", BranchUncertain);
          return;
        }
      }
      var remote;
      o, remote := ReadBranch(answers.readBack);
      if !o.Proceed? { return; }
      if !remote.Candidate? { o := SaveBlocked("private-branch-write-readback-mismatch", PrUncertain); }
    }

    // -------------------------------------------------------------- the target

    /** The run asks for a draft. */
    ghost predicate Asks(target: Target) {
      && target.Vulnerable? && answers.candidatePresent == Said(false) && !HasUncertainDraft(prior)
      && (BranchReady() || ReadAsCandidate(answers)) && MayRequest(answers)
    }

    /** The run pushes the branch. */
    ghost predicate Pushes(target: Target) {
      target.Vulnerable? && answers.candidatePresent == Said(false) && !BranchReady() && MayPush(answers)
    }

    /** What the receipt says of a target that is not repaired. */
    ghost function NotRepaired(target: Target): Entry
      requires target.Current? || target.Vulnerable? ==> answers.candidatePresent.Said?
    {
      match target
      case Unknown => Made(Blocked, "private-target-source-tree-is-not-an-approved-pin")
      case Invalid => Made(Blocked, "private-target-identity-mismatch")
      case Current =>
        if answers.candidatePresent.value then Entry(identity, claim, AlreadyFixed, "already-fixed", Some(TREE_URL))
        else Made(Blocked, "known-private-target-lost-the-reviewed-fix")
      case Vulnerable => Made(Blocked, "private-target-base-is-not-an-approved-repair-base")
    }

    /** An approved current base: recorded as fixed if it has the fix and the claim is current. */
    method RecordAlreadyFixed(candidatePresent: bool) returns (o: Outcome)
      requires AtStart() && answers.candidatePresent == Said(candidatePresent)
      modifies `entry, `state, `disturbed, world`file
      ensures world.Inv() && Forward(old(world.file), world.file) && !o.Proceed?
      ensures o.Receipt? ==> o.entry == NotRepaired(Current) && (candidatePresent ==> answers.claimAtFixed.Said?)
      ensures old(disturbed) ==> disturbed
      ensures Calm(answers) && !disturbed ==> o.Receipt? || o.Proceed?
    {
      ForwardSelf(world.file);
      hide AtMostOnce, OnlyForCandidates, Forward;
      if !candidatePresent {
        o := SaveBlocked("known-private-target-lost-the-reviewed-fix", Blocked);
      } else if !answers.claimAtFixed.Said? {
        o := OutcomeOf(answers.claimAtFixed);
      } else {
        entry := Entry(identity, claim, AlreadyFixed, "already-fixed", Some(TREE_URL));
        o := SaveEntry();
        if o.Proceed? { o := Receipt(entry); }
      }
    }

    /** `reconcileRepair`: the branch, then the draft. */
    method ReconcileRepair() returns (o: Outcome)
      requires AtStart() && answers.candidatePresent == Said(false)
      modifies `entry, `state, `disturbed, world
      ensures world.Inv() && Forward(old(world.file), world.file) && !o.Proceed?
      ensures world.requests == old(world.requests) || (world.requests == old(world.requests) + [key] && Asks(Vulnerable))
      ensures world.pushes == old(world.pushes) || (world.pushes == old(world.pushes) + [key] && Pushes(Vulnerable))
      ensures o.Receipt? ==> (world.pushes != old(world.pushes) <==> Pushes(Vulnerable))
      ensures o.Receipt? ==> (world.requests != old(world.requests) <==> Asks(Vulnerable))
      ensures world.verified == old(world.verified)
        || (world.verified == old(world.verified) + {key} && ReadAsCandidate(answers))
      ensures o.Receipt? ==> !o.entry.state.AlreadyFixed?
      ensures o.Receipt? && o.entry.state.DraftReady? ==>
        && o.entry.privateRef.Some? && (BranchReady() || ReadAsCandidate(answers))
        && SawDraft(answers, world.requests != old(world.requests), o.entry.privateRef.value)
      ensures old(disturbed) ==> disturbed
      ensures Calm(answers) && !disturbed ==> o.Receipt? || o.Proceed?
    {
      hide AtMostOnce, OnlyForCandidates, Forward, Sync, ReadAsCandidate, MayPush, MayRequest, SawDraft;
      o := EnsureRepairBranch();
      if !o.Proceed? { return; }
      ghost var file := world.file;
      o := EnsureDraftPullRequest();
      ForwardThrough(old(world.file), file, world.file);
    }

    /** `reconcileTarget`: only an approved vulnerable base without the fix is repaired. */
    method ReconcileTarget(target: Target) returns (o: Outcome)
      requires AtStart()
      modifies `entry, `state, `disturbed, world
      ensures world.Inv() && Forward(old(world.file), world.file) && !o.Proceed?
      ensures world.requests == old(world.requests) || (world.requests == old(world.requests) + [key] && Asks(target))
      ensures world.pushes == old(world.pushes) || (world.pushes == old(world.pushes) + [key] && Pushes(target))
      ensures o.Receipt? ==> (world.pushes != old(world.pushes) <==> Pushes(target))
      ensures o.Receipt? ==> (world.requests != old(world.requests) <==> Asks(target))
      ensures world.verified == old(world.verified)
        || (world.verified == old(world.verified) + {key} && ReadAsCandidate(answers))
      ensures o.Receipt? && (target.Current? || target.Vulnerable?) ==> answers.candidatePresent.Said?
      ensures o.Receipt? && (!target.Vulnerable? || answers.candidatePresent.value) ==> o.entry == NotRepaired(target)
      ensures o.Receipt? && o.entry.state.AlreadyFixed? ==>
        target.Current? && answers.candidatePresent == Said(true) && answers.claimAtFixed.Said?
      ensures o.Receipt? && o.entry.state.DraftReady? ==>
        && target.Vulnerable? && o.entry.privateRef.Some? && (BranchReady() || ReadAsCandidate(answers))
        && SawDraft(answers, world.requests != old(world.requests), o.entry.privateRef.value)
      ensures old(disturbed) ==> disturbed
      ensures Calm(answers) && !disturbed ==> o.Receipt? || o.Proceed?
    {
      ForwardSelf(world.file);
      hide AtMostOnce, OnlyForCandidates, Forward, ReadAsCandidate, MayPush, MayRequest, SawDraft;
      if target.Unknown? {
        o := SaveBlocked("private-target-source-tree-is-not-an-approved-pin", Blocked);
      } else if target.Invalid? {
        o := SaveBlocked("private-target-identity-mismatch", Blocked);
      } else if !answers.candidatePresent.Said? {
        o := OutcomeOf(answers.candidatePresent);
      } else if target.Current? {
        o := RecordAlreadyFixed(answers.candidatePresent.value);
      } else if answers.candidatePresent.value {
        o := SaveBlocked("private-target-base-is-not-an-approved-repair-base", Blocked);
      } else {
        o := ReconcileRepair();
      }
    }
  }

  const TREE_URL := "https://github.com/Capsize-Games/curl-maintenance/tree/reviewed-source-ce573393"

  lemma ForwardSelf(file: map<string, Entry>)
    ensures Forward(file, file)
  {
  }

  lemma ForwardThrough(a: map<string, Entry>, b: map<string, Entry>, c: map<string, Entry>)
    ensures Forward(a, b) && Forward(b, c) ==> Forward(a, c)
  {
  }

  /** The run of a delivery whose stored entry is `prior` asks for a draft. */
  ghost predicate Asks(x: Answers, prior: Option<Entry>) {
    && x.claim.Said? && x.target == Said(Vulnerable) && x.candidatePresent == Said(false) && !HasUncertainDraft(prior)
    && ((prior.Some? && IsBranchReady(prior.value.state)) || ReadAsCandidate(x)) && MayRequest(x)
  }

  ghost function Stored(file: map<string, Entry>, key: string): Option<Entry> { if key in file then Some(file[key]) else None }

  /**
   * One run under the lock, from the second claim check on. A receipt that was not stored before
   * tells what happened: a draft was asked for exactly in the cases of `Asks`, and a ready draft is
   * the one matching pull request that the run saw. A calm run of a current claim, in which every
   * write returns, ends with a receipt.
   */
  method RunLockedDelivery(world: World, key: string, identity: string, claim: Claim, answers: Answers)
    returns (o: Outcome, ghost disturbed: bool)
    requires world.Inv()
    modifies world
    ensures world.Inv() && Forward(old(world.file), world.file)
    ensures Calm(answers) && !disturbed ==>
      o.Receipt? || (key in old(world.file) && (old(world.file[key]).identity != identity || old(world.file[key]).claim != claim))
    ensures world.requests == old(world.requests)
      || (world.requests == old(world.requests) + [key] && Asks(answers, Stored(old(world.file), key)))
    ensures world.pushes == old(world.pushes) || (world.pushes == old(world.pushes) + [key] && MayPush(answers))
    ensures world.verified == old(world.verified)
      || (world.verified == old(world.verified) + {key} && ReadAsCandidate(answers))
    ensures key in old(world.file) && IsTerminal(old(world.file[key]).state) ==>
      && world.file == old(world.file) && world.requests == old(world.requests) && world.pushes == old(world.pushes)
      && (o.Threw? || o.Died? || o == Receipt(old(world.file[key])))
    ensures key in old(world.file) && (old(world.file[key]).identity != identity || old(world.file[key]).claim != claim) ==>
      world.file == old(world.file) && world.requests == old(world.requests) && (o.Threw? || o.Died?)
    ensures o.Receipt? && !(key in old(world.file) && IsTerminal(old(world.file[key]).state)) ==>
      && (world.requests != old(world.requests) <==> Asks(answers, Stored(old(world.file), key)))
      && (o.entry.state.DraftReady? ==>
            answers.target == Said(Vulnerable) && o.entry.privateRef.Some?
            && SawDraft(answers, world.requests != old(world.requests), o.entry.privateRef.value))
      && (o.entry.state.AlreadyFixed? ==>
            answers.target == Said(Current) && answers.candidatePresent == Said(true) && answers.claimAtFixed.Said?)
  {
    hide AtMostOnce, OnlyForCandidates;
    disturbed := false;
    if !answers.claim.Said? { return OutcomeOf(answers.claim), false; }
    if key in world.file {
      var e := world.file[key];
      if e.identity != identity || e.claim != claim { return Threw, false; }
      if IsTerminal(e.state) { return Receipt(e), false; }
    }
    if !answers.target.Said? { return OutcomeOf(answers.target), false; }
    var context := new Context(world, key, identity, claim, answers);
    o := context.ReconcileTarget(answers.target.value);
    disturbed := context.disturbed;
  }

  datatype Call = Call(key: string, identity: string, claim: Claim, answers: Answers)

  /** Some run of `key` read its branch as the candidate. */
  ghost predicate SomeRead(calls: seq<Call>, key: string) {
    exists n :: 0 <= n < |calls| && calls[n].key == key && ReadAsCandidate(calls[n].answers)
  }

  /**
   * Any runs of any deliveries, one at a time under the exclusive lock, each ending in any way: at
   * most one draft request per key, and only for a key whose branch some run has read as holding the
   * reviewed candidate; no state goes back, and a delivery whose stored state is an intent, uncertain
   * or final never asks again. Nothing is assumed about the answers of the remote.
   */
  method AnyRuns(world: World, calls: seq<Call>)
    requires world.Inv()
    modifies world
    ensures world.Inv() && Forward(old(world.file), world.file)
    ensures forall k :: Count(world.requests, k) <= 1
    ensures forall k :: k in world.requests ==> k in old(world.verified) || SomeRead(calls, k)
    ensures forall k :: k in old(world.file) && Rank(old(world.file[k]).state) >= 2 ==>
      Count(world.requests, k) == Count(old(world.requests), k)
  {
    for n := 0 to |calls|
      invariant world.Inv() && Forward(old(world.file), world.file)
      invariant forall k :: k in world.verified ==> k in old(world.verified) || SomeRead(calls[..n], k)
      invariant forall k :: k in old(world.file) && Rank(old(world.file[k]).state) >= 2 ==>
        Count(world.requests, k) == Count(old(world.requests), k)
    {
      ghost var requests := world.requests;
      var call := calls[n];
      var o, disturbed := RunLockedDelivery(world, call.key, call.identity, call.claim, call.answers);
      CountStep(requests, call.key);
      SomeReadStep(calls, n);
    }
    assert calls[..|calls|] == calls;
  }

  lemma SomeReadStep(calls: seq<Call>, n: nat)
    requires n < |calls|
    ensures forall k :: SomeRead(calls[..n], k) ==> SomeRead(calls[..n + 1], k)
    ensures ReadAsCandidate(calls[n].answers) ==> SomeRead(calls[..n + 1], calls[n].key)
  {
    forall k | SomeRead(calls[..n], k) ensures SomeRead(calls[..n + 1], k) {
      var i :| 0 <= i < n && calls[..n][i].key == k && ReadAsCandidate(calls[..n][i].answers);
      assert calls[..n + 1][i] == calls[i];
    }
    if ReadAsCandidate(calls[n].answers) { assert calls[..n + 1][n] == calls[n]; }
  }
}
