/** What the model provider bills for the requests that were sent, against what the ledger charges. */
module Spend {
  import opened Wrappers
  import opened JournalText
  import opened Budget

  /**
   * What the provider answers to a request: whether it names the pinned model and provider, the
   * prompt and completion tokens that it bills, and the completion tokens that were visible.
   */
  datatype Reply = Reply(authentic: bool, prompt: nat, completion: nat, visible: nat)

  /** A request that left the process, with its size, the cap that it carries and what became of it. */
  datatype Sent = Sent(attemptId: string, iteration: int, promptBytes: nat, maxTokens: int, reply: Reply)

  function Cost(q: Sent): nat { q.reply.prompt + q.reply.completion }

  /** The tokens billed for a list of requests. */
  function Spent(qs: seq<Sent>): nat {
    if qs == [] then 0 else Spent(qs[..|qs| - 1]) + Cost(qs[|qs| - 1])
  }

  /** The tokens billed for the requests of one attempt. */
  function SpentBy(qs: seq<Sent>, id: string): nat {
    if qs == [] then 0 else SpentBy(qs[..|qs| - 1], id) + if qs[|qs| - 1].attemptId == id then Cost(qs[|qs| - 1]) else 0
  }

  /** A provider that bills no more than the size of the prompt and the cap of the request. */
  ghost predicate Bounded(q: Sent) { q.reply.prompt <= q.promptBytes && q.reply.completion <= q.maxTokens }

  ghost predicate Unsettled(budget: seq<Entry>, id: string) { forall u :: !HasSettlement(budget, id, u) }

  /** When a request left, its size and its cap fitted into what was left of its attempt's tokens. */
  ghost predicate HadRoom(qs: seq<Sent>) {
    forall i :: 0 <= i < |qs| ==> qs[i].promptBytes + qs[i].maxTokens + SpentBy(qs[..i], qs[i].attemptId) <= RUN_TOKENS
  }

  /** A readable ledger settles each attempt with the tokens billed for it, and every request had room. */
  ghost predicate Accounted(budget: seq<Entry>, qs: seq<Sent>) {
    UsageOf(budget).Some? ==>
      (forall id, u :: HasSettlement(budget, id, u) ==> u.tokens == SpentBy(qs, id)) && HadRoom(qs)
  }

  /** Every request belongs to an attempt that reserved a run's limits. */
  ghost predicate AllReserved(budget: seq<Entry>, qs: seq<Sent>) {
    forall q :: q in qs ==> HasReservation(budget, q.attemptId, Usage(RUN_TOKENS, RUN_WALL_MS))
  }

  // ---------------------------------------------------------------- one request, one record

  lemma SpentStep(qs: seq<Sent>, q: Sent)
    ensures Spent(qs + [q]) == Spent(qs) + Cost(q)
    ensures forall id :: SpentBy(qs + [q], id) == SpentBy(qs, id) + if q.attemptId == id then Cost(q) else 0
  {
    assert (qs + [q])[..|qs|] == qs;
  }

  /** The requests since `root` were billed `tokens`; an attempt that the ledger can read has sent no others. */
  ghost predicate Tallied(budget: seq<Entry>, qs: seq<Sent>, root: seq<Sent>, id: string, tokens: int) {
    && root <= qs && tokens == Spent(qs[|root|..])
    && (UsageOf(budget).Some? ==> SpentBy(qs, id) == tokens && Unsettled(budget, id))
  }

  /** One more request of the attempt, within what is left of its tokens. */
  lemma TalliedSends(budget: seq<Entry>, qs: seq<Sent>, root: seq<Sent>, q: Sent, tokens: int)
    requires Accounted(budget, qs) && Tallied(budget, qs, root, q.attemptId, tokens)
    requires q.promptBytes + q.maxTokens <= RUN_TOKENS - tokens
    ensures Accounted(budget, qs + [q]) && Tallied(budget, qs + [q], root, q.attemptId, tokens + Cost(q))
  {
    hide UsageOf, Accounted, Spent, SpentBy, HasSettlement;
    AccountedSends(budget, qs, q);
    SpentStep(qs, q);
    SpentStep(qs[|root|..], q);
    assert (qs + [q])[|root|..] == qs[|root|..] + [q];
  }

  lemma AccountedSends(budget: seq<Entry>, qs: seq<Sent>, q: Sent)
    requires Accounted(budget, qs)
    requires UsageOf(budget).Some? ==>
      Unsettled(budget, q.attemptId) && q.promptBytes + q.maxTokens + SpentBy(qs, q.attemptId) <= RUN_TOKENS
    ensures Accounted(budget, qs + [q])
  {
    hide UsageOf, HasSettlement;
    SpentStep(qs, q);
    var all := qs + [q];
    if UsageOf(budget).Some? {
      forall i | 0 <= i < |all| ensures all[i].promptBytes + all[i].maxTokens + SpentBy(all[..i], all[i].attemptId) <= RUN_TOKENS {
        assert all[..i] == qs[..i];
        assert qs[..|qs|] == qs;
      }
    }
  }

  lemma ReadableBefore(budget: seq<Entry>, r: Entry)
    requires UsageOf(budget + [r]).Some?
    ensures UsageOf(budget).Some?
  {
    assert (budget + [r])[..|budget|] == budget;
  }

  lemma AccountedRecords(budget: seq<Entry>, r: Entry, qs: seq<Sent>)
    requires Accounted(budget, qs)
    requires r.kind == "budget_settled" && UsageOf(budget).Some? ==>
      r.payload.Settlement? && r.payload.actualTokens == SpentBy(qs, r.payload.attemptId)
    ensures Accounted(budget + [r], qs)
  {
    if UsageOf(budget + [r]).Some? {
      ReadableBefore(budget, r);
      forall id, u | HasSettlement(budget + [r], id, u) ensures u.tokens == SpentBy(qs, id) {
        SettlementStep(budget, r, id, u);
      }
    }
  }

  /** An attempt that a readable ledger has just reserved is new: it sent nothing and settled nothing. */
  lemma ReservedIsNew(budget: seq<Entry>, r: Entry, qs: seq<Sent>)
    requires r.kind == "budget_reserved" && r.payload.Reservation? && UsageOf(budget + [r]).Some?
    requires AllReserved(budget, qs)
    ensures SpentBy(qs, r.payload.attemptId) == 0 && Unsettled(budget + [r], r.payload.attemptId)
  {
    var id := r.payload.attemptId;
    ReadableBefore(budget, r);
    assert (budget + [r])[..|budget|] == budget;
    BookOfValid(budget);
    BookTells(budget);
    assert id !in BookOf(budget).value.reserved;
    forall q | q in qs ensures q.attemptId != id {
      assert HasReservation(budget, q.attemptId, Usage(RUN_TOKENS, RUN_WALL_MS));
    }
    NothingBilled(qs, id);
    forall u ensures !HasSettlement(budget + [r], id, u) { SettlementStep(budget, r, id, u); }
  }

  lemma {:induction false} NothingBilled(qs: seq<Sent>, id: string)
    requires forall q :: q in qs ==> q.attemptId != id
    ensures SpentBy(qs, id) == 0
  {
    if qs != [] { NothingBilled(qs[..|qs| - 1], id); }
  }

  // ---------------------------------------------------------------- the ledger bounds the bill

  /** Under a bounded provider no attempt is billed more than it reserved. */
  lemma {:induction false} AttemptIsBounded(qs: seq<Sent>, id: string)
    requires HadRoom(qs) && forall q :: q in qs ==> Bounded(q)
    ensures SpentBy(qs, id) <= RUN_TOKENS
  {
    if qs != [] {
      var n := |qs| - 1;
      HadRoomBefore(qs, n);
      AttemptIsBounded(qs[..n], id);
      assert qs[n] in qs;
    }
  }

  lemma HadRoomBefore(qs: seq<Sent>, n: nat)
    requires HadRoom(qs) && n <= |qs|
    ensures HadRoom(qs[..n])
  {
    forall i | 0 <= i < n ensures qs[i].promptBytes + qs[i].maxTokens + SpentBy(qs[..n][..i], qs[i].attemptId) <= RUN_TOKENS {
      assert qs[..n][..i] == qs[..i];
    }
  }

  function SpentByAll(qs: seq<Sent>, order: seq<string>): nat {
    if order == [] then 0 else SpentByAll(qs, order[..|order| - 1]) + SpentBy(qs, order[|order| - 1])
  }

  lemma {:induction false} SpentByAllStep(qs: seq<Sent>, q: Sent, order: seq<string>)
    requires DistinctIds(order)
    ensures SpentByAll(qs + [q], order) == SpentByAll(qs, order) + if q.attemptId in order then Cost(q) else 0
  {
    SpentStep(qs, q);
    if order != [] {
      var n := |order| - 1;
      SpentByAllStep(qs, q, order[..n]);
      assert order == order[..n] + [order[n]];
    }
  }

  lemma {:induction false} NothingSpent(order: seq<string>)
    ensures SpentByAll([], order) == 0
  {
    if order != [] { NothingSpent(order[..|order| - 1]); }
  }

  /** The bill is the sum of the bills of the attempts. */
  lemma {:induction false} BillsAddUp(qs: seq<Sent>, order: seq<string>)
    requires DistinctIds(order) && forall q :: q in qs ==> q.attemptId in order
    ensures Spent(qs) == SpentByAll(qs, order)
  {
    if qs == [] {
      NothingSpent(order);
    } else {
      var n := |qs| - 1;
      BillsAddUp(qs[..n], order);
      SpentByAllStep(qs[..n], qs[n], order);
      assert qs == qs[..n] + [qs[n]];
      assert qs[n] in qs;
    }
  }

  lemma {:induction false} ChargesCover(b: Book, qs: seq<Sent>, order: seq<string>)
    requires forall id :: id in order ==> id in b.reserved && SpentBy(qs, id) <= Charge(b, id).tokens
    ensures SpentByAll(qs, order) <= Total(b, order).tokens
  {
    if order != [] {
      var n := |order| - 1;
      assert order[n] in order;
      ChargesCover(b, qs, order[..n]);
    }
  }

  /**
   * The ledger's total bounds the bill: whatever was sent, by attempts that completed, were aborted
   * or died with their process, the provider has billed at most what the ledger charges, as long as
   * it bills no request more than its prompt's size and its cap.
   */
  lemma BillIsCharged(budget: seq<Entry>, qs: seq<Sent>)
    requires Accounted(budget, qs) && AllReserved(budget, qs) && UsageOf(budget).Some?
    requires forall q :: q in qs ==> Bounded(q)
    ensures Spent(qs) <= UsageOf(budget).value.tokens
  {
    BookOfValid(budget);
    BookTells(budget);
    LimitsAreSafe(budget);
    hide HasSettlement, HasReservation, HadRoom, Bounded;
    var b := BookOf(budget).value;
    forall id | id in b.order ensures SpentBy(qs, id) <= Charge(b, id).tokens {
      AttemptIsBounded(qs, id);
      if id in b.settled {
        assert HasSettlement(budget, id, b.settled[id]);
      } else if q :| q in qs && q.attemptId == id {
        assert HasReservation(budget, id, Usage(RUN_TOKENS, RUN_WALL_MS));
      } else {
        NothingBilled(qs, id);
      }
    }
    forall q | q in qs ensures q.attemptId in b.order {
      assert HasReservation(budget, q.attemptId, Usage(RUN_TOKENS, RUN_WALL_MS));
    }
    BillsAddUp(qs, b.order);
    ChargesCover(b, qs, b.order);
  }

  /**
   * A readable ledger settles every attempt with what was billed for its requests, every request
   * had room when it left, and under a bounded provider the total is above the whole bill.
   */
  ghost predicate BillInOrder(budget: seq<Entry>, qs: seq<Sent>) {
    UsageOf(budget).Some? ==>
      && (forall id, u :: HasSettlement(budget, id, u) ==> u.tokens == SpentBy(qs, id))
      && HadRoom(qs)
      && ((forall q :: q in qs ==> Bounded(q)) ==> Spent(qs) <= UsageOf(budget).value.tokens)
  }

  lemma BillIsInOrder(budget: seq<Entry>, qs: seq<Sent>)
    requires Accounted(budget, qs) && AllReserved(budget, qs)
    ensures BillInOrder(budget, qs)
  {
    hide BookOf, UsageOf, Spent, SpentBy, HasSettlement, HadRoom, Bounded;
    if UsageOf(budget).Some? && forall q :: q in qs ==> Bounded(q) {
      BillIsCharged(budget, qs);
    }
  }
}
