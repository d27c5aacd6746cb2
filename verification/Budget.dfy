/** The global budget ledger: what `globalBudgetUsage` makes of the records of the budget journal. */
module Budget {
  import opened Wrappers
  import opened JournalText

  /** The payloads that the collectors write and read back. */
  datatype Payload =
    | Reservation(attemptId: string, maxTokens: int, maxWallMs: int)
    | Settlement(attemptId: string, actualTokens: int, actualWallMs: int)
    | Slot(slotKey: string)
    | Request(iteration: int)
    | Note

  type Entry = Record<Payload>

  datatype Usage = Usage(tokens: int, wallMs: int)

  const RUN_TOKENS := 20_000
  const RUN_WALL_MS := 300_000
  const RUN_CALLS := 16
  const GLOBAL_TOKENS := 2_000_000
  const GLOBAL_WALL_MS := 36_000_000
  const MAX_SAFE_INTEGER := 9_007_199_254_740_991

  predicate SafeInteger(n: int) { 0 <= n <= MAX_SAFE_INTEGER }

  /** The two maps that `globalBudgetUsage` fills; `order` is the insertion order of the first. */
  datatype Book = Book(order: seq<string>, reserved: map<string, Usage>, settled: map<string, Usage>)

  const EMPTY_BOOK := Book([], map[], map[])

  /** One record entered into the book; None stands for the corruption error. */
  function Enter(b: Book, r: Entry): Option<Book> {
    if r.kind == "budget_reserved" then
      if r.payload.Reservation? && SafeInteger(r.payload.maxTokens) && SafeInteger(r.payload.maxWallMs)
         && r.payload.attemptId !in b.reserved
      then
        var id := r.payload.attemptId;
        Some(b.(order := b.order + [id], reserved := b.reserved[id := Usage(r.payload.maxTokens, r.payload.maxWallMs)]))
      else None
    else if r.kind == "budget_settled" then
      if r.payload.Settlement? && r.payload.attemptId in b.reserved
         && SafeInteger(r.payload.actualTokens) && SafeInteger(r.payload.actualWallMs)
         && r.payload.attemptId !in b.settled
         && r.payload.actualTokens <= b.reserved[r.payload.attemptId].tokens
         && r.payload.actualWallMs <= b.reserved[r.payload.attemptId].wallMs
      then Some(b.(settled := b.settled[r.payload.attemptId := Usage(r.payload.actualTokens, r.payload.actualWallMs)]))
      else None
    else Some(b)
  }

  function BookOf(rs: seq<Entry>): Option<Book> {
    if rs == [] then Some(EMPTY_BOOK)
    else
      match BookOf(rs[..|rs| - 1])
      case Some(b) => Enter(b, rs[|rs| - 1])
      case None => None
  }

  predicate AtMost(u: Usage, v: Usage) { u.tokens <= v.tokens && u.wallMs <= v.wallMs }

  ghost predicate BookValid(b: Book) {
    && (forall i, j :: 0 <= i < j < |b.order| ==> b.order[i] != b.order[j])
    && (forall id :: id in b.order <==> id in b.reserved)
    && (forall id :: id in b.settled ==> id in b.reserved && AtMost(b.settled[id], b.reserved[id]))
  }

  /** A settled attempt is charged what it used, any other what it reserved. */
  function Charge(b: Book, id: string): Usage
    requires id in b.reserved
  {
    if id in b.settled then b.settled[id] else b.reserved[id]
  }

  function Total(b: Book, order: seq<string>): Usage
    requires forall id :: id in order ==> id in b.reserved
  {
    if order == [] then Usage(0, 0)
    else
      var n := |order| - 1;
      var t, c := Total(b, order[..n]), Charge(b, order[n]);
      Usage(t.tokens + c.tokens, t.wallMs + c.wallMs)
  }

  lemma {:induction false} BookOfValid(rs: seq<Entry>)
    ensures BookOf(rs).Some? ==> BookValid(BookOf(rs).value)
  {
    if rs != [] { BookOfValid(rs[..|rs| - 1]); }
  }

  /** What `globalBudgetUsage` returns, or None when it throws. */
  ghost function UsageOf(rs: seq<Entry>): Option<Usage> {
    match BookOf(rs)
    case Some(b) => BookOfValid(rs); Some(Total(b, b.order))
    case None => None
  }

  /** The first loop of `globalBudgetUsage`: over the journal. */
  method FillBook(records: seq<Entry>) returns (book: Option<Book>)
    ensures book == BookOf(records)
  {
    var b := EMPTY_BOOK;
    assert records[..0] == [];
    for i := 0 to |records|
      invariant BookOf(records[..i]) == Some(b)
    {
      assert records[..i + 1][..i] == records[..i];
      var next := Enter(b, records[i]);
      if next.None? {
        BookStaysNone(records[..i + 1], records);
        return None;
      }
      b := next.value;
    }
    assert records[..|records|] == records;
    return Some(b);
  }

  /** `globalBudgetUsage`: fill the maps, then sum the charges of all reservations. */
  method GlobalBudgetUsage(records: seq<Entry>) returns (usage: Option<Usage>)
    ensures usage == UsageOf(records)
  {
    var filled := FillBook(records);
    if filled.None? { return None; }
    var book := filled.value;
    BookOfValid(records);
    var sum := Usage(0, 0);
    for k := 0 to |book.order|
      invariant sum == Total(book, book.order[..k])
    {
      assert book.order[..k + 1][..k] == book.order[..k];
      var c := Charge(book, book.order[k]);
      sum := Usage(sum.tokens + c.tokens, sum.wallMs + c.wallMs);
    }
    assert book.order[..|book.order|] == book.order;
    return Some(sum);
  }

  // ---------------------------------------------------------------- how a record changes the total

  /** A journal that was refused once is refused for ever. */
  lemma {:induction false} BookStaysNone(rs: seq<Entry>, longer: seq<Entry>)
    requires BookOf(rs).None? && rs <= longer
    ensures BookOf(longer).None?
  {
    if |longer| > |rs| {
      BookStaysNone(rs, longer[..|longer| - 1]);
    } else {
      assert rs == longer;
    }
  }

  /** A settlement beyond its reservation makes the ledger refuse every later admission. */
  lemma OverrunRefusesForEver(rs: seq<Entry>, r: Entry, more: seq<Entry>)
    requires r.kind == "budget_settled" && r.payload.Settlement?
    requires BookOf(rs).Some? ==>
      var b, id := BookOf(rs).value, r.payload.attemptId;
      id in b.reserved && (r.payload.actualTokens > b.reserved[id].tokens || r.payload.actualWallMs > b.reserved[id].wallMs)
    ensures UsageOf(rs + [r] + more).None?
  {
    assert (rs + [r])[..|rs|] == rs;
    BookStaysNone(rs + [r], rs + [r] + more);
  }

  lemma {:induction false} TotalFrame(b: Book, c: Book, order: seq<string>)
    requires forall id :: id in order ==> id in b.reserved && id in c.reserved && Charge(b, id) == Charge(c, id)
    ensures Total(b, order) == Total(c, order)
  {
    if order != [] {
      assert order[|order| - 1] in order;
      TotalFrame(b, c, order[..|order| - 1]);
    }
  }

  function Settle(b: Book, id: string, used: Usage): Book { b.(settled := b.settled[id := used]) }

  predicate DistinctIds(order: seq<string>) { forall i, j :: 0 <= i < j < |order| ==> order[i] != order[j] }

  /** Settling an attempt replaces its limits by what it used. */
  lemma {:induction false} TotalSettles(b: Book, id: string, used: Usage, order: seq<string>)
    requires id in b.reserved && id !in b.settled && DistinctIds(order) && forall x :: x in order ==> x in b.reserved
    ensures var t, limit := Total(b, order), b.reserved[id];
      Total(Settle(b, id, used), order) ==
        if id in order then Usage(t.tokens - limit.tokens + used.tokens, t.wallMs - limit.wallMs + used.wallMs) else t
  {
    if order != [] {
      var n := |order| - 1;
      TotalSettles(b, id, used, order[..n]);
      assert order == order[..n] + [order[n]];
    }
  }

  lemma ReserveAdds(b: Book, id: string, limit: Usage)
    requires id !in b.reserved && id !in b.settled && forall x :: x in b.order ==> x in b.reserved
    ensures var c := b.(order := b.order + [id], reserved := b.reserved[id := limit]);
      && (forall x :: x in c.order ==> x in c.reserved)
      && Total(c, c.order) == Usage(Total(b, b.order).tokens + limit.tokens, Total(b, b.order).wallMs + limit.wallMs)
  {
    var c := b.(order := b.order + [id], reserved := b.reserved[id := limit]);
    assert c.order[..|b.order|] == b.order;
    TotalFrame(b, c, b.order);
  }

  // ---------------------------------------------------------------- what the records say

  ghost predicate ReservedAt(rs: seq<Entry>, i: int, id: string, limit: Usage) {
    0 <= i < |rs| && rs[i].kind == "budget_reserved" && rs[i].payload == Reservation(id, limit.tokens, limit.wallMs)
  }

  ghost predicate SettledAt(rs: seq<Entry>, i: int, id: string, used: Usage) {
    0 <= i < |rs| && rs[i].kind == "budget_settled" && rs[i].payload == Settlement(id, used.tokens, used.wallMs)
  }

  ghost predicate HasReservation(rs: seq<Entry>, id: string, limit: Usage) { exists i :: ReservedAt(rs, i, id, limit) }

  ghost predicate HasSettlement(rs: seq<Entry>, id: string, used: Usage) { exists i :: SettledAt(rs, i, id, used) }

  /** The book holds what the records say, and nothing else. */
  ghost predicate Tells(b: Book, rs: seq<Entry>) {
    && (forall id :: id in b.reserved ==> HasReservation(rs, id, b.reserved[id]))
    && (forall id, u :: HasReservation(rs, id, u) ==> id in b.reserved && b.reserved[id] == u)
    && (forall id :: id in b.settled ==> HasSettlement(rs, id, b.settled[id]))
    && (forall id, u :: HasSettlement(rs, id, u) ==> id in b.settled && b.settled[id] == u)
  }

  lemma ReservationStep(rs: seq<Entry>, r: Entry, id: string, u: Usage)
    ensures HasReservation(rs + [r], id, u) <==>
      HasReservation(rs, id, u) || (r.kind == "budget_reserved" && r.payload == Reservation(id, u.tokens, u.wallMs))
  {
    var s := rs + [r];
    if i :| ReservedAt(rs, i, id, u) { assert ReservedAt(s, i, id, u); }
    if i :| ReservedAt(s, i, id, u) { assert i < |rs| ==> ReservedAt(rs, i, id, u); }
    if r.kind == "budget_reserved" && r.payload == Reservation(id, u.tokens, u.wallMs) { assert ReservedAt(s, |rs|, id, u); }
  }

  lemma SettlementStep(rs: seq<Entry>, r: Entry, id: string, u: Usage)
    ensures HasSettlement(rs + [r], id, u) <==>
      HasSettlement(rs, id, u) || (r.kind == "budget_settled" && r.payload == Settlement(id, u.tokens, u.wallMs))
  {
    var s := rs + [r];
    if i :| SettledAt(rs, i, id, u) { assert SettledAt(s, i, id, u); }
    if i :| SettledAt(s, i, id, u) { assert i < |rs| ==> SettledAt(rs, i, id, u); }
    if r.kind == "budget_settled" && r.payload == Settlement(id, u.tokens, u.wallMs) { assert SettledAt(s, |rs|, id, u); }
  }

  lemma {:induction false} BookTells(rs: seq<Entry>)
    ensures BookOf(rs).Some? ==> Tells(BookOf(rs).value, rs)
  {
    if rs != [] && BookOf(rs).Some? {
      var n := |rs| - 1;
      BookTells(rs[..n]);
      BookOfValid(rs[..n]);
      assert rs == rs[..n] + [rs[n]];
      EntersTold(BookOf(rs[..n]).value, rs[..n], rs[n]);
    }
  }

  lemma EntersTold(b: Book, rs: seq<Entry>, r: Entry)
    requires Tells(b, rs) && Enter(b, r).Some? && BookValid(b)
    ensures Tells(Enter(b, r).value, rs + [r])
  {
    forall id, u ensures HasReservation(rs + [r], id, u) <==>
      HasReservation(rs, id, u) || (r.kind == "budget_reserved" && r.payload == Reservation(id, u.tokens, u.wallMs))
    {
      ReservationStep(rs, r, id, u);
    }
    forall id, u ensures HasSettlement(rs + [r], id, u) <==>
      HasSettlement(rs, id, u) || (r.kind == "budget_settled" && r.payload == Settlement(id, u.tokens, u.wallMs))
    {
      SettlementStep(rs, r, id, u);
    }
    hide HasReservation, HasSettlement;
  }

  /** Record `i` is one that the ledger accepts after those before it. */
  ghost predicate GoodAt(rs: seq<Entry>, i: int)
    requires 0 <= i < |rs|
  {
    Good(rs[..i], rs[i])
  }

  ghost predicate Good(before: seq<Entry>, r: Entry) {
    var p := r.payload;
    if r.kind == "budget_reserved" then
      && p.Reservation? && 0 <= p.maxTokens <= 9_007_199_254_740_991 && 0 <= p.maxWallMs <= 9_007_199_254_740_991
      && forall u :: !HasReservation(before, p.attemptId, u)
    else if r.kind == "budget_settled" then
      && p.Settlement? && 0 <= p.actualTokens && 0 <= p.actualWallMs
      && (exists u :: HasReservation(before, p.attemptId, u) && p.actualTokens <= u.tokens && p.actualWallMs <= u.wallMs)
      && forall u :: !HasSettlement(before, p.attemptId, u)
    else true
  }

  ghost predicate SafeLimits(b: Book) {
    forall id :: id in b.reserved ==> SafeInteger(b.reserved[id].tokens) && SafeInteger(b.reserved[id].wallMs)
  }

  lemma GoodIsAccepted(b: Book, rs: seq<Entry>, r: Entry)
    requires Tells(b, rs) && BookValid(b) && SafeLimits(b)
    ensures Enter(b, r).Some? <==> Good(rs, r)
  {
    hide HasReservation, HasSettlement;
  }

  lemma {:induction false} LimitsAreSafe(rs: seq<Entry>)
    ensures BookOf(rs).Some? ==> SafeLimits(BookOf(rs).value)
  {
    if rs != [] { LimitsAreSafe(rs[..|rs| - 1]); }
  }

  /**
   * The ledger is readable exactly when every reservation is the first of its attempt with safe
   * limits, and every settlement is the first of an attempt that was reserved and within its limits.
   */
  lemma {:induction false} ReadableMeans(rs: seq<Entry>)
    ensures UsageOf(rs).Some? <==> forall i :: 0 <= i < |rs| ==> GoodAt(rs, i)
  {
    if rs != [] {
      var n := |rs| - 1;
      var front := rs[..n];
      ReadableMeans(front);
      BookTells(front);
      BookOfValid(front);
      LimitsAreSafe(front);
      forall i | 0 <= i < n ensures GoodAt(rs, i) <==> GoodAt(front, i) { assert rs[..i] == front[..i]; }
      if BookOf(front).Some? { GoodIsAccepted(BookOf(front).value, front, rs[n]); }
      hide Good;
      assert GoodAt(rs, n) <==> Good(front, rs[n]);
    }
  }

  /** From `u` to `v` a settlement takes back the limit that was reserved and adds what it reports. */
  ghost predicate Replaces(rs: seq<Entry>, settlement: Payload, limit: Usage, u: Usage, v: Usage)
    requires settlement.Settlement?
  {
    && HasReservation(rs, settlement.attemptId, limit)
    && v.tokens == u.tokens - limit.tokens + settlement.actualTokens
    && v.wallMs == u.wallMs - limit.wallMs + settlement.actualWallMs
  }

  /**
   * A reservation adds its limits, a settlement replaces the limits of its attempt by the amounts
   * that it reports, and other records change nothing.
   */
  lemma UsageStep(rs: seq<Entry>, r: Entry)
    requires UsageOf(rs).Some? && UsageOf(rs + [r]).Some?
    ensures var u, v := UsageOf(rs).value, UsageOf(rs + [r]).value;
      if r.kind == "budget_reserved" then
        r.payload.Reservation? && v == Usage(u.tokens + r.payload.maxTokens, u.wallMs + r.payload.maxWallMs)
      else if r.kind == "budget_settled" then
        && r.payload.Settlement? && AtMost(v, u)
        && (exists limit :: Replaces(rs, r.payload, limit, u, v))
      else v == u
  {
    assert (rs + [r])[..|rs|] == rs;
    BookOfValid(rs);
    BookTells(rs);
    var b := BookOf(rs).value;
    assert BookOf(rs + [r]) == Enter(b, r);
    hide HasReservation, HasSettlement;
    if r.kind == "budget_reserved" {
      ReserveAdds(b, r.payload.attemptId, Usage(r.payload.maxTokens, r.payload.maxWallMs));
    } else if r.kind == "budget_settled" {
      var id := r.payload.attemptId;
      TotalSettles(b, id, Usage(r.payload.actualTokens, r.payload.actualWallMs), b.order);
      assert Replaces(rs, r.payload, b.reserved[id], UsageOf(rs).value, UsageOf(rs + [r]).value);
    }
  }

  /** The ledger's promise: refused, or within both global caps. */
  ghost predicate WithinCaps(rs: seq<Entry>) {
    UsageOf(rs).Some? ==> UsageOf(rs).value.tokens <= GLOBAL_TOKENS && UsageOf(rs).value.wallMs <= GLOBAL_WALL_MS
  }

  /** The admission test that precedes a reservation. */
  predicate Fits(used: Usage) {
    used.tokens + RUN_TOKENS <= GLOBAL_TOKENS && used.wallMs + RUN_WALL_MS <= GLOBAL_WALL_MS
  }

  predicate RunReservation(p: Payload) {
    p.Reservation? && p.maxTokens == RUN_TOKENS && p.maxWallMs == RUN_WALL_MS
  }

  lemma CapsStep(rs: seq<Entry>, r: Entry)
    requires WithinCaps(rs)
    requires r.kind == "budget_reserved" ==> UsageOf(rs).Some? && Fits(UsageOf(rs).value) && RunReservation(r.payload)
    ensures WithinCaps(rs + [r])
  {
    if UsageOf(rs + [r]).Some? {
      assert (rs + [r])[..|rs|] == rs;
      UsageStep(rs, r);
    }
  }

  /** The admission test passes exactly when the reservation that follows stays within both caps. */
  lemma FitsExactly(rs: seq<Entry>, r: Entry)
    requires UsageOf(rs).Some? && UsageOf(rs + [r]).Some? && r.kind == "budget_reserved" && RunReservation(r.payload)
    ensures Fits(UsageOf(rs).value) <==> WithinCaps(rs + [r])
  {
    UsageStep(rs, r);
  }
}
