/**
 * Private board delivery: one comment per identity, reconciled after crashes. A method of `World`
 * is the code of one process between two awaits; the processes interleave in any order and may
 * die at any of them. The lock file's descriptor is shared with the board command, so the lock of
 * a dead process is free only when its running command is over.
 */
module BoardDelivery {
  import opened Wrappers
  import opened BoardText

  datatype Identity = Identity(
    campaignId: string, advisoryId: string, sourceRevision: string, sourceTree: string,
    candidate: string, verification: string, evaluator: string, disposition: string)

  datatype Input = Input(
    campaignId: string, jobId: string, claimId: string, epoch: nat, advisoryId: string,
    candidate: string, verification: string, disposition: string, sourceRevision: string, sourceTree: string)

  datatype Receipt = Receipt(
    identity: Identity, firstJobId: string, firstClaimId: string, firstEpoch: nat,
    dedupKey: string, evidence: string, delivered: bool, boardRef: Option<string>)

  /** SHA-256 over the canonical text of the two records that are digested. */
  datatype Digests = Digests(key: Identity -> string, evidence: (Identity, string, string, nat) -> string)

  ghost predicate Sound(d: Digests) {
    && (forall i :: IsDigest(d.key(i))) && (forall i, j :: d.key(i) == d.key(j) ==> i == j)
    && forall i, job, claim, e :: IsDigest(d.evidence(i, job, claim, e))
  }

  /** `assertDeliveryInput`. */
  predicate ValidInput(p: Profile, input: Input) {
    && input.campaignId == p.campaignId && input.advisoryId == p.advisoryId
    && IsUuid(input.jobId) && IsUuid(input.claimId) && input.epoch >= 1
    && IsDigest(input.candidate) && IsDigest(input.verification) && input.disposition == "already-fixed"
    && input.sourceRevision == p.sourceRevision && input.sourceTree == p.sourceTree
  }

  function IdentityOf(p: Profile, input: Input): Identity {
    Identity(input.campaignId, input.advisoryId, input.sourceRevision, input.sourceTree, input.candidate, input.verification,
             p.evaluator, input.disposition)
  }

  const CARD_URL := "http://127.0.0.1:8078/api/cards/1c25cecf-e5e8-4b68-b6fd-5d6ad25426d7"

  function BoardRef(key: string): string { CARD_URL + "#" + Marker(key) }

  /** The board reference that the coordinator lets through: the card, the marker and a digest, in 256 characters. */
  ghost predicate ValidBoardRef(ref: string) {
    |ref| <= 256
    && exists digest :: IsDigest(digest) && IsRefOf(ref, digest)
  }

  ghost predicate IsRefOf(ref: string, digest: string) {
    ref == "http://127.0.0.1:8078/api/cards/1c25cecf-e5e8-4b68-b6fd-5d6ad25426d7#hc-repository-result-v1:" + digest
  }

  /** What a delivery answers passes that check. */
  lemma BoardRefIsValid(key: string)
    requires IsDigest(key)
    ensures ValidBoardRef(BoardRef(key))
  {
    var prefix := "http://127.0.0.1:8078/api/cards/1c25cecf-e5e8-4b68-b6fd-5d6ad25426d7#hc-repository-result-v1:";
    assert CARD_URL + "#" + MARK == prefix;
    assert BoardRef(key) == prefix + key;
    assert IsRefOf(BoardRef(key), key);
    hide IsDigest;
  }

  /** The identity is that of the one advisory, source and evaluator of the profile. */
  ghost predicate Approved(p: Profile, i: Identity) {
    && i.campaignId == p.campaignId && i.advisoryId == p.advisoryId && i.sourceRevision == p.sourceRevision
    && i.sourceTree == p.sourceTree && i.evaluator == p.evaluator && i.disposition == "already-fixed"
    && IsDigest(i.candidate) && IsDigest(i.verification)
  }

  /** The checks that bind a stored receipt to its key. */
  predicate Accepts(r: Receipt, identity: Identity, key: string) {
    && r.dedupKey == key && r.identity == identity
    && IsDigest(r.evidence) && IsUuid(r.firstJobId) && IsUuid(r.firstClaimId) && r.firstEpoch >= 1
    && (r.boardRef.Some? ==> r.boardRef.value == BoardRef(key))
  }

  function CommentOf(p: Profile, input: Input, r: Receipt): string {
    Comment(p, r.dedupKey, input.candidate, input.verification, r.firstJobId, r.firstClaimId, r.firstEpoch)
  }

  // ---------------------------------------------------------------- the board

  /** How many comments carry the marker of `key`. */
  function Marked(board: seq<string>, key: string): nat {
    if board == [] then 0
    else Marked(board[..|board| - 1], key) + if Contains(board[|board| - 1], Marker(key)) then 1 else 0
  }

  predicate HasMarker(board: seq<string>, key: string) {
    exists c :: c in board && Contains(c, Marker(key))
  }

  lemma {:induction false} HasMarkerCounts(board: seq<string>, key: string)
    ensures HasMarker(board, key) <==> Marked(board, key) > 0
  {
    if board != [] {
      var n := |board| - 1;
      HasMarkerCounts(board[..n], key);
      assert board == board[..n] + [board[n]];
    }
  }

  lemma MarkedStep(board: seq<string>, c: string, key: string)
    ensures Marked(board + [c], key) == Marked(board, key) + if Contains(c, Marker(key)) then 1 else 0
  {
    assert (board + [c])[..|board|] == board;
  }

  /** A page of the history: the details of its events, and whether it names a next page. */
  datatype Page = Page(events: seq<string>, more: bool)

  datatype Search = Found | Absent | Failed

  predicate PageHas(page: Page, marker: string) {
    exists e :: e in page.events && Contains(e, marker)
  }

  /** `next` page of the history is named exactly while there is one. */
  predicate History(pages: seq<Page>) {
    pages != [] && forall i :: 0 <= i < |pages| ==> (pages[i].more <==> i + 1 < |pages|)
  }

  /** What the bounded search answers. */
  function FindIn(pages: seq<Page>, marker: string, bad: nat): Search {
    if exists i :: 0 <= i < |pages| && i < 10 && i < bad && PageHas(pages[i], marker) then Found
    else if |pages| <= 10 && |pages| <= bad then Absent
    else Failed
  }

  /**
   * The pages show the board: every comment with a mark is on some page, and every marked event is a
   * comment. Other comments may arrive while the pages are read, so they may be on a page or not.
   */
  ghost predicate Shows(pages: seq<Page>, board: seq<string>) {
    && History(pages)
    && (forall comment :: comment in board && Contains(comment, MARK) ==>
          exists i :: 0 <= i < |pages| && comment in pages[i].events)
    && (forall i, e :: 0 <= i < |pages| && e in pages[i].events && Contains(e, MARK) ==> e in board)
  }

  /** A search that gives an answer gives the right one; beyond ten pages it gives none unless it found the marker. */
  lemma SearchSees(pages: seq<Page>, board: seq<string>, key: string, bad: nat)
    requires Shows(pages, board)
    ensures var r := FindIn(pages, Marker(key), bad);
      (r.Found? ==> HasMarker(board, key)) && (r.Absent? ==> !HasMarker(board, key))
    ensures |pages| <= 10 && bad >= |pages| ==> !FindIn(pages, Marker(key), bad).Failed?
  {
    hide Contains, Marker;
    MarkInMarkersOf(key);
    if HasMarker(board, key) {
      var comment :| comment in board && Contains(comment, Marker(key));
      var i :| 0 <= i < |pages| && comment in pages[i].events;
      assert PageHas(pages[i], Marker(key));
    }
    if i :| 0 <= i < |pages| && i < 10 && i < bad && PageHas(pages[i], Marker(key)) {
      var e :| e in pages[i].events && Contains(e, Marker(key));
      assert e in board;
    }
  }

  lemma MarkInMarkersOf(key: string)
    ensures forall text :: Contains(text, Marker(key)) ==> Contains(text, MARK)
  {
    forall text | Contains(text, Marker(key)) ensures Contains(text, MARK) { MarkInMarker(text, key); }
  }

  /**
   * `findBoardMarker`: at most ten pages, where reading page `bad` fails. "Absent" is answered
   * only after the whole history was read; more than ten pages without the marker are an error.
   */
  method FindBoardMarker(pages: seq<Page>, marker: string, bad: nat) returns (r: Search)
    requires History(pages)
    ensures r == FindIn(pages, marker, bad)
    ensures r.Found? <==> exists i :: 0 <= i < |pages| && i < 10 && i < bad && PageHas(pages[i], marker)
    ensures r.Absent? <==> |pages| <= 10 && |pages| <= bad && forall i :: 0 <= i < |pages| ==> !PageHas(pages[i], marker)
  {
    for page := 0 to 10
      invariant page < |pages| && page <= bad
      invariant forall i :: 0 <= i < page ==> !PageHas(pages[i], marker)
    {
      if page == bad { return Failed; }
      if PageHas(pages[page], marker) { return Found; }
      if !pages[page].more { return Absent; }
    }
    return Failed;
  }

  // ---------------------------------------------------------------- processes

  /** Where a process waits, with its record and the attempt of the retry loop. */
  datatype Wait =
    | Locking
    | ReadingRecord
    | CreatingRecord(record: Receipt)
    | Looking(record: Receipt)
    | Adding(record: Receipt, attempt: nat)
    | LookingAgain(record: Receipt, attempt: nat)
    | Verifying(record: Receipt)
    | Marking(record: Receipt)

  datatype Process = Process(input: Input, at: Wait)

  /** An answer given to a caller. */
  datatype Answer = Answer(key: string, evidence: string, boardRef: string)

  datatype Config = Config(profile: Profile, digests: Digests) {
    function Key(input: Input): string { digests.key(IdentityOf(profile, input)) }

    /** The pending record of the first delivery of an identity. */
    function Fresh(input: Input): Receipt {
      var i := IdentityOf(profile, input);
      Receipt(i, input.jobId, input.claimId, input.epoch, Key(input),
              digests.evidence(i, input.jobId, input.claimId, input.epoch), false, None)
    }
  }

  /** `first` remembers the evidence digest of the first record of a key. */
  datatype State = State(
    board: seq<string>, files: map<string, Receipt>, locks: map<string, nat>, processes: map<nat, Process>,
    next: nat, first: map<string, string>, answers: seq<Answer>)

  const START := State([], map[], map[], map[], 0, map[], [])

  /**
   * What can happen next. A command or a write that takes effect need not be seen to return, and
   * one that is not seen to return may have taken effect. A look reads pages that show the board,
   * up to the one whose read fails.
   */
  datatype Event =
    | Call(input: Input)
    | LockAnswered(id: nat, granted: bool)
    | RecordRead(id: nat, failed: bool)
    | RecordWritten(id: nat, applied: bool, returned: bool)
    | Looked(id: nat, pages: seq<Page>, bad: nat)
    | Commented(id: nat, applied: bool, returned: bool)
    | Dies(id: nat)
    | Foreign(comment: string)

  function Move(s: State, id: nat, at: Wait): State
    requires id in s.processes
  {
    s.(processes := s.processes[id := s.processes[id].(at := at)])
  }

  /** The process is over and its lock file is closed. */
  function Release(c: Config, s: State, id: nat): State
    requires id in s.processes
  {
    var key := c.Key(s.processes[id].input);
    s.(processes := s.processes - {id},
       locks := if s.processes[id].at.Locking? then s.locks else s.locks - {key})
  }

  function Accept(c: Config, s: State, id: nat, r: Receipt): State
    requires id in s.processes && r.boardRef.Some?
  {
    Release(c, s, id).(answers := s.answers + [Answer(r.dedupKey, r.evidence, r.boardRef.value)])
  }

  ghost function Step(c: Config, s: State, e: Event): State {
    match e
    case Call(input) =>
      if ValidInput(c.profile, input)
      then s.(processes := s.processes[s.next := Process(input, Locking)], next := s.next + 1)
      else s
    case LockAnswered(id, granted) =>
      if !(id in s.processes && s.processes[id].at.Locking?) then s
      else
        var key := c.Key(s.processes[id].input);
        if granted && key !in s.locks then Move(s, id, ReadingRecord).(locks := s.locks[key := id]) else Release(c, s, id)
    case RecordRead(id, failed) =>
      if !(id in s.processes && s.processes[id].at.ReadingRecord?) then s
      else if failed then Release(c, s, id)
      else ReadRecord(c, s, id)
    case RecordWritten(id, applied, returned) =>
      if !(id in s.processes && (s.processes[id].at.CreatingRecord? || s.processes[id].at.Marking?)) then s
      else WriteRecord(c, s, id, applied || returned, returned)
    case Looked(id, pages, bad) =>
      if !(id in s.processes && (s.processes[id].at.Looking? || s.processes[id].at.LookingAgain? || s.processes[id].at.Verifying?)) then s
      else if !Shows(pages, s.board) then s
      else Look(c, s, id, FindIn(pages, Marker(c.Key(s.processes[id].input)), bad))
    case Commented(id, applied, returned) =>
      if !(id in s.processes && s.processes[id].at.Adding?) then s
      else
        var p := s.processes[id];
        var t := if applied then s.(board := s.board + [CommentOf(c.profile, p.input, p.at.record)]) else s;
        Move(t, id, if returned then Verifying(p.at.record) else LookingAgain(p.at.record, p.at.attempt))
    case Dies(id) => if id in s.processes then Release(c, s, id) else s
    case Foreign(comment) => if Contains(comment, MARK) then s else s.(board := s.board + [comment])
  }

  /** `readOrCreateRecord` up to the write, and `deliverRecord` up to the first look at the board. */
  function ReadRecord(c: Config, s: State, id: nat): State
    requires id in s.processes && s.processes[id].at.ReadingRecord?
  {
    var input := s.processes[id].input;
    var key := c.Key(input);
    if key !in s.files then Move(s, id, CreatingRecord(c.Fresh(input)))
    else
      var r := s.files[key];
      if !Accepts(r, IdentityOf(c.profile, input), key) then Release(c, s, id)
      else if r.delivered && r.boardRef.Some? then Accept(c, s, id, r)
      else Move(s, id, Looking(r))
  }

  function WriteRecord(c: Config, s: State, id: nat, applied: bool, returned: bool): State
    requires id in s.processes && (s.processes[id].at.CreatingRecord? || s.processes[id].at.Marking?)
  {
    var p := s.processes[id];
    var key := c.Key(p.input);
    var r := if p.at.CreatingRecord? then p.at.record else p.at.record.(delivered := true, boardRef := Some(BoardRef(key)));
    var t := if applied then s.(files := s.files[key := r], first := if key in s.first then s.first else s.first[key := r.evidence])
             else s;
    if !returned then Release(c, t, id)
    else if p.at.CreatingRecord? then Move(t, id, Looking(r))
    else Accept(c, t, id, r)
  }

  /** `ensureBoardComment` after an answer of `hasMarker`. */
  function Look(c: Config, s: State, id: nat, answer: Search): State
    requires id in s.processes
    requires s.processes[id].at.Looking? || s.processes[id].at.LookingAgain? || s.processes[id].at.Verifying?
  {
    var p := s.processes[id];
    if answer.Failed? then Release(c, s, id)
    else if answer.Found? then Move(s, id, Marking(p.at.record))
    else
      match p.at
      case Looking(r) => Move(s, id, Adding(r, 0))
      case LookingAgain(r, attempt) => if attempt == 1 then Release(c, s, id) else Move(s, id, Adding(r, attempt + 1))
      case _ => Release(c, s, id)
  }

  ghost function Run(c: Config, events: seq<Event>): State {
    if events == [] then START else Step(c, Run(c, events[..|events| - 1]), events[|events| - 1])
  }

  // ---------------------------------------------------------------- what every step keeps

  ghost predicate FileOk(c: Config, key: string, r: Receipt, first: map<string, string>, board: seq<string>) {
    && r.dedupKey == key && c.digests.key(r.identity) == key && Accepts(r, r.identity, key)
    && r.evidence == c.digests.evidence(r.identity, r.firstJobId, r.firstClaimId, r.firstEpoch)
    && key in first && first[key] == r.evidence
    && (r.delivered <==> r.boardRef.Some?) && (r.delivered ==> Marked(board, key) == 1)
    && Approved(c.profile, r.identity)
  }

  ghost predicate Stored(files: map<string, Receipt>, key: string, r: Receipt) {
    key in files && files[key] == r && !r.delivered
  }

  /** A process past the lock holds it; where it stands says what is stored and on the board. */
  ghost predicate ProcessOk(c: Config, id: nat, p: Process, locks: map<string, nat>, files: map<string, Receipt>, board: seq<string>) {
    var key := c.Key(p.input);
    && ValidInput(c.profile, p.input)
    && (!p.at.Locking? ==> key in locks && locks[key] == id)
    && match p.at
       case Locking => true
       case ReadingRecord => true
       case CreatingRecord(r) => key !in files && r == c.Fresh(p.input)
       case Adding(r, attempt) => Stored(files, key, r) && Marked(board, key) == 0 && attempt <= 1
       case LookingAgain(r, attempt) => Stored(files, key, r) && attempt <= 1
       case Marking(r) => Stored(files, key, r) && Marked(board, key) == 1
       case _ => Stored(files, key, p.at.record)
  }

  ghost predicate AnswerOk(a: Answer, first: map<string, string>, board: seq<string>) {
    && IsDigest(a.key) && Marked(board, a.key) == 1 && a.boardRef == BoardRef(a.key)
    && a.key in first && first[a.key] == a.evidence
  }

  ghost predicate Inv(c: Config, s: State) {
    && (forall key :: key in s.files ==> FileOk(c, key, s.files[key], s.first, s.board))
    && (forall key :: key in s.first ==> key in s.files)
    && (forall id :: id in s.processes ==> id < s.next && ProcessOk(c, id, s.processes[id], s.locks, s.files, s.board))
    && (forall key :: IsDigest(key) ==> Marked(s.board, key) <= 1)
    && (forall a :: a in s.answers ==> AnswerOk(a, s.first, s.board))
  }

  function Without(s: State, id: nat): State { s.(processes := s.processes - {id}) }

  /** Nobody is past the lock of `key`. */
  ghost predicate Unused(c: Config, s: State, key: string) {
    forall id :: id in s.processes && c.Key(s.processes[id].input) == key ==> s.processes[id].at.Locking?
  }

  lemma TakeOut(c: Config, s: State, id: nat)
    requires Inv(c, s) && id in s.processes
    ensures Inv(c, Without(s, id))
    ensures !s.processes[id].at.Locking? ==> Unused(c, Without(s, id), c.Key(s.processes[id].input))
  {
    hide FileOk, AnswerOk;
  }

  lemma PutIn(c: Config, s: State, id: nat, p: Process)
    requires Inv(c, Without(s, id)) && id < s.next && ProcessOk(c, id, p, s.locks, s.files, s.board)
    ensures Inv(c, s.(processes := s.processes[id := p]))
  {
    hide FileOk, AnswerOk, ProcessOk;
    var processes := s.processes[id := p];
    forall j | j in processes
      ensures j < s.next && ProcessOk(c, j, processes[j], s.locks, s.files, s.board)
    {
      if j != id { assert j in Without(s, id).processes; }
    }
  }

  lemma Unlock(c: Config, s: State, key: string)
    requires Inv(c, s) && Unused(c, s, key)
    ensures Inv(c, s.(locks := s.locks - {key}))
  {
    hide FileOk, AnswerOk, Stored;
  }

  lemma Lock(c: Config, s: State, key: string, id: nat)
    requires Inv(c, s) && key !in s.locks
    ensures Inv(c, s.(locks := s.locks[key := id]))
  {
    hide FileOk, AnswerOk, Stored;
  }

  lemma AddAnswer(c: Config, s: State, a: Answer)
    requires Inv(c, s) && AnswerOk(a, s.first, s.board)
    ensures Inv(c, s.(answers := s.answers + [a]))
  {
    hide FileOk, AnswerOk, ProcessOk;
  }

  /** A record is written over a pending one with the same evidence, or for the first time. */
  lemma Store(c: Config, s: State, key: string, r: Receipt, first: map<string, string>)
    requires Inv(c, s) && Unused(c, s, key) && FileOk(c, key, r, first, s.board)
    requires first == if key in s.first then s.first else s.first[key := r.evidence]
    ensures Inv(c, s.(files := s.files[key := r], first := first))
  {
    hide Accepts, Stored, Marked;
    var files := s.files[key := r];
    forall id | id in s.processes ensures ProcessOk(c, id, s.processes[id], s.locks, files, s.board) {
      SameFile(c, id, s.processes[id], s.locks, s.files, files, s.board);
    }
    hide ProcessOk;
  }

  lemma SameFile(c: Config, id: nat, p: Process, locks: map<string, nat>, files: map<string, Receipt>,
                 files': map<string, Receipt>, board: seq<string>)
    requires ProcessOk(c, id, p, locks, files, board)
    requires !p.at.Locking? ==>
      var key := c.Key(p.input); (key in files' <==> key in files) && (key in files ==> files'[key] == files[key])
    ensures ProcessOk(c, id, p, locks, files', board)
  {
  }

  lemma SameMarks(c: Config, id: nat, p: Process, locks: map<string, nat>, files: map<string, Receipt>, b: seq<string>, b': seq<string>)
    requires ProcessOk(c, id, p, locks, files, b)
    requires !p.at.Locking? ==> Marked(b', c.Key(p.input)) == Marked(b, c.Key(p.input))
    ensures ProcessOk(c, id, p, locks, files, b')
  {
  }

  /** A comment with the marker of `key` alone, or of no key at all, goes on the board. */
  lemma Post(c: Config, s: State, key: string, text: string)
    requires Sound(c.digests) && Inv(c, s)
    requires forall k :: IsDigest(k) && Contains(text, Marker(k)) ==> k == key && Unused(c, s, key) && Marked(s.board, key) == 0
    ensures Inv(c, s.(board := s.board + [text]))
  {
    hide Accepts, Contains, IsDigest, Stored, Approved;
    var b := s.board + [text];
    forall k ensures Marked(b, k) == Marked(s.board, k) + if Contains(text, Marker(k)) then 1 else 0 {
      MarkedStep(s.board, text, k);
    }
    forall id | id in s.processes ensures ProcessOk(c, id, s.processes[id], s.locks, s.files, b) {
      assert IsDigest(c.Key(s.processes[id].input));
      SameMarks(c, id, s.processes[id], s.locks, s.files, s.board, b);
    }
    forall k | k in s.files ensures FileOk(c, k, s.files[k], s.first, b) {
      assert IsDigest(c.digests.key(s.files[k].identity));
      assert FileOk(c, k, s.files[k], s.first, s.board);
    }
    hide FileOk, ProcessOk;
    assert forall a :: a in s.answers ==> AnswerOk(a, s.first, b);
  }

  // ---------------------------------------------------------------- the steps

  lemma Moves(c: Config, s: State, id: nat, at: Wait)
    requires id in s.processes && id < s.next && Inv(c, Without(s, id))
    requires ProcessOk(c, id, s.processes[id].(at := at), s.locks, s.files, s.board)
    ensures Inv(c, Move(s, id, at))
  {
    hide Inv, ProcessOk;
    PutIn(c, s, id, s.processes[id].(at := at));
  }

  lemma Releases(c: Config, s: State, id: nat)
    requires id in s.processes && Inv(c, Without(s, id))
    requires !s.processes[id].at.Locking? ==> Unused(c, Without(s, id), c.Key(s.processes[id].input))
    ensures Inv(c, Release(c, s, id))
  {
    hide Inv, Unused;
    if !s.processes[id].at.Locking? { Unlock(c, Without(s, id), c.Key(s.processes[id].input)); }
  }

  lemma ProcessMeans(c: Config, s: State, id: nat)
    requires Inv(c, s) && id in s.processes
    ensures id < s.next && ProcessOk(c, id, s.processes[id], s.locks, s.files, s.board)
    ensures Inv(c, Without(s, id))
    ensures !s.processes[id].at.Locking? ==> Unused(c, Without(s, id), c.Key(s.processes[id].input))
  {
    hide FileOk, AnswerOk, ProcessOk;
    TakeOut(c, s, id);
  }

  lemma CallKeeps(c: Config, s: State, input: Input)
    requires Inv(c, s) && ValidInput(c.profile, input)
    ensures Inv(c, s.(processes := s.processes[s.next := Process(input, Locking)], next := s.next + 1))
  {
    hide FileOk, AnswerOk;
    var t := s.(next := s.next + 1);
    assert Without(t, s.next).processes == s.processes;
    assert Inv(c, Without(t, s.next)) by { hide ProcessOk; }
    PutIn(c, t, s.next, Process(input, Locking));
  }

  lemma LockKeeps(c: Config, s: State, id: nat)
    requires Inv(c, s) && id in s.processes && s.processes[id].at.Locking? && c.Key(s.processes[id].input) !in s.locks
    ensures Inv(c, Move(s, id, ReadingRecord).(locks := s.locks[c.Key(s.processes[id].input) := id]))
  {
    hide Inv, Unused;
    ProcessMeans(c, s, id);
    var key := c.Key(s.processes[id].input);
    Lock(c, Without(s, id), key, id);
    var t := s.(locks := s.locks[key := id]);
    Moves(c, t, id, ReadingRecord);
  }

  /** What is stored under a key always passes the identity and receipt checks. */
  lemma StoredIsAccepted(c: Config, s: State, input: Input)
    requires Sound(c.digests) && Inv(c, s) && c.Key(input) in s.files
    ensures Accepts(s.files[c.Key(input)], IdentityOf(c.profile, input), c.Key(input))
    ensures var key, r := c.Key(input), s.files[c.Key(input)];
      && IsDigest(key) && key in s.first && s.first[key] == r.evidence && r.dedupKey == key
      && (r.delivered <==> r.boardRef.Some?) && (r.delivered ==> Marked(s.board, key) == 1)
  {
    var key := c.Key(input);
    assert FileOk(c, key, s.files[key], s.first, s.board);
  }

  lemma ReadKeeps(c: Config, s: State, id: nat)
    requires Sound(c.digests) && Inv(c, s) && id in s.processes && s.processes[id].at.ReadingRecord?
    ensures Inv(c, ReadRecord(c, s, id))
  {
    hide Unused, FileOk, AnswerOk, Sound;
    ProcessMeans(c, s, id);
    var input := s.processes[id].input;
    var key := c.Key(input);
    if key in s.files { StoredIsAccepted(c, s, input); }
    hide Inv;
    if key !in s.files {
      Moves(c, s, id, CreatingRecord(c.Fresh(input)));
    } else if s.files[key].delivered {
      Releases(c, s, id);
      AcceptKeeps(c, Release(c, s, id), s.files[key], key);
    } else {
      Moves(c, s, id, Looking(s.files[key]));
    }
  }

  lemma AcceptKeeps(c: Config, s: State, r: Receipt, key: string)
    requires Inv(c, s) && r.dedupKey == key && r.boardRef == Some(BoardRef(key)) && IsDigest(key)
    requires Marked(s.board, key) == 1 && key in s.first && s.first[key] == r.evidence
    ensures Inv(c, s.(answers := s.answers + [Answer(r.dedupKey, r.evidence, r.boardRef.value)]))
  {
    hide Inv;
    AddAnswer(c, s, Answer(r.dedupKey, r.evidence, r.boardRef.value));
  }

  /** The first record of a key, or the same record marked as delivered. */
  lemma WrittenOk(c: Config, s: State, id: nat)
    requires Sound(c.digests) && Inv(c, s) && id in s.processes
    requires s.processes[id].at.CreatingRecord? || s.processes[id].at.Marking?
    ensures var p := s.processes[id]; var key := c.Key(p.input);
      var r := if p.at.CreatingRecord? then p.at.record else p.at.record.(delivered := true, boardRef := Some(BoardRef(key)));
      var first := if key in s.first then s.first else s.first[key := r.evidence];
      && FileOk(c, key, r, first, s.board) && r.dedupKey == key && IsDigest(key)
      && (p.at.CreatingRecord? ==> !r.delivered) && (p.at.Marking? ==> Marked(s.board, key) == 1)
  {
    var p := s.processes[id];
    assert ProcessOk(c, id, p, s.locks, s.files, s.board);
    if p.at.Marking? { assert FileOk(c, c.Key(p.input), p.at.record, s.first, s.board); }
  }

  lemma WriteKeeps(c: Config, s: State, id: nat, applied: bool, returned: bool)
    requires Sound(c.digests) && Inv(c, s) && id in s.processes && (returned ==> applied)
    requires s.processes[id].at.CreatingRecord? || s.processes[id].at.Marking?
    ensures Inv(c, WriteRecord(c, s, id, applied, returned))
  {
    hide Inv, Unused, AnswerOk, Sound, Accepts;
    ProcessMeans(c, s, id);
    WrittenOk(c, s, id);
    var p := s.processes[id];
    var key := c.Key(p.input);
    var r := if p.at.CreatingRecord? then p.at.record else p.at.record.(delivered := true, boardRef := Some(BoardRef(key)));
    var first := if key in s.first then s.first else s.first[key := r.evidence];
    var t := s;
    if applied {
      Store(c, Without(s, id), key, r, first);
      t := s.(files := s.files[key := r], first := first);
      SameUsers(c, Without(s, id), Without(t, id), key);
    }
    if !returned {
      Releases(c, t, id);
    } else if p.at.CreatingRecord? {
      Moves(c, t, id, Looking(r));
    } else {
      Releases(c, t, id);
      AcceptKeeps(c, Release(c, t, id), r, key);
    }
  }

  lemma SameUsers(c: Config, s: State, t: State, key: string)
    requires Unused(c, s, key) && t.processes == s.processes
    ensures Unused(c, t, key)
  {
  }

  lemma LookKeeps(c: Config, s: State, id: nat, pages: seq<Page>, bad: nat)
    requires Sound(c.digests) && Inv(c, s) && id in s.processes && Shows(pages, s.board)
    requires s.processes[id].at.Looking? || s.processes[id].at.LookingAgain? || s.processes[id].at.Verifying?
    ensures Inv(c, Look(c, s, id, FindIn(pages, Marker(c.Key(s.processes[id].input)), bad)))
  {
    hide Unused, FileOk, AnswerOk, HasMarker, Marked;
    ProcessMeans(c, s, id);
    var key := c.Key(s.processes[id].input);
    HasMarkerCounts(s.board, key);
    SearchSees(pages, s.board, key, bad);
    var answer := FindIn(pages, Marker(key), bad);
    assert Marked(s.board, key) <= 1;
    hide Inv, FindIn, Shows;
    if answer.Failed? {
      Releases(c, s, id);
    } else if answer.Found? {
      Moves(c, s, id, Marking(s.processes[id].at.record));
    } else {
      match s.processes[id].at
      case Looking(r) => Moves(c, s, id, Adding(r, 0));
      case LookingAgain(r, attempt) => if attempt == 1 { Releases(c, s, id); } else { Moves(c, s, id, Adding(r, attempt + 1)); }
      case _ => Releases(c, s, id);
    }
  }

  /** The comment carries the marker of its own key and of no other. */
  lemma CommentMarks(c: Config, s: State, id: nat)
    requires ValidProfile(c.profile) && Sound(c.digests) && Inv(c, s) && id in s.processes && s.processes[id].at.Adding?
    ensures var p := s.processes[id];
      forall k :: IsDigest(k) ==> (Contains(CommentOf(c.profile, p.input, p.at.record), Marker(k)) <==> k == c.Key(p.input))
  {
    hide Contains, Comment;
    var p := s.processes[id];
    var r := p.at.record;
    assert ProcessOk(c, id, p, s.locks, s.files, s.board) && FileOk(c, c.Key(p.input), r, s.first, s.board);
    forall k | IsDigest(k) ensures Contains(CommentOf(c.profile, p.input, r), Marker(k)) <==> k == c.Key(p.input) {
      CommentHasItsMarker(c.profile, r.dedupKey, k, p.input.candidate, p.input.verification, r.firstJobId, r.firstClaimId, r.firstEpoch);
    }
  }

  lemma CommentKeeps(c: Config, s: State, id: nat, applied: bool, at: Wait)
    requires ValidProfile(c.profile) && Sound(c.digests) && Inv(c, s) && id in s.processes && s.processes[id].at.Adding?
    requires at == Verifying(s.processes[id].at.record) || at == LookingAgain(s.processes[id].at.record, s.processes[id].at.attempt)
    ensures var p := s.processes[id];
      var t := if applied then s.(board := s.board + [CommentOf(c.profile, p.input, p.at.record)]) else s;
      Inv(c, Move(t, id, at))
  {
    hide Inv, Unused, Sound, CommentOf, Contains, Marked;
    ProcessMeans(c, s, id);
    CommentMarks(c, s, id);
    var p := s.processes[id];
    var text := CommentOf(c.profile, p.input, p.at.record);
    if applied {
      Post(c, Without(s, id), c.Key(p.input), text);
      Moves(c, s.(board := s.board + [text]), id, at);
    } else {
      Moves(c, s, id, at);
    }
  }

  lemma MarkInMarker(text: string, key: string)
    requires Contains(text, Marker(key))
    ensures Contains(text, MARK)
  {
    var i :| 0 <= i <= |text| - |Marker(key)| && At(text, Marker(key), i);
    assert text[i..i + |MARK|] == text[i..i + |Marker(key)|][..|MARK|] == MARK;
    assert At(text, MARK, i);
  }

  lemma MarkInMarkers(text: string)
    ensures forall key :: Contains(text, Marker(key)) ==> Contains(text, MARK)
  {
    forall key | Contains(text, Marker(key)) ensures Contains(text, MARK) { MarkInMarker(text, key); }
  }

  lemma ForeignKeeps(c: Config, s: State, comment: string)
    requires Sound(c.digests) && Inv(c, s) && !Contains(comment, MARK)
    ensures Inv(c, s.(board := s.board + [comment]))
  {
    hide Inv;
    MarkInMarkers(comment);
    Post(c, s, "", comment);
  }

  lemma StepKeepsInv(c: Config, s: State, e: Event)
    requires ValidProfile(c.profile) && Sound(c.digests) && Inv(c, s)
    ensures Inv(c, Step(c, s, e))
  {
    hide Inv, Sound, ValidProfile, Unused, ProcessOk, ReadRecord, WriteRecord, Look, Release, Move, Contains, Shows, FindIn;
    match e
    case Call(input) => if ValidInput(c.profile, input) { CallKeeps(c, s, input); }
    case Foreign(comment) => if !Contains(comment, MARK) { ForeignKeeps(c, s, comment); }
    case LockAnswered(id, granted) =>
      if id in s.processes && s.processes[id].at.Locking? {
        ProcessMeans(c, s, id);
        if granted && c.Key(s.processes[id].input) !in s.locks { LockKeeps(c, s, id); } else { Releases(c, s, id); }
      }
    case RecordRead(id, failed) =>
      if id in s.processes && s.processes[id].at.ReadingRecord? {
        ProcessMeans(c, s, id);
        if failed { Releases(c, s, id); } else { ReadKeeps(c, s, id); }
      }
    case RecordWritten(id, applied, returned) =>
      if id in s.processes && (s.processes[id].at.CreatingRecord? || s.processes[id].at.Marking?) {
        WriteKeeps(c, s, id, applied || returned, returned);
      }
    case Looked(id, pages, bad) =>
      if id in s.processes && (s.processes[id].at.Looking? || s.processes[id].at.LookingAgain? || s.processes[id].at.Verifying?) {
        if Shows(pages, s.board) { LookKeeps(c, s, id, pages, bad); }
      }
    case Commented(id, applied, returned) =>
      if id in s.processes && s.processes[id].at.Adding? {
        var p := s.processes[id];
        CommentKeeps(c, s, id, applied, if returned then Verifying(p.at.record) else LookingAgain(p.at.record, p.at.attempt));
      }
    case Dies(id) =>
      if id in s.processes {
        ProcessMeans(c, s, id);
        Releases(c, s, id);
      }
  }

  // ---------------------------------------------------------------- main results

  lemma {:induction false} RunKeepsInv(c: Config, events: seq<Event>)
    requires ValidProfile(c.profile) && Sound(c.digests)
    ensures Inv(c, Run(c, events))
  {
    if events != [] {
      hide Inv, Step;
      RunKeepsInv(c, events[..|events| - 1]);
      StepKeepsInv(c, Run(c, events[..|events| - 1]), events[|events| - 1]);
    }
  }

  /**
   * Exactly once per identity: for any calls, jobs and claims, interleaved in any way, with
   * processes that die anywhere and writes and commands that fail before or after taking effect,
   * the board never holds two comments with one marker, an accepted call leaves exactly one, and
   * all accepted calls of an identity answer the evidence digest of its first record.
   */
  lemma DeliveryIsExactlyOnce(c: Config, events: seq<Event>)
    requires ValidProfile(c.profile) && Sound(c.digests)
    ensures var s := Run(c, events);
      && (forall identity :: Marked(s.board, c.digests.key(identity)) <= 1)
      && (forall a :: a in s.answers ==> Marked(s.board, a.key) == 1 && a.boardRef == BoardRef(a.key))
      && (forall a :: a in s.answers ==> a.key in s.first && a.evidence == s.first[a.key])
      && (forall a, b :: a in s.answers && b in s.answers && a.key == b.key ==> a == b)
  {
    RunKeepsInv(c, events);
  }

  /** Only the profile's own advisory, source and evaluator are ever stored, and so answered. */
  lemma OnlyApproved(c: Config, events: seq<Event>)
    requires ValidProfile(c.profile) && Sound(c.digests)
    ensures var s := Run(c, events);
      && (forall key :: key in s.files ==> key == c.digests.key(s.files[key].identity) && Approved(c.profile, s.files[key].identity))
      && (forall a :: a in s.answers ==> a.key in s.files && a.evidence == s.files[a.key].evidence)
  {
    RunKeepsInv(c, events);
    var s := Run(c, events);
    forall key | key in s.files ensures FileOk(c, key, s.files[key], s.first, s.board) {}
    hide Run, Accepts, Approved, Marked, Sound;
  }

  /**
   * Whatever the file holds, also after somebody else has changed it: a call answers from it only if
   * it is a record of the call's own key and identity, well formed and delivered.
   */
  lemma AnyRecordIsChecked(c: Config, s: State, id: nat)
    requires id in s.processes && s.processes[id].at.ReadingRecord?
    ensures var key, t := c.Key(s.processes[id].input), Step(c, s, RecordRead(id, false));
      t.answers != s.answers ==>
        && key in s.files && var r := s.files[key];
           r.dedupKey == key && r.identity == IdentityOf(c.profile, s.processes[id].input)
           && IsDigest(r.evidence) && IsUuid(r.firstJobId) && IsUuid(r.firstClaimId) && r.firstEpoch >= 1 && r.delivered
           && r.boardRef == Some(BoardRef(key)) && t.answers == s.answers + [Answer(key, r.evidence, BoardRef(key))]
  {
    hide IsDigest, IsUuid;
  }

  /** The evidence of a first record is never replaced, and digests the job and claim that wrote it. */
  lemma {:induction false} FirstIsKept(c: Config, events: seq<Event>, more: seq<Event>)
    requires ValidProfile(c.profile) && Sound(c.digests)
    ensures var s, t := Run(c, events), Run(c, events + more);
      && (forall key :: key in s.first ==> key in t.first && t.first[key] == s.first[key])
      && (forall key :: key in t.first ==> key in t.files && var r := t.files[key];
          t.first[key] == c.digests.evidence(r.identity, r.firstJobId, r.firstClaimId, r.firstEpoch))
  {
    RunKeepsInv(c, events + more);
    FirstGrows(c, events, more);
    var t := Run(c, events + more);
    forall key | key in t.first ensures FileOk(c, key, t.files[key], t.first, t.board) {}
  }

  lemma {:induction false} FirstGrows(c: Config, events: seq<Event>, more: seq<Event>)
    ensures var s, t := Run(c, events), Run(c, events + more);
      forall key :: key in s.first ==> key in t.first && t.first[key] == s.first[key]
  {
    if more == [] {
      assert events + more == events;
    } else {
      var n := |more| - 1;
      assert (events + more)[..|events + more| - 1] == events + more[..n];
      FirstGrows(c, events, more[..n]);
      StepKeepsFirst(c, Run(c, events + more[..n]), more[n]);
    }
  }

  lemma StepKeepsFirst(c: Config, s: State, e: Event)
    ensures forall key :: key in s.first ==> key in Step(c, s, e).first && Step(c, s, e).first[key] == s.first[key]
  {
  }

  // ---------------------------------------------------------------- what is answered, and when

  /** A process that waits for the read of a delivered record. */
  ghost predicate ReadsDelivered(c: Config, s: State, id: nat) {
    && id in s.processes && s.processes[id].at.ReadingRecord?
    && c.Key(s.processes[id].input) in s.files && s.files[c.Key(s.processes[id].input)].delivered
  }

  ghost predicate Marks(s: State, id: nat) { id in s.processes && s.processes[id].at.Marking? }

  /** The state without the process and its lock, with the answer for its key. */
  ghost function Answered(c: Config, s: State, id: nat): State
    requires id in s.processes && c.Key(s.processes[id].input) in s.first
  {
    var key := c.Key(s.processes[id].input);
    s.(processes := s.processes - {id}, locks := s.locks - {key},
       answers := s.answers + [Answer(key, s.first[key], BoardRef(key))])
  }

  /**
   * A call for an identity whose record is delivered is accepted with what was stored: the evidence
   * of the first record and the board reference. Nothing else changes.
   */
  lemma DeliveredIsAnswered(c: Config, events: seq<Event>, id: nat)
    requires ValidProfile(c.profile) && Sound(c.digests) && ReadsDelivered(c, Run(c, events), id)
    ensures var s := Run(c, events);
      c.Key(s.processes[id].input) in s.first && Run(c, events + [RecordRead(id, false)]) == Answered(c, s, id)
  {
    RunKeepsInv(c, events);
    RunStep(c, events, RecordRead(id, false));
    var s := Run(c, events);
    StoredIsAccepted(c, s, s.processes[id].input);
    DeliveredRef(c, s, c.Key(s.processes[id].input));
    hide Run, Inv, Sound, Accepts;
  }

  lemma DeliveredRef(c: Config, s: State, key: string)
    requires Inv(c, s) && key in s.files && s.files[key].delivered
    ensures s.files[key].boardRef == Some(BoardRef(key))
  {
    assert FileOk(c, key, s.files[key], s.first, s.board);
  }

  /** The record of a marking process, as it is stored and then marked. */
  lemma MarkingMeans(c: Config, s: State, id: nat)
    requires Sound(c.digests) && Inv(c, s) && Marks(s, id)
    ensures var key := c.Key(s.processes[id].input);
      && key in s.first && key in s.files && !s.files[key].delivered && s.files[key] == s.processes[id].at.record
      && s.files[key].dedupKey == key && s.files[key].evidence == s.first[key]
  {
    assert ProcessOk(c, id, s.processes[id], s.locks, s.files, s.board);
    StoredIsAccepted(c, s, s.processes[id].input);
  }

  /** Once the comment was seen and the record is marked, the call is accepted; the record is delivered. */
  lemma MarkedIsAnswered(c: Config, events: seq<Event>, id: nat)
    requires ValidProfile(c.profile) && Sound(c.digests) && Marks(Run(c, events), id)
    ensures var s := Run(c, events); var key := c.Key(s.processes[id].input);
      && key in s.first && key in s.files && !s.files[key].delivered
      && Run(c, events + [RecordWritten(id, true, true)]) ==
           Answered(c, s, id).(files := s.files[key := s.files[key].(delivered := true, boardRef := Some(BoardRef(key)))])
  {
    var s := Run(c, events);
    RunKeepsInv(c, events);
    MarkingMeans(c, s, id);
    RunStep(c, events, RecordWritten(id, true, true));
    hide Run, Inv, Sound;
    assert Step(c, s, RecordWritten(id, true, true)) == WriteRecord(c, s, id, true, true);
  }

  /** These two are the only steps that answer a call. */
  lemma AnsweredExactly(c: Config, events: seq<Event>, e: Event)
    requires ValidProfile(c.profile) && Sound(c.digests)
    ensures var s, t := Run(c, events), Run(c, events + [e]);
      t.answers != s.answers <==>
        || (e.RecordRead? && !e.failed && ReadsDelivered(c, s, e.id))
        || (e.RecordWritten? && e.returned && Marks(s, e.id))
  {
    RunKeepsInv(c, events);
    RunStep(c, events, e);
    var s := Run(c, events);
    hide Run, Inv, Sound, Shows, FindIn, Contains, ValidInput, ReadRecord, WriteRecord, Look, ReadsDelivered, Marks;
    match e
    case RecordRead(id, failed) =>
      if id in s.processes && s.processes[id].at.ReadingRecord? { ReadAnswers(c, s, id); } else { NotAnswering(c, s, id); }
    case RecordWritten(id, applied, returned) =>
      if id in s.processes && (s.processes[id].at.CreatingRecord? || s.processes[id].at.Marking?) {
        WriteAnswers(c, s, id, applied || returned, returned);
      } else {
        NotAnswering(c, s, id);
      }
    case Looked(id, pages, bad) =>
      if id in s.processes && (s.processes[id].at.Looking? || s.processes[id].at.LookingAgain? || s.processes[id].at.Verifying?) {
        LookAnswers(c, s, id, FindIn(pages, Marker(c.Key(s.processes[id].input)), bad));
      }
    case _ =>
  }

  lemma NotAnswering(c: Config, s: State, id: nat)
    ensures !(id in s.processes && s.processes[id].at.ReadingRecord?) ==> !ReadsDelivered(c, s, id)
    ensures !(id in s.processes && s.processes[id].at.Marking?) ==> !Marks(s, id)
  {
  }

  lemma ReadAnswers(c: Config, s: State, id: nat)
    requires Sound(c.digests) && Inv(c, s) && id in s.processes && s.processes[id].at.ReadingRecord?
    ensures ReadRecord(c, s, id).answers != s.answers <==> ReadsDelivered(c, s, id)
  {
    if c.Key(s.processes[id].input) in s.files { StoredIsAccepted(c, s, s.processes[id].input); }
    hide Inv, Sound, Accepts;
  }

  lemma WriteAnswers(c: Config, s: State, id: nat, applied: bool, returned: bool)
    requires id in s.processes && (s.processes[id].at.CreatingRecord? || s.processes[id].at.Marking?)
    ensures WriteRecord(c, s, id, applied, returned).answers != s.answers <==> returned && Marks(s, id)
  {
  }

  lemma LookAnswers(c: Config, s: State, id: nat, answer: Search)
    requires id in s.processes
    requires s.processes[id].at.Looking? || s.processes[id].at.LookingAgain? || s.processes[id].at.Verifying?
    ensures Look(c, s, id, answer).answers == s.answers
  {
  }

  /** A step whose await failed, or found the lock taken, or no marker after the last command. */
  ghost predicate GivesUp(c: Config, s: State, e: Event) {
    match e
    case LockAnswered(id, granted) =>
      id in s.processes && s.processes[id].at.Locking? && (!granted || c.Key(s.processes[id].input) in s.locks)
    case RecordRead(id, failed) => id in s.processes && s.processes[id].at.ReadingRecord? && failed
    case RecordWritten(id, applied, returned) =>
      id in s.processes && (s.processes[id].at.CreatingRecord? || s.processes[id].at.Marking?) && !applied && !returned
    case Looked(id, pages, bad) =>
      && id in s.processes && Shows(pages, s.board)
      && var p, r := s.processes[id], FindIn(pages, Marker(c.Key(s.processes[id].input)), bad);
        || ((p.at.Looking? || p.at.LookingAgain? || p.at.Verifying?) && r.Failed?)
        || (p.at.Verifying? && r.Absent?) || (p.at.LookingAgain? && p.at.attempt == 1 && r.Absent?)
    case Dies(id) => id in s.processes
    case _ => false
  }

  lemma GivesUpReleases(c: Config, s: State, e: Event)
    requires GivesUp(c, s, e)
    ensures Step(c, s, e) == Release(c, s, e.id)
  {
    hide Shows, FindIn, Release, Contains;
  }

  /** A call that fails or dies leaves the board, the records and the answers alone and frees its lock. */
  lemma GivingUpLeavesNoTrace(c: Config, events: seq<Event>, e: Event)
    requires ValidProfile(c.profile) && Sound(c.digests) && GivesUp(c, Run(c, events), e)
    ensures var s, t := Run(c, events), Run(c, events + [e]);
      && t == s.(processes := s.processes - {e.id}, locks := t.locks)
      && (forall key :: key in t.locks <==> key in s.locks && s.locks[key] != e.id)
      && (forall key :: key in t.locks ==> t.locks[key] == s.locks[key])
  {
    RunKeepsInv(c, events);
    RunKeepsLocks(c, events);
    RunStep(c, events, e);
    var s := Run(c, events);
    GivesUpReleases(c, s, e);
    ReleaseFrees(c, s, e.id);
  }

  lemma ReleaseFrees(c: Config, s: State, id: nat)
    requires Inv(c, s) && LocksHeld(c, s) && id in s.processes
    ensures var t := Release(c, s, id);
      && t == s.(processes := s.processes - {id}, locks := t.locks) && LocksHeld(c, t)
      && (forall key :: key in t.locks <==> key in s.locks && s.locks[key] != id)
      && (forall key :: key in t.locks ==> t.locks[key] == s.locks[key])
  {
    assert ProcessOk(c, id, s.processes[id], s.locks, s.files, s.board);
    hide Inv, Stored, ValidInput;
  }

  /** A lock is held by a live process of its key, past the lock. */
  ghost predicate LocksHeld(c: Config, s: State) {
    forall key :: key in s.locks ==>
      s.locks[key] in s.processes && var p := s.processes[s.locks[key]]; !p.at.Locking? && c.Key(p.input) == key
  }

  lemma MoveHolds(c: Config, s: State, id: nat, at: Wait)
    requires LocksHeld(c, s) && id in s.processes && !at.Locking?
    ensures LocksHeld(c, Move(s, id, at))
  {
  }

  lemma SameHolds(c: Config, s: State, t: State)
    requires LocksHeld(c, s) && t.locks == s.locks && t.processes == s.processes
    ensures LocksHeld(c, t)
  {
  }

  lemma ReleaseHolds(c: Config, s: State, t: State, id: nat)
    requires Inv(c, s) && LocksHeld(c, s) && id in s.processes && t.locks == s.locks && t.processes == s.processes
    ensures LocksHeld(c, Release(c, t, id))
  {
    ReleaseFrees(c, s, id);
    SameHolds(c, Release(c, s, id), Release(c, t, id));
  }

  lemma WriteHolds(c: Config, s: State, id: nat, applied: bool, returned: bool)
    requires Inv(c, s) && LocksHeld(c, s) && id in s.processes
    requires s.processes[id].at.CreatingRecord? || s.processes[id].at.Marking?
    ensures LocksHeld(c, WriteRecord(c, s, id, applied, returned))
  {
    hide Inv, LocksHeld, Release, Move;
    var p := s.processes[id];
    var key := c.Key(p.input);
    var r := if p.at.CreatingRecord? then p.at.record else p.at.record.(delivered := true, boardRef := Some(BoardRef(key)));
    var t := if applied then s.(files := s.files[key := r], first := if key in s.first then s.first else s.first[key := r.evidence])
             else s;
    SameHolds(c, s, t);
    ReleaseHolds(c, s, t, id);
    if returned && p.at.CreatingRecord? {
      MoveHolds(c, t, id, Looking(r));
    } else if returned {
      SameHolds(c, Release(c, t, id), Accept(c, t, id, r));
    }
  }

  lemma ReadHolds(c: Config, s: State, id: nat)
    requires Inv(c, s) && LocksHeld(c, s) && id in s.processes && s.processes[id].at.ReadingRecord?
    ensures LocksHeld(c, ReadRecord(c, s, id))
  {
    hide Inv, LocksHeld, Release, Move, Accepts;
    var key := c.Key(s.processes[id].input);
    ReleaseHolds(c, s, s, id);
    if key !in s.files {
      MoveHolds(c, s, id, CreatingRecord(c.Fresh(s.processes[id].input)));
    } else if s.files[key].delivered && s.files[key].boardRef.Some? {
      SameHolds(c, Release(c, s, id), Accept(c, s, id, s.files[key]));
    } else {
      MoveHolds(c, s, id, Looking(s.files[key]));
    }
  }

  lemma LookHolds(c: Config, s: State, id: nat, answer: Search)
    requires Inv(c, s) && LocksHeld(c, s) && id in s.processes
    requires s.processes[id].at.Looking? || s.processes[id].at.LookingAgain? || s.processes[id].at.Verifying?
    ensures LocksHeld(c, Look(c, s, id, answer))
  {
    hide Inv, LocksHeld, Release, Move;
    ReleaseHolds(c, s, s, id);
    var p := s.processes[id];
    forall at: Wait | !at.Locking? ensures LocksHeld(c, Move(s, id, at)) { MoveHolds(c, s, id, at); }
  }

  lemma LockHolds(c: Config, s: State, id: nat)
    requires LocksHeld(c, s) && id in s.processes && s.processes[id].at.Locking?
    ensures LocksHeld(c, Move(s, id, ReadingRecord).(locks := s.locks[c.Key(s.processes[id].input) := id]))
  {
  }

  lemma CallHolds(c: Config, s: State, input: Input)
    requires Inv(c, s) && LocksHeld(c, s)
    ensures LocksHeld(c, s.(processes := s.processes[s.next := Process(input, Locking)], next := s.next + 1))
  {
    hide FileOk, ProcessOk, AnswerOk;
  }

  lemma StepKeepsLocks(c: Config, s: State, e: Event)
    requires Inv(c, s) && LocksHeld(c, s)
    ensures LocksHeld(c, Step(c, s, e))
  {
    hide Inv, LocksHeld, ReadRecord, WriteRecord, Look, Release, Move, Contains, Shows, FindIn, ValidInput;
    match e
    case Call(input) => if ValidInput(c.profile, input) { CallHolds(c, s, input); }
    case Foreign(comment) => SameHolds(c, s, s.(board := s.board + [comment]));
    case LockAnswered(id, granted) =>
      if id in s.processes && s.processes[id].at.Locking? {
        ReleaseHolds(c, s, s, id);
        LockHolds(c, s, id);
      }
    case RecordRead(id, failed) =>
      if id in s.processes && s.processes[id].at.ReadingRecord? {
        ReleaseHolds(c, s, s, id);
        ReadHolds(c, s, id);
      }
    case RecordWritten(id, applied, returned) =>
      if id in s.processes && (s.processes[id].at.CreatingRecord? || s.processes[id].at.Marking?) {
        WriteHolds(c, s, id, applied || returned, returned);
      }
    case Looked(id, pages, bad) =>
      if id in s.processes && (s.processes[id].at.Looking? || s.processes[id].at.LookingAgain? || s.processes[id].at.Verifying?) {
        LookHolds(c, s, id, FindIn(pages, Marker(c.Key(s.processes[id].input)), bad));
      }
    case Commented(id, applied, returned) =>
      if id in s.processes && s.processes[id].at.Adding? {
        var p := s.processes[id];
        var t := if applied then s.(board := s.board + [CommentOf(c.profile, p.input, p.at.record)]) else s;
        SameHolds(c, s, t);
        MoveHolds(c, t, id, if returned then Verifying(p.at.record) else LookingAgain(p.at.record, p.at.attempt));
      }
    case Dies(id) => if id in s.processes { ReleaseHolds(c, s, s, id); }
  }

  /** No lock outlives its process, and no two processes are past the lock of one key. */
  lemma {:induction false} RunKeepsLocks(c: Config, events: seq<Event>)
    requires ValidProfile(c.profile) && Sound(c.digests)
    ensures var s := Run(c, events);
      && LocksHeld(c, s)
      && (forall i, j :: i in s.processes && j in s.processes && i != j && !s.processes[i].at.Locking? && !s.processes[j].at.Locking?
            ==> c.Key(s.processes[i].input) != c.Key(s.processes[j].input))
  {
    RunKeepsInv(c, events);
    if events != [] {
      var s := Run(c, events[..|events| - 1]);
      RunKeepsInv(c, events[..|events| - 1]);
      RunKeepsLocks(c, events[..|events| - 1]);
      StepKeepsLocks(c, s, events[|events| - 1]);
    }
    var s := Run(c, events);
    forall i | i in s.processes ensures ProcessOk(c, i, s.processes[i], s.locks, s.files, s.board) {}
    hide Inv, Step, Run, LocksHeld, Stored, ValidInput;
  }

  // ---------------------------------------------------------------- a delivery in which nothing fails

  /** The record that a delivery of `input` works with: the stored one, or a fresh one. */
  ghost function RecordOf(c: Config, s: State, input: Input): Receipt {
    if c.Key(input) in s.files then s.files[c.Key(input)] else c.Fresh(input)
  }

  ghost function After(c: Config, s: State, events: seq<Event>): State {
    if events == [] then s else Step(c, After(c, s, events[..|events| - 1]), events[|events| - 1])
  }

  lemma {:induction false} RunThenAfter(c: Config, events: seq<Event>, more: seq<Event>)
    ensures Run(c, events + more) == After(c, Run(c, events), more)
  {
    if more == [] {
      assert events + more == events;
    } else {
      var n := |more| - 1;
      assert events + more == (events + more[..n]) + [more[n]];
      RunStep(c, events + more[..n], more[n]);
      RunThenAfter(c, events, more[..n]);
    }
  }

  lemma AfterOne(c: Config, s: State, e: Event)
    ensures After(c, s, [e]) == Step(c, s, e)
  {
    assert [e][..0] == [];
    assert After(c, s, []) == s;
  }

  lemma {:induction false} AfterThen(c: Config, s: State, a: seq<Event>, b: seq<Event>)
    ensures After(c, s, a + b) == After(c, After(c, s, a), b)
  {
    if b == [] {
      assert a + b == a;
    } else {
      var n := |b| - 1;
      assert (a + b)[..|a + b| - 1] == a + b[..n];
      AfterThen(c, s, a, b[..n]);
    }
  }

  lemma AfterTwo(c: Config, s: State, e: Event, f: Event)
    ensures After(c, s, [e, f]) == Step(c, Step(c, s, e), f)
  {
    assert [e, f] == [e] + [f];
    AfterThen(c, s, [e], [f]);
    AfterOne(c, s, e);
    AfterOne(c, After(c, s, [e]), f);
  }

  /** The call, the lock, and the record that is read or written. */
  function Opening(input: Input, id: nat, stored: bool): (events: seq<Event>) {
    [Call(input), LockAnswered(id, true)] + [RecordRead(id, false)] + if stored then [] else [RecordWritten(id, true, true)]
  }

  /** The look at the board and, if the marker is not there, the comment and the look that verifies it. */
  function Posting(id: nat, now: seq<Page>, later: seq<Page>, found: bool): (events: seq<Event>) {
    [Looked(id, now, |now|)] + if found then [] else [Commented(id, true, true), Looked(id, later, |later|)]
  }

  /** The state in which `id` holds the lock of its key and waits at `at`. */
  ghost function Holding(c: Config, s: State, input: Input, at: Wait): State {
    s.(processes := s.processes[s.next := Process(input, at)], next := s.next + 1, locks := s.locks[c.Key(input) := s.next])
  }

  lemma OpensToRead(c: Config, s: State, input: Input)
    requires ValidInput(c.profile, input) && c.Key(input) !in s.locks
    ensures After(c, s, [Call(input), LockAnswered(s.next, true)]) == Holding(c, s, input, ReadingRecord)
  {
    AfterTwo(c, s, Call(input), LockAnswered(s.next, true));
    hide ValidInput;
    var processes := s.processes[s.next := Process(input, Locking)];
    assert processes[s.next := Process(input, ReadingRecord)] == s.processes[s.next := Process(input, ReadingRecord)];
  }

  /** What is stored once the delivery has its record. */
  ghost function WithRecord(c: Config, s: State, input: Input): State {
    var key, r := c.Key(input), RecordOf(c, s, input);
    s.(files := s.files[key := r], first := if key in s.first then s.first else s.first[key := r.evidence])
  }

  lemma ReadsPending(c: Config, s: State, id: nat)
    requires id in s.processes && s.processes[id].at.ReadingRecord?
    requires var key := c.Key(s.processes[id].input);
      key in s.files && !s.files[key].delivered && Accepts(s.files[key], IdentityOf(c.profile, s.processes[id].input), key)
    ensures Step(c, s, RecordRead(id, false)) == Move(s, id, Looking(s.files[c.Key(s.processes[id].input)]))
  {
  }

  lemma StoredStep(c: Config, s: State, input: Input)
    requires Sound(c.digests) && Inv(c, s) && c.Key(input) in s.files && !s.files[c.Key(input)].delivered
    ensures Step(c, Holding(c, s, input, ReadingRecord), RecordRead(s.next, false)) ==
      Holding(c, WithRecord(c, s, input), input, Looking(RecordOf(c, s, input)))
  {
    var key := c.Key(input);
    var reading := Holding(c, s, input, ReadingRecord);
    hide Inv, Sound, Accepts, Step, Move, BoardRef;
    StoredIsAccepted(c, s, input);
    ReadsPending(c, reading, s.next);
    assert s.files[key := s.files[key]] == s.files;
    MovesOn(reading, Holding(c, s, input, Looking(s.files[key])), s.next);
  }

  lemma OpensStored(c: Config, s: State, input: Input)
    requires Sound(c.digests) && Inv(c, s) && ValidInput(c.profile, input) && c.Key(input) !in s.locks
    requires c.Key(input) in s.files && !s.files[c.Key(input)].delivered
    ensures After(c, s, Opening(input, s.next, true)) == Holding(c, WithRecord(c, s, input), input, Looking(RecordOf(c, s, input)))
  {
    var head, read := [Call(input), LockAnswered(s.next, true)], [RecordRead(s.next, false)];
    OpensToRead(c, s, input);
    StoredStep(c, s, input);
    hide Inv, Sound, ValidInput, After, Step, Holding, WithRecord, RecordOf;
    AfterThen(c, s, head, read);
    AfterOne(c, Holding(c, s, input, ReadingRecord), read[0]);
    assert head + read + [] == head + read;
  }

  lemma FreshStep(c: Config, s: State, input: Input)
    requires c.Key(input) !in s.files
    ensures Step(c, Holding(c, s, input, ReadingRecord), RecordRead(s.next, false)) ==
      Holding(c, s, input, CreatingRecord(c.Fresh(input)))
  {
    hide BoardRef, IsDigest;
    MovesOn(Holding(c, s, input, ReadingRecord), Holding(c, s, input, CreatingRecord(c.Fresh(input))), s.next);
  }

  lemma CreatedStep(c: Config, s: State, input: Input)
    requires c.Key(input) !in s.files
    ensures Step(c, Holding(c, s, input, CreatingRecord(c.Fresh(input))), RecordWritten(s.next, true, true)) ==
      Holding(c, WithRecord(c, s, input), input, Looking(RecordOf(c, s, input)))
  {
    hide BoardRef, IsDigest;
    MovesOn(Holding(c, WithRecord(c, s, input), input, CreatingRecord(c.Fresh(input))),
            Holding(c, WithRecord(c, s, input), input, Looking(c.Fresh(input))), s.next);
  }

  lemma OpensFresh(c: Config, s: State, input: Input)
    requires ValidInput(c.profile, input) && c.Key(input) !in s.locks && c.Key(input) !in s.files
    ensures After(c, s, Opening(input, s.next, false)) == Holding(c, WithRecord(c, s, input), input, Looking(RecordOf(c, s, input)))
  {
    var id := s.next;
    var head, read, write := [Call(input), LockAnswered(id, true)], [RecordRead(id, false)], [RecordWritten(id, true, true)];
    hide ValidInput, After, Step, Holding, WithRecord, RecordOf;
    OpensToRead(c, s, input);
    FreshStep(c, s, input);
    CreatedStep(c, s, input);
    AfterThen(c, s, head, read);
    AfterOne(c, Holding(c, s, input, ReadingRecord), read[0]);
    AfterThen(c, s, head + read, write);
    AfterOne(c, Holding(c, s, input, CreatingRecord(c.Fresh(input))), write[0]);
  }

  lemma Opens(c: Config, s: State, input: Input)
    requires Sound(c.digests) && Inv(c, s) && ValidInput(c.profile, input) && c.Key(input) !in s.locks
    requires !RecordOf(c, s, input).delivered
    ensures After(c, s, Opening(input, s.next, c.Key(input) in s.files)) ==
      Holding(c, WithRecord(c, s, input), input, Looking(RecordOf(c, s, input)))
  {
    assert c.Key(input) in s.files ==> !s.files[c.Key(input)].delivered;
    hide *;
    if c.Key(input) in s.files { OpensStored(c, s, input); } else { OpensFresh(c, s, input); }
  }

  lemma MovesOn(s: State, t: State, id: nat)
    requires id in s.processes && id in t.processes && s == t.(processes := s.processes)
    requires s.processes - {id} == t.processes - {id} && s.processes[id].input == t.processes[id].input
    ensures Move(s, id, t.processes[id].at) == t
  {
    var moved := s.processes[id := s.processes[id].(at := t.processes[id].at)];
    forall j ensures j in moved <==> j in t.processes {
      assert j in (s.processes - {id}) <==> j in (t.processes - {id});
    }
    forall j | j in moved && j != id ensures moved[j] == t.processes[j] {
      assert j in s.processes - {id} && (s.processes - {id})[j] == (t.processes - {id})[j];
    }
    assert moved == t.processes;
  }

  /** The board once the comment of the identity is on it. */
  ghost function WithComment(c: Config, s: State, input: Input): State {
    if HasMarker(s.board, c.Key(input)) then s
    else s.(board := s.board + [CommentOf(c.profile, input, RecordOf(c, s, input))])
  }

  /** The marker is seen at once. */
  lemma SeesMarker(c: Config, s: State, input: Input, r: Receipt, now: seq<Page>)
    requires Shows(now, s.board) && |now| <= 10 && HasMarker(s.board, c.Key(input))
    ensures After(c, Holding(c, s, input, Looking(r)), [Looked(s.next, now, |now|)]) == Holding(c, s, input, Marking(r))
  {
    var looking := Holding(c, s, input, Looking(r));
    SearchSees(now, s.board, c.Key(input), |now|);
    hide HasMarker, Shows, FindIn, After;
    AfterOne(c, looking, Looked(s.next, now, |now|));
    MovesOn(looking, Holding(c, s, input, Marking(r)), s.next);
  }

  /** It is not there. */
  lemma MissesMarker(c: Config, s: State, input: Input, r: Receipt, now: seq<Page>)
    requires Shows(now, s.board) && |now| <= 10 && !HasMarker(s.board, c.Key(input))
    ensures Step(c, Holding(c, s, input, Looking(r)), Looked(s.next, now, |now|)) == Holding(c, s, input, Adding(r, 0))
  {
    SearchSees(now, s.board, c.Key(input), |now|);
    hide HasMarker, Shows, FindIn;
    MovesOn(Holding(c, s, input, Looking(r)), Holding(c, s, input, Adding(r, 0)), s.next);
  }

  lemma AddsComment(c: Config, s: State, input: Input, r: Receipt)
    ensures Step(c, Holding(c, s, input, Adding(r, 0)), Commented(s.next, true, true)) ==
      Holding(c, s.(board := s.board + [CommentOf(c.profile, input, r)]), input, Verifying(r))
  {
    hide CommentOf;
    var t := s.(board := s.board + [CommentOf(c.profile, input, r)]);
    MovesOn(Holding(c, t, input, Adding(r, 0)), Holding(c, t, input, Verifying(r)), s.next);
  }

  lemma VerifiesComment(c: Config, s: State, input: Input, r: Receipt, later: seq<Page>)
    requires Shows(later, s.board) && |later| <= 10 && HasMarker(s.board, c.Key(input))
    ensures Step(c, Holding(c, s, input, Verifying(r)), Looked(s.next, later, |later|)) == Holding(c, s, input, Marking(r))
  {
    SearchSees(later, s.board, c.Key(input), |later|);
    hide HasMarker, Shows, FindIn;
    MovesOn(Holding(c, s, input, Verifying(r)), Holding(c, s, input, Marking(r)), s.next);
  }

  /** It is not there; the comment is added and then seen. */
  lemma PostsComment(c: Config, s: State, input: Input, r: Receipt, now: seq<Page>, later: seq<Page>)
    requires Shows(now, s.board) && |now| <= 10 && !HasMarker(s.board, c.Key(input))
    requires var board := s.board + [CommentOf(c.profile, input, r)];
      Shows(later, board) && |later| <= 10 && HasMarker(board, c.Key(input))
    ensures After(c, Holding(c, s, input, Looking(r)), Posting(s.next, now, later, false)) ==
      Holding(c, s.(board := s.board + [CommentOf(c.profile, input, r)]), input, Marking(r))
  {
    hide HasMarker, Shows, FindIn, After, CommentOf, Step, Holding;
    var t := s.(board := s.board + [CommentOf(c.profile, input, r)]);
    MissesMarker(c, s, input, r, now);
    AddsComment(c, s, input, r);
    VerifiesComment(c, t, input, r, later);
    var look, add, verify := Looked(s.next, now, |now|), Commented(s.next, true, true), Looked(s.next, later, |later|);
    AfterThen(c, Holding(c, s, input, Looking(r)), [look], [add, verify]);
    AfterOne(c, Holding(c, s, input, Looking(r)), look);
    AfterTwo(c, Holding(c, s, input, Adding(r, 0)), add, verify);
  }

  /** The record is marked as delivered and the call is answered; its lock and its process are gone. */
  lemma MarksAndAnswers(c: Config, s: State, input: Input, r: Receipt)
    requires s.next !in s.processes && c.Key(input) !in s.locks && r.dedupKey == c.Key(input) && c.Key(input) in s.first
    ensures After(c, Holding(c, s, input, Marking(r)), [RecordWritten(s.next, true, true)]) ==
      s.(next := s.next + 1,
         files := s.files[c.Key(input) := r.(delivered := true, boardRef := Some(BoardRef(c.Key(input))))],
         answers := s.answers + [Answer(c.Key(input), r.evidence, BoardRef(c.Key(input)))])
  {
    var marking := Holding(c, s, input, Marking(r));
    hide After;
    AfterOne(c, marking, RecordWritten(s.next, true, true));
    assert marking.processes - {s.next} == s.processes;
    assert marking.locks - {c.Key(input)} == s.locks;
  }

  /** What happens to a delivery when nothing fails: `now` and `later` are the pages that its looks read. */
  ghost function Smoothly(c: Config, s: State, input: Input, now: seq<Page>, later: seq<Page>): seq<Event> {
    var key := c.Key(input);
    if RecordOf(c, s, input).delivered then [Call(input), LockAnswered(s.next, true)] + [RecordRead(s.next, false)]
    else
      Opening(input, s.next, key in s.files) + Posting(s.next, now, later, HasMarker(s.board, key))
      + [RecordWritten(s.next, true, true)]
  }

  /** What such a delivery leaves: one answer, a delivered record and the comment. */
  ghost function Delivered(c: Config, s: State, input: Input): State {
    var key, r := c.Key(input), RecordOf(c, s, input);
    var ref := Some(BoardRef(key));
    WithComment(c, s, input).(
      next := s.next + 1,
      files := s.files[key := r.(delivered := true, boardRef := ref)],
      first := if key in s.first then s.first else s.first[key := r.evidence],
      answers := s.answers + [Answer(key, r.evidence, ref.value)])
  }

  /** The state before the record is marked, without the process. */
  ghost function Posted(c: Config, s: State, input: Input): State {
    WithRecord(c, s, input).(board := WithComment(c, s, input).board)
  }

  lemma PostsOrSees(c: Config, s: State, input: Input, now: seq<Page>, later: seq<Page>)
    requires Shows(now, s.board) && |now| <= 10 && Shows(later, WithComment(c, s, input).board) && |later| <= 10
    requires HasMarker(WithComment(c, s, input).board, c.Key(input))
    ensures After(c, Holding(c, WithRecord(c, s, input), input, Looking(RecordOf(c, s, input))),
                  Posting(s.next, now, later, HasMarker(s.board, c.Key(input)))) ==
      Holding(c, Posted(c, s, input), input, Marking(RecordOf(c, s, input)))
  {
    hide Shows, HasMarker, CommentOf, After, Step, Holding;
    var t, r := WithRecord(c, s, input), RecordOf(c, s, input);
    if HasMarker(s.board, c.Key(input)) {
      SeesMarker(c, t, input, r, now);
      assert Posting(s.next, now, later, true) == [Looked(s.next, now, |now|)];
      assert Posted(c, s, input) == t;
    } else {
      PostsComment(c, t, input, r, now, later);
      assert Posted(c, s, input) == t.(board := t.board + [CommentOf(c.profile, input, r)]);
    }
  }

  /** A delivery that finds its record pending or missing. */
  lemma SmoothPending(c: Config, s: State, input: Input, now: seq<Page>, later: seq<Page>)
    requires ValidProfile(c.profile) && Sound(c.digests) && Inv(c, s) && ValidInput(c.profile, input) && c.Key(input) !in s.locks
    requires !RecordOf(c, s, input).delivered
    requires Shows(now, s.board) && |now| <= 10 && Shows(later, WithComment(c, s, input).board) && |later| <= 10
    ensures After(c, s, Smoothly(c, s, input, now, later)) == Delivered(c, s, input)
  {
    RecordIsOfKey(c, s, input);
    CommentIsSeen(c, s, input);
    PostedMeans(c, s, input);
    var r := RecordOf(c, s, input);
    hide *;
    Opens(c, s, input);
    PostsOrSees(c, s, input, now, later);
    MarksAndAnswers(c, Posted(c, s, input), input, r);
    SmoothSteps(c, s, input, now, later);
  }

  lemma SmoothSteps(c: Config, s: State, input: Input, now: seq<Page>, later: seq<Page>)
    requires !RecordOf(c, s, input).delivered
    ensures var open := After(c, s, Opening(input, s.next, c.Key(input) in s.files));
      var post := After(c, open, Posting(s.next, now, later, HasMarker(s.board, c.Key(input))));
      After(c, s, Smoothly(c, s, input, now, later)) == After(c, post, [RecordWritten(s.next, true, true)])
  {
    var key, id := c.Key(input), s.next;
    hide HasMarker, After, Step;
    var open, post := Opening(input, id, key in s.files), Posting(id, now, later, HasMarker(s.board, key));
    AfterThen(c, s, open, post);
    AfterThen(c, s, open + post, [RecordWritten(id, true, true)]);
  }

  lemma PostedMeans(c: Config, s: State, input: Input)
    requires Sound(c.digests) && Inv(c, s) && c.Key(input) !in s.locks
    ensures var t, key, r := Posted(c, s, input), c.Key(input), RecordOf(c, s, input);
      && t.next == s.next && t.next !in t.processes && key !in t.locks && key in t.first
      && t.(next := t.next + 1,
            files := t.files[key := r.(delivered := true, boardRef := Some(BoardRef(key)))],
            answers := t.answers + [Answer(key, r.evidence, BoardRef(key))]) == Delivered(c, s, input)
  {
    NotYetThere(c, s);
    hide Inv, HasMarker, CommentOf, Sound, Marked;
    var t, key, r := Posted(c, s, input), c.Key(input), RecordOf(c, s, input);
    var marked := r.(delivered := true, boardRef := Some(BoardRef(key)));
    var d := Delivered(c, s, input);
    WriteTwice(s.files, key, r, marked);
    assert t.files == s.files[key := r] && d.files == s.files[key := marked];
    assert t.first == d.first && t.board == d.board;
    assert t.processes == s.processes == d.processes && t.locks == s.locks == d.locks;
  }

  lemma WriteTwice(files: map<string, Receipt>, key: string, r: Receipt, q: Receipt)
    ensures files[key := r][key := q] == files[key := q]
  {
  }

  lemma NotYetThere(c: Config, s: State)
    requires Inv(c, s)
    ensures s.next !in s.processes
  {
  }

  lemma RecordIsOfKey(c: Config, s: State, input: Input)
    requires Sound(c.digests) && Inv(c, s)
    ensures var r := RecordOf(c, s, input); r.dedupKey == c.Key(input) && (c.Key(input) in s.files <==> c.Key(input) in s.first)
  {
    if c.Key(input) in s.files { StoredIsAccepted(c, s, input); }
  }

  /** The comment carries the identity's marker. */
  lemma CommentIsSeen(c: Config, s: State, input: Input)
    requires ValidProfile(c.profile) && Sound(c.digests) && Inv(c, s) && ValidInput(c.profile, input)
    ensures HasMarker(s.board + [CommentOf(c.profile, input, RecordOf(c, s, input))], c.Key(input))
  {
    var key, r := c.Key(input), RecordOf(c, s, input);
    if key in s.files { StoredIsAccepted(c, s, input); }
    var text := CommentOf(c.profile, input, r);
    hide Contains, Comment;
    CommentHasItsMarker(c.profile, key, key, input.candidate, input.verification, r.firstJobId, r.firstClaimId, r.firstEpoch);
    var board := s.board + [text];
    assert board[|s.board|] == text && text in board;
  }

  /**
   * Whatever happened before, a delivery of a valid input whose lock is free is accepted when
   * nothing fails, with the evidence of the identity's first record. Afterwards the record is
   * delivered, the comment is on the board, and nothing else changed.
   */
  lemma NothingFailsIsAccepted(c: Config, events: seq<Event>, input: Input, now: seq<Page>, later: seq<Page>)
    requires ValidProfile(c.profile) && Sound(c.digests) && ValidInput(c.profile, input)
    requires var s := Run(c, events);
      && c.Key(input) !in s.locks && Shows(now, s.board) && |now| <= 10
      && Shows(later, WithComment(c, s, input).board) && |later| <= 10
    ensures var s := Run(c, events);
      Run(c, events + Smoothly(c, s, input, now, later)) == Delivered(c, s, input)
  {
    RunKeepsInv(c, events);
    var s := Run(c, events);
    RunThenAfter(c, events, Smoothly(c, s, input, now, later));
    if RecordOf(c, s, input).delivered { SmoothDelivered(c, s, input); } else { SmoothPending(c, s, input, now, later); }
  }

  /** A delivery that finds its record delivered. */
  lemma SmoothDelivered(c: Config, s: State, input: Input)
    requires Sound(c.digests) && Inv(c, s) && ValidInput(c.profile, input) && c.Key(input) !in s.locks
    requires RecordOf(c, s, input).delivered
    ensures After(c, s, [Call(input), LockAnswered(s.next, true)] + [RecordRead(s.next, false)]) == Delivered(c, s, input)
  {
    var head, read := [Call(input), LockAnswered(s.next, true)], [RecordRead(s.next, false)];
    OpensToRead(c, s, input);
    DeliveredStep(c, s, input);
    hide Inv, Sound, ValidInput, After, Step, Holding, Delivered, RecordOf;
    AfterThen(c, s, head, read);
    AfterOne(c, Holding(c, s, input, ReadingRecord), read[0]);
  }

  lemma DeliveredStep(c: Config, s: State, input: Input)
    requires Sound(c.digests) && Inv(c, s) && c.Key(input) !in s.locks && RecordOf(c, s, input).delivered
    ensures Step(c, Holding(c, s, input, ReadingRecord), RecordRead(s.next, false)) == Delivered(c, s, input)
  {
    var key := c.Key(input);
    hide Inv, Sound, HasMarker, CommentOf, Marked, BoardRef, IsDigest, IsUuid;
    StoredIsAccepted(c, s, input);
    DeliveredRef(c, s, key);
    NotYetThere(c, s);
    HasMarkerCounts(s.board, key);
    var reading, r := Holding(c, s, input, ReadingRecord), s.files[key];
    assert Step(c, reading, RecordRead(s.next, false)) == Accept(c, reading, s.next, r);
    hide Step;
    assert reading.processes - {s.next} == s.processes && reading.locks - {key} == s.locks;
    WriteTwice(s.files, key, r, r);
    assert s.files[key := r] == s.files;
  }

  // ---------------------------------------------------------------- a command that takes effect late

  lemma RunStep(c: Config, events: seq<Event>, e: Event)
    ensures Run(c, events + [e]) == Step(c, Run(c, events), e)
  {
    assert (events + [e])[..|events|] == events;
  }

  /** A delivery whose first command is not seen to return and has not taken effect; the second one has. */
  function RetriedDelivery(c: Config, input: Input): (events: seq<Event>) {
    var empty, full := [Page([], false)], [Page([CommentOf(c.profile, input, c.Fresh(input))], false)];
    [ Call(input), LockAnswered(0, true), RecordRead(0, false), RecordWritten(0, true, true), Looked(0, empty, 1),
      Commented(0, false, false), Looked(0, empty, 1), Commented(0, true, true), Looked(0, full, 1), RecordWritten(0, true, true)]
  }

  lemma EmptyBoardShown()
    ensures Shows([Page([], false)], []) && forall marker :: FindIn([Page([], false)], marker, 1) == Absent
  {
  }

  /** The retried delivery up to its second command. */
  lemma RetriedUpToSecond(c: Config, input: Input)
    requires ValidInput(c.profile, input)
    ensures var s := Run(c, RetriedDelivery(c, input)[..7]); var r := c.Fresh(input);
      && s.board == [] && s.answers == [] && 0 in s.processes && s.processes[0] == Process(input, Adding(r, 1))
      && c.Key(input) in s.files && s.files[c.Key(input)] == r && c.Key(input) in s.first
  {
    var es := RetriedDelivery(c, input);
    EmptyBoardShown();
    hide ValidInput, Shows, FindIn, Comment;
    assert es[..0] == [];
    forall n | 0 <= n < 7 ensures es[..n + 1] == es[..n] + [es[n]] {}
    RunStep(c, es[..0], es[0]);
    RunStep(c, es[..1], es[1]);
    RunStep(c, es[..2], es[2]);
    RunStep(c, es[..3], es[3]);
    RunStep(c, es[..4], es[4]);
    RunStep(c, es[..5], es[5]);
    RunStep(c, es[..6], es[6]);
  }

  lemma FullBoardShown(text: string, key: string)
    requires Contains(text, Marker(key))
    ensures Shows([Page([text], false)], [text]) && FindIn([Page([text], false)], Marker(key), 1) == Found
  {
    hide Contains, Marker;
    assert text in [Page([text], false)][0].events;
    assert PageHas([Page([text], false)][0], Marker(key));
  }

  /** The second command takes effect. */
  lemma RetriedIsApplied(c: Config, input: Input)
    requires ValidInput(c.profile, input)
    ensures var s := Run(c, RetriedDelivery(c, input)[..8]); var r := c.Fresh(input);
      && s.board == [CommentOf(c.profile, input, r)] && s.answers == []
      && 0 in s.processes && s.processes[0] == Process(input, Verifying(r)) && c.Key(input) in s.first
  {
    var es := RetriedDelivery(c, input);
    RetriedUpToSecond(c, input);
    hide Contains, CommentOf, ValidInput, Shows, FindIn, Run, Release;
    assert es[..8] == es[..7] + [es[7]];
    assert [] + [CommentOf(c.profile, input, c.Fresh(input))] == [CommentOf(c.profile, input, c.Fresh(input))];
    RunStep(c, es[..7], es[7]);
  }

  /** It is seen. */
  lemma RetriedIsSeen(c: Config, input: Input)
    requires ValidInput(c.profile, input) && Contains(CommentOf(c.profile, input, c.Fresh(input)), Marker(c.Key(input)))
    ensures var s := Run(c, RetriedDelivery(c, input)[..9]); var r := c.Fresh(input);
      && s.board == [CommentOf(c.profile, input, r)] && s.answers == []
      && 0 in s.processes && s.processes[0] == Process(input, Marking(r)) && c.Key(input) in s.first
  {
    var es, key := RetriedDelivery(c, input), c.Key(input);
    var text := CommentOf(c.profile, input, c.Fresh(input));
    RetriedIsApplied(c, input);
    FullBoardShown(text, key);
    hide Contains, CommentOf, ValidInput, Shows, FindIn, Run, Release;
    assert es[..9] == es[..8] + [es[8]];
    RunStep(c, es[..8], es[8]);
  }

  lemma RetriedIsAccepted(c: Config, input: Input)
    requires ValidInput(c.profile, input) && Contains(CommentOf(c.profile, input, c.Fresh(input)), Marker(c.Key(input)))
    ensures var s := Run(c, RetriedDelivery(c, input)); var r := c.Fresh(input);
      && s.board == [CommentOf(c.profile, input, r)]
      && s.answers == [Answer(c.Key(input), r.evidence, BoardRef(c.Key(input)))]
  {
    var es := RetriedDelivery(c, input);
    RetriedIsSeen(c, input);
    hide Contains, CommentOf, ValidInput, Shows, FindIn, Run;
    assert es == es[..9] + [es[9]];
    RunStep(c, es[..9], es[9]);
  }

  /**
   * Why exactly once needs commands that are over when they fail: if the first command of a retried
   * delivery takes effect after its timeout, an accepted identity has two comments on the board.
   */
  lemma LateCommandAppearsTwice(c: Config, input: Input)
    requires ValidProfile(c.profile) && Sound(c.digests) && ValidInput(c.profile, input)
    ensures var s := Run(c, RetriedDelivery(c, input)); var key := c.Key(input);
      && (exists a :: a in s.answers && a.key == key)
      && Marked(s.board, key) == 1 && Marked(s.board + [CommentOf(c.profile, input, c.Fresh(input))], key) == 2
  {
    var key, r := c.Key(input), c.Fresh(input);
    var text := CommentOf(c.profile, input, r);
    CommentHasItsMarker(c.profile, key, key, input.candidate, input.verification, input.jobId, input.claimId, input.epoch);
    RetriedIsAccepted(c, input);
    MarkedStep([], text, key);
    MarkedStep([text], text, key);
    hide Contains, Comment, ValidInput, Sound, ValidProfile, Run;
    assert [] + [text] == [text];
    var s := Run(c, RetriedDelivery(c, input));
    assert s.answers[0] in s.answers;
  }
}
