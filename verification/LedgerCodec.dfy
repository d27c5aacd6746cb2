/** JSON lines for the ledger's own payloads: the codec premises of the collectors hold of them. */
module LedgerCodec {
  import opened Wrappers
  import opened Text
  import opened Json
  import opened JournalText
  import opened JournalJson
  import opened Budget
  import opened Collector

  // ---------------------------------------------------------------- payloads as JSON objects

  /** An object with a tag and whole numbers; the tag tells which fields there are. */
  function Encode(p: Payload): Json {
    match p
    case Reservation(id, tokens, wallMs) =>
      Obj([M("attemptId", TextValue(id)), M("maxTokens", WholeValue(tokens)), M("maxWallMs", WholeValue(wallMs))])
    case Settlement(id, tokens, wallMs) =>
      Obj([M("attemptId", TextValue(id)), M("actualTokens", WholeValue(tokens)), M("actualWallMs", WholeValue(wallMs))])
    case Slot(key) => Obj([M("slotKey", TextValue(key))])
    case Request(iteration) => Obj([M("iteration", WholeValue(iteration))])
    case Note => Obj([])
  }

  function M(key: string, value: Json): Member { Member(Units(key), value) }

  lemma KeysDiffer(a: string, b: string)
    requires a != b
    ensures Units(a) != Units(b)
  {
    if Units(a) == Units(b) { UnitsInjective(a, b); }
  }

  lemma EncodeIsPlain(p: Payload)
    ensures Valid(Encode(p)) && Unsign(Encode(p)) == Encode(p)
  {
    hide Units, IntNumber;
    KeysDiffer("attemptId", "maxTokens");
    KeysDiffer("attemptId", "maxWallMs");
    KeysDiffer("maxTokens", "maxWallMs");
    KeysDiffer("attemptId", "actualTokens");
    KeysDiffer("attemptId", "actualWallMs");
    KeysDiffer("actualTokens", "actualWallMs");
    var ms := Encode(p).members;
    forall i | 0 <= i < |ms| ensures Valid(ms[i].value) && Unsign(ms[i].value) == ms[i].value {
      MemberIsPlain(p, i);
    }
    assert UnsignMembers(ms) == ms;
  }

  lemma MemberIsPlain(p: Payload, i: nat)
    requires i < |Encode(p).members|
    ensures var j := Encode(p).members[i].value; Valid(j) && Unsign(j) == j
  {
    hide Units;
    forall n ensures Unsigned(IntNumber(n)) == IntNumber(n) {}
  }

  lemma EncodeInjective(p: Payload, q: Payload)
    requires Encode(p) == Encode(q)
    ensures p == q
  {
    hide Units, IntNumber;
    var ms, ns := Encode(p).members, Encode(q).members;
    KeysDiffer("maxTokens", "actualTokens");
    KeysDiffer("slotKey", "iteration");
    assert forall i :: 0 <= i < |ms| ==> ms[i] == ns[i];
    match p
    case Reservation(id, tokens, wallMs) => ThreeAgree(id, q.attemptId, tokens, q.maxTokens, wallMs, q.maxWallMs);
    case Settlement(id, tokens, wallMs) => ThreeAgree(id, q.attemptId, tokens, q.actualTokens, wallMs, q.actualWallMs);
    case Slot(key) => UnitsInjective(key, q.slotKey);
    case Request(iteration) => IntNumberInjective(iteration, q.iteration);
    case Note =>
  }

  /** Every amount stands under its own name. */
  lemma PayloadSays(p: Payload)
    ensures var ms := Encode(p).members;
      match p
      case Reservation(id, tokens, wallMs) =>
        SaysText(ms, "attemptId", id) && SaysWhole(ms, "maxTokens", tokens) && SaysWhole(ms, "maxWallMs", wallMs)
      case Settlement(id, tokens, wallMs) =>
        SaysText(ms, "attemptId", id) && SaysWhole(ms, "actualTokens", tokens) && SaysWhole(ms, "actualWallMs", wallMs)
      case Slot(key) => SaysText(ms, "slotKey", key)
      case Request(iteration) => SaysWhole(ms, "iteration", iteration)
      case Note => ms == []
  {
    hide Units, SaysWhole, IntNumber;
    var ms := Encode(p).members;
    match p
    case Reservation(_, tokens, wallMs) =>
      assert ms[0] in ms;
      MemberSays(ms, 1, "maxTokens", tokens);
      MemberSays(ms, 2, "maxWallMs", wallMs);
    case Settlement(_, tokens, wallMs) =>
      assert ms[0] in ms;
      MemberSays(ms, 1, "actualTokens", tokens);
      MemberSays(ms, 2, "actualWallMs", wallMs);
    case Slot(_) => assert ms[0] in ms;
    case Request(iteration) => MemberSays(ms, 0, "iteration", iteration);
    case Note =>
  }

  lemma MemberSays(ms: seq<Member>, i: nat, key: string, n: int)
    requires i < |ms| && ms[i] == M(key, WholeValue(n))
    ensures SaysWhole(ms, key, n)
  {
    WholeIsWorth(n);
    assert ms[i] in ms;
  }

  lemma ThreeAgree(s: string, t: string, a: int, b: int, c: int, d: int)
    requires TextValue(s) == TextValue(t) && WholeValue(a) == WholeValue(b) && WholeValue(c) == WholeValue(d)
    ensures s == t && a == b && c == d
  {
    UnitsInjective(s, t);
    IntNumberInjective(a, b);
    IntNumberInjective(c, d);
  }

  // ---------------------------------------------------------------- the codec

  ghost function AsDoc(p: Payload): Doc {
    EncodeIsPlain(p);
    Encode(p)
  }

  ghost function Encoded(r: Entry): Record<Doc> { Meant((p: Payload) => AsDoc(p), r) }

  ghost function ParseEntry(text: string): (parsed: Option<Entry>)
    ensures parsed.Some? <==> exists r :: Line(Encoded(r)) == text
    ensures parsed.Some? ==> Line(Encoded(parsed.value)) == text
  {
    if exists r :: Line(Encoded(r)) == text then
      var r :| Line(Encoded(r)) == text;
      Some(r)
    else None
  }

  ghost function LedgerLines(hash: string -> string): Codec<Payload> {
    Codec((p: Payload) => Some(p), (p: Payload) => p, (r: Entry) => Line(Encoded(r)), (t: string) => ParseEntry(t),
          (r: Entry) => hash(HashedText(Encoded(r))))
  }

  lemma EntryLinesUnique(r: Entry, s: Entry, x: string, y: string)
    requires Line(Encoded(r)) + x == Line(Encoded(s)) + y
    ensures x == y && r == s
  {
    LinesUnique(Encoded(r), Encoded(s), x, y);
    EncodeIsPlain(r.payload);
    EncodeIsPlain(s.payload);
    hide Line, Encode;
    assert Encoded(r).payload == Encoded(s).payload;
    EncodeInjective(r.payload, s.payload);
    assert r == Record(Encoded(r).schemaVersion, Encoded(r).sequence, Encoded(r).kind, Encoded(r).experimentId, Encoded(r).runId,
                       Encoded(r).attemptId, Encoded(r).epoch, r.payload, Encoded(r).previousHash, Encoded(r).recordHash);
    assert s == Record(Encoded(s).schemaVersion, Encoded(s).sequence, Encoded(s).kind, Encoded(s).experimentId, Encoded(s).runId,
                       Encoded(s).attemptId, Encoded(s).epoch, s.payload, Encoded(s).previousHash, Encoded(s).recordHash);
  }

  lemma ParseEntryLine(r: Entry)
    ensures ParseEntry(Line(Encoded(r))) == Some(r)
  {
    hide *;
    assert exists s :: Line(Encoded(s)) == Line(Encoded(r)) by { assert Line(Encoded(r)) == Line(Encoded(r)); }
    EntryLinesUnique(r, ParseEntry(Line(Encoded(r))).value, "", "");
  }

  lemma EntryPrefix(r: Entry, n: nat)
    requires n < |Line(Encoded(r))|
    ensures ParseEntry(Line(Encoded(r))[..n]).None?
  {
    hide Line, Encoded;
    if s :| Line(Encoded(s)) == Line(Encoded(r))[..n] {
      assert Line(Encoded(s)) + Line(Encoded(r))[n..] == Line(Encoded(r)) + "";
      EntryLinesUnique(s, r, Line(Encoded(r))[n..], "");
    }
  }

  lemma EntryJoined(r: Entry, s: Entry, n: nat)
    requires 0 < n <= |Line(Encoded(s))|
    ensures ParseEntry(Line(Encoded(r)) + Line(Encoded(s))[..n]).None?
  {
    hide Line, Encoded;
    if t :| Line(Encoded(t)) == Line(Encoded(r)) + Line(Encoded(s))[..n] {
      assert Line(Encoded(t)) + "" == Line(Encoded(r)) + Line(Encoded(s))[..n];
      EntryLinesUnique(t, r, "", Line(Encoded(s))[..n]);
    }
  }

  /** The premise of the collectors is met: JSON lines of their payloads, under any hash. */
  lemma LedgerLinesArePlain(hash: string -> string)
    ensures PlainCodec(LedgerLines(hash))
  {
    var c := LedgerLines(hash);
    forall r: Entry ensures c.line(r) != "" && '\n' !in c.line(r) && c.parse(c.line(r)) == Some(Reread(c, r)) {
      LineIsValid(Encoded(r));
      ParseEntryLine(r);
    }
    forall r: Entry, n | 0 < n < |c.line(r)| ensures c.parse(c.line(r)[..n]).None? { EntryPrefix(r, n); }
    forall r: Entry, s: Entry, n | 0 < n <= |c.line(s)| ensures c.parse(c.line(r) + c.line(s)[..n]).None? { EntryJoined(r, s, n); }
    forall r: Entry ensures c.digest(Body(Reread(c, r))) == c.digest(Body(r)) {}
  }
}
