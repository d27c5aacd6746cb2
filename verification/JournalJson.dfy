/** The journal's codec as JSON lines: the laws that `Journal` relies on, proved of the printer. */
module JournalJson {
  import opened Wrappers
  import opened Text
  import opened Json
  import opened JsonReader
  import JsonNumber
  import opened CanonicalJson
  import opened JournalText

  // ---------------------------------------------------------------- a printed value is one line

  predicate OneLineText(t: string) { '\n' !in t }

  lemma OneLineConcat(a: string, b: string)
    requires OneLineText(a) && OneLineText(b)
    ensures OneLineText(a + b)
  {
  }

  lemma UnitIsOneLine(u: CodeUnit)
    ensures OneLineText(UnitText(u))
  {
    assert forall h :: 0 <= h < 16 ==> HexChar(h) != '\n';
  }

  lemma {:induction false} EscapedIsOneLine(s: JsString)
    ensures OneLineText(Escaped(s))
  {
    if s != [] {
      if |s| > 1 && HighSurrogate(s[0]) && LowSurrogate(s[1]) {
        EscapedIsOneLine(s[2..]);
        OneLineConcat([PairChar(s[0], s[1])], Escaped(s[2..]));
      } else {
        UnitIsOneLine(s[0]);
        EscapedIsOneLine(s[1..]);
        OneLineConcat(UnitText(s[0]), Escaped(s[1..]));
      }
    }
  }

  lemma QuoteIsOneLine(s: JsString)
    ensures OneLineText(Quote(s))
  {
    EscapedIsOneLine(s);
  }

  lemma NumberIsOneLine(n: Number)
    requires n.Valid()
    ensures OneLineText(NumberText(n))
  {
    NumberTextShape(n);
  }

  lemma {:induction false} PrintIsOneLine(j: Json)
    requires Valid(j)
    ensures OneLineText(Print(j))
    decreases j, 0
  {
    match j
    case Num(n) => NumberIsOneLine(n);
    case Str(s) => QuoteIsOneLine(s);
    case Arr(items) => ItemsAreOneLine(items);
    case Obj(ms) => MembersAreOneLine(ms);
    case _ =>
  }

  lemma {:induction false} ItemsAreOneLine(items: seq<Json>)
    requires forall i :: 0 <= i < |items| ==> Valid(items[i])
    ensures OneLineText(PrintItems(items))
    decreases items, 0
  {
    if items != [] {
      PrintIsOneLine(items[0]);
      ItemsAreOneLine(items[1..]);
      hide Print, Valid;
      OneLineConcat(",", PrintItems(items[1..]));
      OneLineConcat(Print(items[0]), if |items| > 1 then "," + PrintItems(items[1..]) else "");
    }
  }

  lemma {:induction false} MembersAreOneLine(ms: seq<Member>)
    requires forall i :: 0 <= i < |ms| ==> Valid(ms[i].value)
    ensures OneLineText(PrintMembers(ms))
    decreases ms, 0
  {
    if ms != [] {
      QuoteIsOneLine(ms[0].key);
      PrintIsOneLine(ms[0].value);
      MembersAreOneLine(ms[1..]);
      hide Print, Valid, Quote;
      OneLineConcat(",", PrintMembers(ms[1..]));
      OneLineConcat(Quote(ms[0].key) + ":", Print(ms[0].value));
      OneLineConcat(Quote(ms[0].key) + ":" + Print(ms[0].value), if |ms| > 1 then "," + PrintMembers(ms[1..]) else "");
    }
  }

  // ---------------------------------------------------------------- text and whole numbers as JSON

  lemma {:induction false} UnitsInjective(s: string, t: string)
    requires Units(s) == Units(t)
    ensures s == t
  {
    if s != "" && t != "" {
      FirstUnit(s);
      FirstUnit(t);
      var n := if s[0] as int < 0x1_0000 then 1 else 2;
      assert Units(s)[n..] == Units(s[1..]) && Units(t)[n..] == Units(t[1..]);
      UnitsInjective(s[1..], t[1..]);
      assert s == [s[0]] + s[1..] && t == [t[0]] + t[1..];
    }
  }

  function Decode(high: int, low: int): int { 0x1_0000 + (high - 0xD800) * 0x400 + (low - 0xDC00) }

  /** The first unit tells whether one or two units belong to the first character. */
  lemma FirstUnit(s: string)
    requires s != ""
    ensures var u, c := Units(s), s[0] as int;
      if c < 0x1_0000 then u[0] == c && !HighSurrogate(u[0])
      else |u| > 1 && HighSurrogate(u[0]) && c == Decode(u[0], u[1])
  {
  }

  /** A positive number without its trailing zeros, and how many there were. */
  function Strip(m: nat): (r: (nat, nat))
    requires m > 0
    ensures r.0 > 0 && r.0 % 10 != 0
  {
    if m % 10 != 0 then (m, 0) else var r := Strip(m / 10); (r.0, r.1 + 1)
  }

  function Scale(d: nat, k: nat): nat { if k == 0 then d else 10 * Scale(d, k - 1) }

  lemma {:induction false} StripScale(m: nat)
    requires m > 0
    ensures Scale(Strip(m).0, Strip(m).1) == m
  {
    if m % 10 == 0 { StripScale(m / 10); }
  }

  function Digits(d: nat): (ds: seq<Digit>)
    ensures |ds| > 0 && ds[|ds| - 1] == d % 10 && (d > 0 ==> ds[0] != 0)
  {
    if d < 10 then [d] else Digits(d / 10) + [d % 10]
  }

  lemma {:induction false} DigitsValue(d: nat)
    ensures NatOf(Digits(d)) == d
  {
    if d >= 10 {
      DigitsValue(d / 10);
      assert Digits(d)[..|Digits(d)| - 1] == Digits(d / 10);
    }
  }

  /** The shortest decimal form of a whole number. */
  function IntNumber(n: int): (r: Number)
    ensures r.Valid()
  {
    if n == 0 then Zero(false)
    else
      var s := Strip(if n < 0 then -n else n);
      Finite(n < 0, Digits(s.0), |Digits(s.0)| + s.1)
  }

  lemma IntNumberInjective(m: int, n: int)
    requires IntNumber(m) == IntNumber(n)
    ensures m == n
  {
    if m != 0 && n != 0 {
      var a, b := if m < 0 then -m else m, if n < 0 then -n else n;
      DigitsValue(Strip(a).0);
      DigitsValue(Strip(b).0);
      StripScale(a);
      StripScale(b);
    }
  }

  lemma {:induction false} ScaleIsPower(d: nat, k: nat)
    ensures Scale(d, k) as real == JsonNumber.Times(d as real, JsonNumber.Power(k))
  {
    if k == 0 {
      assert JsonNumber.Power(0) == 1.0;
    } else {
      ScaleIsPower(d, k - 1);
      JsonNumber.PowerStep(k - 1);
      JsonNumber.TenTimes(d as real, JsonNumber.Power(k - 1));
    }
  }

  /** The decimal form of a whole number is worth the number. */
  lemma WholeIsWorth(n: int)
    ensures JsonNumber.ValueOf(IntNumber(n)) == n as real
  {
    if n != 0 {
      var m := if n < 0 then -n else n;
      var s := Strip(m);
      StripScale(m);
      DigitsValue(s.0);
      ScaleIsPower(s.0, s.1);
      hide JsonNumber.Times, JsonNumber.Power, NatOf, Strip, Digits;
    }
  }

  // ---------------------------------------------------------------- records as JSON objects

  /** A JSON value in normal form: the payloads that `persistedJsonValue` lets through. */
  type Doc = j: Json | Valid(j) witness Null

  datatype Name = SchemaVersion | Sequence | Kind | ExperimentId | RunId | AttemptId | Epoch | Payload | PreviousHash | RecordHash

  function NameText(n: Name): string {
    match n
    case SchemaVersion => "schemaVersion"
    case Sequence => "sequence"
    case Kind => "type"
    case ExperimentId => "experimentId"
    case RunId => "runId"
    case AttemptId => "attemptId"
    case Epoch => "epoch"
    case Payload => "payload"
    case PreviousHash => "previousHash"
    case RecordHash => "recordHash"
  }

  lemma NamesDiffer(m: Name, n: Name)
    requires Units(NameText(m)) == Units(NameText(n))
    ensures m == n
  {
    UnitsInjective(NameText(m), NameText(n));
    assert |NameText(m)| == |NameText(n)| && NameText(m)[0] == NameText(n)[0] && NameText(m)[1] == NameText(n)[1];
  }

  function TextValue(s: string): Json { Str(Units(s)) }

  function WholeValue(n: int): Json { Num(IntNumber(n)) }

  /** The value of a field, or None for one that `JSON.stringify` leaves out. */
  function FieldOf(r: Record<Doc>, n: Name): Option<Json> {
    match n
    case SchemaVersion => Some(WholeValue(r.schemaVersion))
    case Sequence => Some(WholeValue(r.sequence))
    case Kind => Some(TextValue(r.kind))
    case ExperimentId => Some(TextValue(r.experimentId))
    case RunId => if r.runId.Some? then Some(TextValue(r.runId.value)) else None
    case AttemptId => if r.attemptId.Some? then Some(TextValue(r.attemptId.value)) else None
    case Epoch => if r.epoch.Some? then Some(WholeValue(r.epoch.value)) else None
    case Payload => Some(r.payload)
    case PreviousHash => Some(TextValue(r.previousHash))
    case RecordHash => Some(TextValue(r.recordHash))
  }

  const NAMES := [SchemaVersion, Sequence, Kind, ExperimentId, RunId, AttemptId, Epoch, Payload, PreviousHash, RecordHash]

  predicate DistinctNames(names: seq<Name>) { forall i, j :: 0 <= i < j < |names| ==> names[i] != names[j] }

  function Fields(r: Record<Doc>, names: seq<Name>): seq<Member> {
    if names == [] then []
    else
      var f := FieldOf(r, names[0]);
      (if f.Some? then [Member(Units(NameText(names[0])), f.value)] else []) + Fields(r, names[1..])
  }

  function ToJson(r: Record<Doc>): Json { Obj(Fields(r, NAMES)) }

  lemma {:induction false} FieldsFrom(r: Record<Doc>, names: seq<Name>, m: Member)
    requires m in Fields(r, names)
    ensures exists n :: n in names && m.key == Units(NameText(n)) && FieldOf(r, n) == Some(m.value)
  {
    if FieldOf(r, names[0]).Some? && m == Fields(r, names)[0] {
      assert names[0] in names;
    } else {
      assert m in Fields(r, names[1..]);
      FieldsFrom(r, names[1..], m);
    }
  }

  lemma {:induction false} FieldsTo(r: Record<Doc>, names: seq<Name>, n: Name)
    requires n in names && FieldOf(r, n).Some?
    ensures Member(Units(NameText(n)), FieldOf(r, n).value) in Fields(r, names)
  {
    if n != names[0] { FieldsTo(r, names[1..], n); }
  }

  lemma FieldValid(r: Record<Doc>, n: Name)
    ensures FieldOf(r, n).Some? ==> Valid(FieldOf(r, n).value)
  {
  }

  lemma {:induction false} FieldsValid(r: Record<Doc>, names: seq<Name>)
    requires DistinctNames(names)
    ensures Valid(Obj(Fields(r, names)))
  {
    if names != [] {
      FieldsValid(r, names[1..]);
      FieldValid(r, names[0]);
      hide FieldOf, NameText, Units;
      var rest := Fields(r, names[1..]);
      forall i | 0 <= i < |rest| ensures rest[i].key != Units(NameText(names[0])) {
        FieldsFrom(r, names[1..], rest[i]);
        var n :| n in names[1..] && rest[i].key == Units(NameText(n));
        if rest[i].key == Units(NameText(names[0])) { NamesDiffer(n, names[0]); }
      }
    }
  }

  lemma UnsignFields(r: Record<Doc>, s: Record<Doc>)
    requires Unsign(ToJson(r)) == Unsign(ToJson(s))
    ensures UnsignMembers(Fields(r, NAMES)) == UnsignMembers(Fields(s, NAMES))
  {
    hide Fields, UnsignMembers;
  }

  /** Equal objects, up to the sign of zero, have equal fields. */
  lemma FieldsAgree(r: Record<Doc>, s: Record<Doc>, n: Name)
    requires UnsignMembers(Fields(r, NAMES)) == UnsignMembers(Fields(s, NAMES)) && n in NAMES
    ensures FieldOf(r, n).Some? ==> FieldOf(s, n).Some? && Unsign(FieldOf(r, n).value) == Unsign(FieldOf(s, n).value)
  {
    hide *;
    if FieldOf(r, n).Some? {
      FieldsTo(r, NAMES, n);
      var fs, gs := Fields(r, NAMES), Fields(s, NAMES);
      var i :| 0 <= i < |fs| && fs[i] == Member(Units(NameText(n)), FieldOf(r, n).value);
      assert UnsignMembers(fs)[i] == UnsignMembers(gs)[i];
      assert gs[i] in gs;
      FieldsFrom(s, NAMES, gs[i]);
      var m :| m in NAMES && gs[i].key == Units(NameText(m)) && FieldOf(s, m) == Some(gs[i].value);
      NamesDiffer(m, n);
    }
  }

  lemma AllNames(n: Name)
    ensures n in NAMES
  {
    assert NAMES[0] == SchemaVersion && NAMES[1] == Sequence && NAMES[2] == Kind && NAMES[3] == ExperimentId && NAMES[4] == RunId;
    assert NAMES[5] == AttemptId && NAMES[6] == Epoch && NAMES[7] == Payload && NAMES[8] == PreviousHash && NAMES[9] == RecordHash;
  }

  function Plain(r: Record<Doc>): Record<Doc> {
    UnsignValid(r.payload);
    r.(payload := Unsign(r.payload))
  }

  predicate SameField(r: Record<Doc>, s: Record<Doc>, n: Name) {
    FieldOf(r, n).Some? == FieldOf(s, n).Some? && (FieldOf(r, n).Some? ==> Unsign(FieldOf(r, n).value) == Unsign(FieldOf(s, n).value))
  }

  /** The text of a record gives all of it back, with minus zero read as zero. */
  lemma ToJsonInjective(r: Record<Doc>, s: Record<Doc>)
    requires Unsign(ToJson(r)) == Unsign(ToJson(s))
    ensures Plain(r) == Plain(s)
  {
    forall n ensures SameField(r, s, n) {
      AllNames(n);
      UnsignFields(r, s);
      FieldsAgree(r, s, n);
      FieldsAgree(s, r, n);
    }
    HeadersAgree(r, s);
    OptionalFieldsAgree(r, s);
    assert SameField(r, s, Payload);
  }

  lemma HeadersAgree(r: Record<Doc>, s: Record<Doc>)
    requires forall n :: SameField(r, s, n)
    ensures r.schemaVersion == s.schemaVersion && r.sequence == s.sequence && r.kind == s.kind && r.experimentId == s.experimentId
    ensures r.previousHash == s.previousHash && r.recordHash == s.recordHash
  {
    hide Unsign, WholeValue, TextValue;
    assert SameField(r, s, SchemaVersion) && SameField(r, s, Sequence) && SameField(r, s, Kind);
    assert SameField(r, s, ExperimentId) && SameField(r, s, PreviousHash) && SameField(r, s, RecordHash);
    WholeAgrees(r.schemaVersion, s.schemaVersion, WholeValue(r.schemaVersion), WholeValue(s.schemaVersion));
    WholeAgrees(r.sequence, s.sequence, WholeValue(r.sequence), WholeValue(s.sequence));
    TextAgrees(r.kind, s.kind, TextValue(r.kind), TextValue(s.kind));
    TextAgrees(r.experimentId, s.experimentId, TextValue(r.experimentId), TextValue(s.experimentId));
    TextAgrees(r.previousHash, s.previousHash, TextValue(r.previousHash), TextValue(s.previousHash));
    TextAgrees(r.recordHash, s.recordHash, TextValue(r.recordHash), TextValue(s.recordHash));
  }

  lemma OptionalFieldsAgree(r: Record<Doc>, s: Record<Doc>)
    requires forall n :: SameField(r, s, n)
    ensures r.runId == s.runId && r.attemptId == s.attemptId && r.epoch == s.epoch
  {
    hide Unsign, WholeValue, TextValue;
    assert SameField(r, s, RunId) && SameField(r, s, AttemptId) && SameField(r, s, Epoch);
    if r.runId.Some? { TextAgrees(r.runId.value, s.runId.value, TextValue(r.runId.value), TextValue(s.runId.value)); }
    if r.attemptId.Some? { TextAgrees(r.attemptId.value, s.attemptId.value, TextValue(r.attemptId.value), TextValue(s.attemptId.value)); }
    if r.epoch.Some? { WholeAgrees(r.epoch.value, s.epoch.value, WholeValue(r.epoch.value), WholeValue(s.epoch.value)); }
  }

  lemma WholeAgrees(m: int, n: int, a: Json, b: Json)
    requires a == WholeValue(m) && b == WholeValue(n) && Unsign(a) == Unsign(b)
    ensures m == n
  {
    IntNumberInjective(m, n);
  }

  lemma TextAgrees(s: string, t: string, a: Json, b: Json)
    requires a == TextValue(s) && b == TextValue(t) && Unsign(a) == Unsign(b)
    ensures s == t
  {
    UnitsInjective(s, t);
  }

  // ---------------------------------------------------------------- what a line says

  function Line(r: Record<Doc>): string { Print(ToJson(r)) }

  ghost predicate SaysNothing(ms: seq<Member>, key: string) { forall m :: m in ms ==> m.key != Units(key) }

  ghost predicate SaysWhole(ms: seq<Member>, key: string, n: int) {
    exists m :: m in ms && m.key == Units(key) && m.value.Num? && JsonNumber.ValueOf(m.value.n) == n as real
  }

  ghost predicate SaysText(ms: seq<Member>, key: string, s: string) { Member(Units(key), Str(Units(s))) in ms }

  /** The object tells every field of the record under its name, once, and has no name for a field that is missing. */
  ghost predicate Says(ms: seq<Member>, r: Record<Doc>) {
    && DistinctKeys(ms)
    && SaysWhole(ms, "schemaVersion", r.schemaVersion) && SaysWhole(ms, "sequence", r.sequence)
    && SaysText(ms, "type", r.kind) && SaysText(ms, "experimentId", r.experimentId)
    && (if r.runId.Some? then SaysText(ms, "runId", r.runId.value) else SaysNothing(ms, "runId"))
    && (if r.attemptId.Some? then SaysText(ms, "attemptId", r.attemptId.value) else SaysNothing(ms, "attemptId"))
    && (if r.epoch.Some? then SaysWhole(ms, "epoch", r.epoch.value) else SaysNothing(ms, "epoch"))
    && Member(Units("payload"), Unsign(r.payload)) in ms
    && SaysText(ms, "previousHash", r.previousHash) && SaysText(ms, "recordHash", r.recordHash)
  }

  lemma FieldIsSaid(r: Record<Doc>, n: Name)
    ensures var ms := UnsignMembers(Fields(r, NAMES));
      match FieldOf(r, n)
      case Some(v) => Member(Units(NameText(n)), Unsign(v)) in ms
      case None => SaysNothing(ms, NameText(n))
  {
    AllNames(n);
    var fs := Fields(r, NAMES);
    hide Units, Fields, NAMES, NameText, Unsign, FieldOf;
    if FieldOf(r, n).Some? {
      FieldsTo(r, NAMES, n);
      var i :| 0 <= i < |fs| && fs[i] == Member(Units(NameText(n)), FieldOf(r, n).value);
      assert UnsignMembers(fs)[i] == Member(fs[i].key, Unsign(fs[i].value));
    } else {
      forall m | m in UnsignMembers(fs) ensures m.key != Units(NameText(n)) {
        var i :| 0 <= i < |fs| && UnsignMembers(fs)[i] == m;
        assert fs[i] in fs;
        FieldsFrom(r, NAMES, fs[i]);
        var k :| k in NAMES && fs[i].key == Units(NameText(k)) && FieldOf(r, k) == Some(fs[i].value);
        if m.key == Units(NameText(n)) { NamesDiffer(k, n); }
      }
    }
  }

  lemma WholeIsSaid(ms: seq<Member>, key: string, n: int)
    requires Member(Units(key), Unsign(WholeValue(n))) in ms
    ensures SaysWhole(ms, key, n)
  {
    WholeIsWorth(n);
    assert Unsign(WholeValue(n)) == WholeValue(n);
  }

  ghost predicate FieldSaid(ms: seq<Member>, r: Record<Doc>, n: Name) {
    match FieldOf(r, n)
    case Some(v) => Member(Units(NameText(n)), Unsign(v)) in ms
    case None => SaysNothing(ms, NameText(n))
  }

  lemma TextSaid(ms: seq<Member>, r: Record<Doc>, n: Name, s: string)
    requires FieldSaid(ms, r, n) && FieldOf(r, n) == Some(TextValue(s))
    ensures SaysText(ms, NameText(n), s)
  {
    hide Units, NameText;
  }

  lemma WholeSaid(ms: seq<Member>, r: Record<Doc>, n: Name, m: int)
    requires FieldSaid(ms, r, n) && FieldOf(r, n) == Some(WholeValue(m))
    ensures SaysWhole(ms, NameText(n), m)
  {
    hide Units, NameText, SaysWhole, IntNumber;
    WholeIsSaid(ms, NameText(n), m);
  }

  lemma NothingSaid(ms: seq<Member>, r: Record<Doc>, n: Name)
    requires FieldSaid(ms, r, n) && FieldOf(r, n).None?
    ensures SaysNothing(ms, NameText(n))
  {
    hide Units, NameText, SaysNothing;
  }

  lemma PayloadSaid(ms: seq<Member>, r: Record<Doc>)
    requires FieldSaid(ms, r, Payload)
    ensures Member(Units("payload"), Unsign(r.payload)) in ms
  {
    hide Units;
  }

  lemma AllSaid(ms: seq<Member>, r: Record<Doc>)
    requires DistinctKeys(ms) && forall n :: FieldSaid(ms, r, n)
    ensures Says(ms, r)
  {
    hide Units, IntNumber, SaysNothing, DistinctKeys, SaysWhole, SaysText, FieldSaid;
    WholeSaid(ms, r, SchemaVersion, r.schemaVersion);
    WholeSaid(ms, r, Sequence, r.sequence);
    TextSaid(ms, r, Kind, r.kind);
    TextSaid(ms, r, ExperimentId, r.experimentId);
    if r.runId.Some? { TextSaid(ms, r, RunId, r.runId.value); } else { NothingSaid(ms, r, RunId); }
    if r.attemptId.Some? { TextSaid(ms, r, AttemptId, r.attemptId.value); } else { NothingSaid(ms, r, AttemptId); }
    if r.epoch.Some? { WholeSaid(ms, r, Epoch, r.epoch.value); } else { NothingSaid(ms, r, Epoch); }
    PayloadSaid(ms, r);
    TextSaid(ms, r, PreviousHash, r.previousHash);
    TextSaid(ms, r, RecordHash, r.recordHash);
  }

  /** A journal line, read as JSON by a reader that knows nothing of the printer, is an object that says the record. */
  lemma LineSays(r: Record<Doc>) returns (ms: seq<Member>)
    ensures ReadJson(Line(r)) == Some(Obj(ms)) && Says(ms, r)
  {
    ms := UnsignMembers(Fields(r, NAMES));
    NamesAreDistinct();
    FieldsValid(r, NAMES);
    KeysStayDistinct(Fields(r, NAMES));
    forall n ensures FieldSaid(ms, r, n) { FieldIsSaid(r, n); }
    hide Units, Fields, NAMES, FieldSaid, DistinctNames, Says, ReadJson, Print, Valid;
    ReadsBack(ToJson(r));
    AllSaid(ms, r);
  }

  lemma NamesAreDistinct()
    ensures DistinctNames(NAMES)
  {
  }

  lemma KeysStayDistinct(ms: seq<Member>)
    requires DistinctKeys(ms)
    ensures DistinctKeys(UnsignMembers(ms))
  {
  }

  // ---------------------------------------------------------------- the codec

  /** The fields that are hashed: all but the hash. */
  const HASHED := [SchemaVersion, Sequence, Kind, ExperimentId, RunId, AttemptId, Epoch, Payload, PreviousHash]

  function HashedText(r: Record<Doc>): string { Print(SortKeys(Obj(Fields(r, HASHED)))) }

  ghost function Parse(text: string): (parsed: Option<Record<Doc>>)
    ensures parsed.Some? <==> exists r :: Line(r) == text
    ensures parsed.Some? ==> exists r :: Line(r) == text && parsed.value == Plain(r)
  {
    if exists r :: Line(r) == text then
      var r :| Line(r) == text;
      Some(Plain(r))
    else None
  }

  ghost function Unsigned2(d: Doc): Doc {
    UnsignValid(d);
    Unsign(d)
  }

  /** JSON lines under any hash of the text with sorted keys. */
  ghost function JsonCodec(hash: string -> string): Codec<Doc> {
    Codec((d: Doc) => Some(d), (d: Doc) => Unsigned2(d), (r: Record<Doc>) => Line(r), (t: string) => Parse(t),
          (r: Record<Doc>) => hash(HashedText(r)))
  }

  lemma LineIsValid(r: Record<Doc>)
    ensures Valid(ToJson(r)) && Line(r) != "" && OneLineText(Line(r))
  {
    assert DistinctNames(NAMES);
    FieldsValid(r, NAMES);
    hide Fields, Valid;
    PrintIsOneLine(ToJson(r));
    PrintHead(ToJson(r));
  }

  /** Two lines of which one starts the other are the same record up to the sign of zero. */
  lemma LinesUnique(r: Record<Doc>, s: Record<Doc>, x: string, y: string)
    requires Line(r) + x == Line(s) + y
    ensures x == y && Plain(r) == Plain(s)
  {
    LineIsValid(r);
    LineIsValid(s);
    PrintUnique(ToJson(r), ToJson(s), x, y);
    ToJsonInjective(r, s);
  }

  lemma ParseLine(r: Record<Doc>)
    ensures Parse(Line(r)) == Some(Plain(r))
  {
    hide *;
    assert exists s :: Line(s) == Line(r) by { assert Line(r) == Line(r); }
    var s :| Line(s) == Line(r) && Parse(Line(r)).value == Plain(s);
    LinesUnique(r, s, "", "");
  }

  lemma PrefixIsNoLine(r: Record<Doc>, n: nat)
    requires n < |Line(r)|
    ensures Parse(Line(r)[..n]).None?
  {
    if s :| Line(s) == Line(r)[..n] {
      assert Line(s) + Line(r)[n..] == Line(r) + "";
      LinesUnique(s, r, Line(r)[n..], "");
    }
  }

  lemma JoinedIsNoLine(r: Record<Doc>, s: Record<Doc>, n: nat)
    requires 0 < n <= |Line(s)|
    ensures Parse(Line(r) + Line(s)[..n]).None?
  {
    if t :| Line(t) == Line(r) + Line(s)[..n] {
      assert Line(t) + "" == Line(r) + Line(s)[..n];
      LinesUnique(t, r, "", Line(s)[..n]);
    }
  }

  lemma {:induction false} PlainFields(r: Record<Doc>, names: seq<Name>)
    ensures UnsignMembers(Fields(Plain(r), names)) == UnsignMembers(Fields(r, names))
  {
    if names != [] {
      PlainFields(r, names[1..]);
      PlainField(r, names[0]);
      hide FieldOf, Plain, Units, NameText, Valid, Unsign;
    }
  }

  lemma PlainField(r: Record<Doc>, n: Name)
    ensures FieldOf(r, n).Some? == FieldOf(Plain(r), n).Some?
    ensures FieldOf(r, n).Some? ==> Unsign(FieldOf(r, n).value) == Unsign(FieldOf(Plain(r), n).value)
  {
    UnsignValid(r.payload);
  }

  lemma HashedAreDistinct()
    ensures DistinctNames(HASHED)
  {
  }

  /** The hashed text does not see the sign of zero. */
  lemma HashedTextIsPlain(r: Record<Doc>)
    ensures HashedText(Plain(r)) == HashedText(r)
  {
    hide Fields, Valid, SortKeys, Print, Mean, UnsignMembers, HASHED, DistinctNames;
    HashedAreDistinct();
    var a, b := Obj(Fields(Plain(r), HASHED)), Obj(Fields(r, HASHED));
    FieldsValid(Plain(r), HASHED);
    FieldsValid(r, HASHED);
    PlainFields(r, HASHED);
    UnsignKeepsMeaning(a);
    UnsignKeepsMeaning(b);
    SortedTextIsMeaning(a, b);
  }

  lemma {:induction false} HashIsNotHashed(r: Record<Doc>, names: seq<Name>)
    requires RecordHash !in names
    ensures Fields(Body(r), names) == Fields(r, names)
  {
    if names != [] { HashIsNotHashed(r, names[1..]); }
  }

  /** The laws that the journal relies on hold of JSON lines, whatever the hash. */
  lemma JsonLinesAreLawful(hash: string -> string)
    ensures Lawful(JsonCodec(hash))
  {
    var c := JsonCodec(hash);
    forall r: Record<Doc> ensures c.line(r) != "" && '\n' !in c.line(r) && c.parse(c.line(r)) == Some(Reread(c, r)) {
      LineIsValid(r);
      ParseLine(r);
    }
    forall r: Record<Doc>, n | 0 < n < |c.line(r)| ensures c.parse(c.line(r)[..n]).None? { PrefixIsNoLine(r, n); }
    forall r: Record<Doc>, s: Record<Doc>, n | 0 < n <= |c.line(s)| ensures c.parse(c.line(r) + c.line(s)[..n]).None? {
      JoinedIsNoLine(r, s, n);
    }
    forall r: Record<Doc> ensures c.digest(Body(Reread(c, r))) == c.digest(Body(r)) { DigestIsPlain(hash, r); }
    forall d: Doc ensures c.readBack(c.readBack(d)) == c.readBack(d) { UnsignValid(d); }
  }

  lemma DigestIsPlain(hash: string -> string, r: Record<Doc>)
    ensures hash(HashedText(Body(Plain(r)))) == hash(HashedText(Body(r)))
  {
    HashedTextIsPlain(Body(r));
    assert Body(Plain(r)) == Plain(Body(r));
  }

  // ---------------------------------------------------------------- what the hash fixes

  lemma {:induction false} MeanOfMember(ms: seq<Member>, i: nat)
    requires DistinctKeys(ms) && i < |ms|
    ensures ms[i].key in MeanMembers(ms) && MeanMembers(ms)[ms[i].key] == Mean(ms[i].value)
  {
    if i > 0 { MeanOfMember(ms[1..], i - 1); }
  }

  lemma SameSortedText(fs: seq<Member>, gs: seq<Member>)
    requires Valid(Obj(fs)) && Valid(Obj(gs)) && Print(SortKeys(Obj(fs))) == Print(SortKeys(Obj(gs)))
    ensures DistinctKeys(fs) && DistinctKeys(gs) && MeanMembers(fs) == MeanMembers(gs)
  {
    hide Print, SortKeys;
    SortedTextIsMeaning(Obj(fs), Obj(gs));
  }

  lemma HashedMeans(r: Record<Doc>, s: Record<Doc>)
    requires HashedText(r) == HashedText(s)
    ensures DistinctKeys(Fields(r, HASHED)) && DistinctKeys(Fields(s, HASHED))
    ensures MeanMembers(Fields(r, HASHED)) == MeanMembers(Fields(s, HASHED))
  {
    hide Fields, HASHED, DistinctNames, Valid, Print, SortKeys, DistinctKeys, MeanMembers;
    HashedAreDistinct();
    FieldsValid(r, HASHED);
    FieldsValid(s, HASHED);
    SameSortedText(Fields(r, HASHED), Fields(s, HASHED));
  }

  /** Equal hashed texts have equal fields, up to the order of members and the sign of zero. */
  lemma HashedFieldsAgree(r: Record<Doc>, s: Record<Doc>, n: Name)
    requires HashedText(r) == HashedText(s) && n in HASHED && FieldOf(r, n).Some?
    ensures FieldOf(s, n).Some? && Mean(FieldOf(r, n).value) == Mean(FieldOf(s, n).value)
  {
    hide *;
    HashedMeans(r, s);
    var fs, gs := Fields(r, HASHED), Fields(s, HASHED);
    FieldsTo(r, HASHED, n);
    var i :| 0 <= i < |fs| && fs[i] == Member(Units(NameText(n)), FieldOf(r, n).value);
    MeanOfMember(fs, i);
    MeanKeys(gs, fs[i].key);
    var k := MemberAt(gs, fs[i].key);
    MeanOfMember(gs, k);
    assert gs[k] in gs;
    FieldsFrom(s, HASHED, gs[k]);
    var m :| m in HASHED && gs[k].key == Units(NameText(m)) && FieldOf(s, m) == Some(gs[k].value);
    NamesDiffer(m, n);
  }

  lemma MemberAt(ms: seq<Member>, key: JsString) returns (k: nat)
    requires HasKey(ms, key)
    ensures k < |ms| && ms[k].key == key
  {
    k :| 0 <= k < |ms| && ms[k].key == key;
  }

  lemma HashedTextInjective(r: Record<Doc>, s: Record<Doc>)
    requires HashedText(r) == HashedText(s) && r.recordHash == s.recordHash
    ensures Meant((d: Doc) => Mean(d), r) == Meant((d: Doc) => Mean(d), s)
  {
    forall n | n in HASHED ensures SameMeaning(r, s, n) {
      if FieldOf(r, n).Some? { HashedFieldsAgree(r, s, n); }
      if FieldOf(s, n).Some? { HashedFieldsAgree(s, r, n); }
    }
    assert SchemaVersion in HASHED && Sequence in HASHED && Kind in HASHED && ExperimentId in HASHED && RunId in HASHED;
    assert AttemptId in HASHED && Epoch in HASHED && Payload in HASHED && PreviousHash in HASHED;
    hide HASHED, HashedText;
    MeaningsAgree(r, s);
  }

  predicate SameMeaning(r: Record<Doc>, s: Record<Doc>, n: Name) {
    FieldOf(r, n).Some? == FieldOf(s, n).Some? && (FieldOf(r, n).Some? ==> Mean(FieldOf(r, n).value) == Mean(FieldOf(s, n).value))
  }

  lemma MeaningsAgree(r: Record<Doc>, s: Record<Doc>)
    requires SameMeaning(r, s, SchemaVersion) && SameMeaning(r, s, Sequence) && SameMeaning(r, s, Kind)
    requires SameMeaning(r, s, ExperimentId) && SameMeaning(r, s, RunId) && SameMeaning(r, s, AttemptId)
    requires SameMeaning(r, s, Epoch) && SameMeaning(r, s, Payload) && SameMeaning(r, s, PreviousHash)
    ensures r.schemaVersion == s.schemaVersion && r.sequence == s.sequence && r.kind == s.kind
    ensures r.experimentId == s.experimentId && r.runId == s.runId && r.attemptId == s.attemptId && r.epoch == s.epoch
    ensures Mean(r.payload) == Mean(s.payload) && r.previousHash == s.previousHash
  {
    hide Mean, Units, IntNumber;
    WholeMeans(r.schemaVersion, s.schemaVersion);
    WholeMeans(r.sequence, s.sequence);
    TextMeans(r.kind, s.kind);
    TextMeans(r.experimentId, s.experimentId);
    TextMeans(r.previousHash, s.previousHash);
    if r.runId.Some? { TextMeans(r.runId.value, s.runId.value); }
    if r.attemptId.Some? { TextMeans(r.attemptId.value, s.attemptId.value); }
    if r.epoch.Some? { WholeMeans(r.epoch.value, s.epoch.value); }
  }

  lemma WholeMeans(m: int, n: int)
    ensures Mean(WholeValue(m)) == Mean(WholeValue(n)) ==> m == n
  {
    if Mean(WholeValue(m)) == Mean(WholeValue(n)) { IntNumberInjective(m, n); }
  }

  lemma TextMeans(s: string, t: string)
    ensures Mean(TextValue(s)) == Mean(TextValue(t)) ==> s == t
  {
    if Mean(TextValue(s)) == Mean(TextValue(t)) { UnitsInjective(s, t); }
  }

  /** An injective hash makes the chain of JSON lines collision-free, up to what a payload means. */
  lemma JsonHashIsCollisionFree(hash: string -> string)
    requires forall s, t :: hash(s) == hash(t) ==> s == t
    requires forall s :: hash(s) != GENESIS
    ensures CollisionFree(JsonCodec(hash), (d: Doc) => Mean(d))
  {
    var c := JsonCodec(hash);
    forall r: Record<Doc>, s: Record<Doc> | c.digest(Body(r)) == c.digest(Body(s))
      ensures Meant((d: Doc) => Mean(d), Body(r)) == Meant((d: Doc) => Mean(d), Body(s))
    {
      HashedTextInjective(Body(r), Body(s));
    }
    forall r: Record<Doc> ensures c.digest(Body(r)) != GENESIS {
      assert c.digest(Body(r)) == hash(HashedText(Body(r)));
    }
  }
}
