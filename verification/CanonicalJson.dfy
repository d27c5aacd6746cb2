/**
 * Canonical texts: the receipt printer `canonicalJson`, the journal's hash input and its line
 * printer, and what a JavaScript value becomes when it is written as JSON and read again.
 */
module CanonicalJson {
  import opened Wrappers
  import opened Text
  import opened Json
  import opened JsonReader

  /** A JavaScript value as these printers meet it. `Other` is a function, a symbol or the like. */
  datatype Value =
    | Undefined
    | Other
    | NonFinite
    | Scalar(json: Json)  // null, a boolean, a finite number or a string
    | List(items: seq<Value>)
    | Record(fields: seq<Field>)

  datatype Field = Field(key: JsString, value: Value)

  ghost predicate WellFormed(v: Value) {
    match v
    case Scalar(j) => Valid(j) && !j.Arr? && !j.Obj?
    case List(items) => forall i :: 0 <= i < |items| ==> WellFormed(items[i])
    case Record(fs) =>
      && (forall i, j :: 0 <= i < j < |fs| ==> fs[i].key != fs[j].key)
      && (forall i :: 0 <= i < |fs| ==> WellFormed(fs[i].value))
    case _ => true
  }

  // ---------------------------------------------------------------- JSON.stringify

  /** The JSON that `JSON.stringify` writes for a value that is not undefined itself. */
  function Settle(v: Value): Json
    decreases v
  {
    match v
    case Undefined => Null
    case Other => Null
    case NonFinite => Null
    case Scalar(j) => j
    case List(items) => Arr(SettleItems(items))
    case Record(fs) => Obj(SettleFields(fs))
  }

  function SettleItems(items: seq<Value>): (r: seq<Json>)
    ensures |r| == |items|
    ensures forall i :: 0 <= i < |items| ==> r[i] == Settle(items[i])
    decreases items
  {
    if items == [] then [] else [Settle(items[0])] + SettleItems(items[1..])
  }

  predicate Kept(v: Value) { !v.Undefined? && !v.Other? }

  function SettleFields(fs: seq<Field>): seq<Member>
    decreases fs
  {
    if fs == [] then []
    else (if Kept(fs[0].value) then [Member(fs[0].key, Settle(fs[0].value))] else []) + SettleFields(fs[1..])
  }

  // ---------------------------------------------------------------- canonicalJson

  /** `canonicalJson` refuses what JSON.stringify leaves out, except an undefined member. */
  predicate Refused(v: Value)
    decreases v
  {
    match v
    case Undefined => true
    case Other => true
    case List(items) => exists i :: 0 <= i < |items| && Refused(items[i])
    case Record(fs) => exists i :: 0 <= i < |fs| && !fs[i].value.Undefined? && Refused(fs[i].value)
    case _ => false
  }

  /** Keys are compared by code unit, a prefix before its extensions. */
  predicate KeyLess(a: JsString, b: JsString) {
    if b == [] then false
    else if a == [] then true
    else if a[0] == b[0] then KeyLess(a[1..], b[1..])
    else a[0] < b[0]
  }

  function Insert(m: Member, ms: seq<Member>): seq<Member> {
    if ms == [] || KeyLess(m.key, ms[0].key) then [m] + ms else [ms[0]] + Insert(m, ms[1..])
  }

  function Sort(ms: seq<Member>): seq<Member> {
    if ms == [] then [] else Insert(ms[0], Sort(ms[1..]))
  }

  /** The value with the members of every object sorted by key. */
  function SortKeys(j: Json): Json
    decreases j
  {
    match j
    case Arr(items) => Arr(SortItems(items))
    case Obj(ms) => Obj(Sort(SortValues(ms)))
    case _ => j
  }

  function SortItems(items: seq<Json>): (r: seq<Json>)
    ensures |r| == |items|
    ensures forall i :: 0 <= i < |items| ==> r[i] == SortKeys(items[i])
    decreases items
  {
    if items == [] then [] else [SortKeys(items[0])] + SortItems(items[1..])
  }

  function SortValues(ms: seq<Member>): (r: seq<Member>)
    ensures |r| == |ms|
    ensures forall i :: 0 <= i < |ms| ==> r[i] == Member(ms[i].key, SortKeys(ms[i].value))
    decreases ms
  {
    if ms == [] then [] else [Member(ms[0].key, SortKeys(ms[0].value))] + SortValues(ms[1..])
  }

  datatype Printed = Text(text: string) | NotJson

  function Canonical(v: Value): Printed {
    if Refused(v) then NotJson else Text(Print(SortKeys(Settle(v))))
  }

  // ---------------------------------------------------------------- meaning

  /** A JSON value without the order of members and without the sign of zero. */
  datatype Meaning =
    | MNull
    | MBool(b: bool)
    | MNum(n: Number)
    | MStr(s: JsString)
    | MArr(items: seq<Meaning>)
    | MObj(fields: map<JsString, Meaning>)

  function Mean(j: Json): Meaning
    decreases j
  {
    match j
    case Null => MNull
    case Bool(b) => MBool(b)
    case Num(n) => MNum(Unsigned(n))
    case Str(s) => MStr(s)
    case Arr(items) => MArr(MeanItems(items))
    case Obj(ms) => MObj(MeanMembers(ms))
  }

  function MeanItems(items: seq<Json>): (r: seq<Meaning>)
    ensures |r| == |items|
    ensures forall i :: 0 <= i < |items| ==> r[i] == Mean(items[i])
    decreases items
  {
    if items == [] then [] else [Mean(items[0])] + MeanItems(items[1..])
  }

  function MeanMembers(ms: seq<Member>): map<JsString, Meaning>
    decreases ms
  {
    if ms == [] then map[] else MeanMembers(ms[1..])[ms[0].key := Mean(ms[0].value)]
  }

  // ---------------------------------------------------------------- the key order

  lemma {:induction false} KeyLessTotal(a: JsString, b: JsString)
    ensures a == b || KeyLess(a, b) || KeyLess(b, a)
    ensures !(KeyLess(a, b) && KeyLess(b, a)) && !KeyLess(a, a)
  {
    if a != [] {
      if b == [] || a[0] != b[0] {
        KeyLessTotal(a[1..], a[1..]);
      } else {
        KeyLessTotal(a[1..], b[1..]);
        if a[1..] == b[1..] { assert a == [a[0]] + a[1..] && b == [b[0]] + b[1..]; }
        KeyLessTotal(a[1..], a[1..]);
      }
    }
  }

  lemma {:induction false} KeyLessTransitive(a: JsString, b: JsString, c: JsString)
    requires KeyLess(a, b) && KeyLess(b, c)
    ensures KeyLess(a, c)
  {
    if a != [] && a[0] == b[0] == c[0] { KeyLessTransitive(a[1..], b[1..], c[1..]); }
  }

  ghost predicate Sorted(ms: seq<Member>) {
    forall i, j :: 0 <= i < j < |ms| ==> KeyLess(ms[i].key, ms[j].key)
  }

  ghost predicate Before(key: JsString, ms: seq<Member>) {
    forall i :: 0 <= i < |ms| ==> KeyLess(key, ms[i].key)
  }

  lemma {:induction false} InsertKeepsBefore(key: JsString, m: Member, ms: seq<Member>)
    requires KeyLess(key, m.key) && Before(key, ms)
    ensures Before(key, Insert(m, ms))
  {
    if !(ms == [] || KeyLess(m.key, ms[0].key)) { InsertKeepsBefore(key, m, ms[1..]); }
  }

  lemma {:induction false} InsertSorts(m: Member, ms: seq<Member>)
    requires Sorted(ms) && forall i :: 0 <= i < |ms| ==> ms[i].key != m.key
    ensures Sorted(Insert(m, ms))
  {
    if ms == [] {
    } else if KeyLess(m.key, ms[0].key) {
      forall i | 0 <= i < |ms| ensures KeyLess(m.key, ms[i].key) {
        if i > 0 { KeyLessTransitive(m.key, ms[0].key, ms[i].key); }
      }
    } else {
      KeyLessTotal(m.key, ms[0].key);
      InsertSorts(m, ms[1..]);
      InsertKeepsBefore(ms[0].key, m, ms[1..]);
    }
  }

  // ---------------------------------------------------------------- sorting keeps the meaning

  ghost predicate HasKey(ms: seq<Member>, key: JsString) {
    exists i :: 0 <= i < |ms| && ms[i].key == key
  }

  lemma {:induction false} MeanKeys(ms: seq<Member>, key: JsString)
    ensures key in MeanMembers(ms) <==> HasKey(ms, key)
  {
    if ms != [] {
      MeanKeys(ms[1..], key);
      HasKeyFirst(ms, key);
    }
  }

  lemma HasKeyFirst(ms: seq<Member>, key: JsString)
    requires ms != []
    ensures HasKey(ms, key) <==> ms[0].key == key || HasKey(ms[1..], key)
  {
    if HasKey(ms, key) {
      var i :| 0 <= i < |ms| && ms[i].key == key;
      assert i > 0 ==> ms[1..][i - 1].key == key;
    }
    if HasKey(ms[1..], key) {
      var i :| 0 <= i < |ms[1..]| && ms[1..][i].key == key;
      assert ms[i + 1].key == key;
    }
  }

  lemma {:induction false} InsertMeaning(m: Member, ms: seq<Member>)
    requires DistinctKeys(ms) && !HasKey(ms, m.key)
    ensures MeanMembers(Insert(m, ms)) == MeanMembers(ms)[m.key := Mean(m.value)]
    ensures |Insert(m, ms)| == |ms| + 1
  {
    if ms == [] || KeyLess(m.key, ms[0].key) {
      assert ([m] + ms)[1..] == ms;
    } else {
      assert ms[0].key != m.key;
      InsertMeaning(m, ms[1..]);
      assert ([ms[0]] + Insert(m, ms[1..]))[1..] == Insert(m, ms[1..]);
    }
  }

  lemma {:induction false} InsertMembers(m: Member, ms: seq<Member>)
    ensures forall x :: x in Insert(m, ms) <==> x == m || x in ms
  {
    if !(ms == [] || KeyLess(m.key, ms[0].key)) {
      InsertMembers(m, ms[1..]);
      assert ms == [ms[0]] + ms[1..];
    }
  }

  lemma {:induction false} SortSorts(ms: seq<Member>)
    requires DistinctKeys(ms)
    ensures Sorted(Sort(ms)) && MeanMembers(Sort(ms)) == MeanMembers(ms)
    ensures forall x :: x in Sort(ms) <==> x in ms
  {
    if ms != [] {
      var rest := Sort(ms[1..]);
      SortSorts(ms[1..]);
      forall i | 0 <= i < |rest| ensures rest[i].key != ms[0].key {
        assert rest[i] in ms[1..];
      }
      SortedKeysDiffer(rest);
      InsertSorts(ms[0], rest);
      InsertMeaning(ms[0], rest);
      InsertMembers(ms[0], rest);
      assert ms == [ms[0]] + ms[1..];
    }
  }

  lemma SortedKeysDiffer(ms: seq<Member>)
    requires Sorted(ms)
    ensures DistinctKeys(ms)
  {
    forall i, j | 0 <= i < j < |ms| ensures ms[i].key != ms[j].key {
      KeyLessTotal(ms[i].key, ms[i].key);
    }
  }

  /** Every object inside lists its members by key. */
  ghost predicate AllSorted(j: Json) {
    match j
    case Arr(items) => forall i :: 0 <= i < |items| ==> AllSorted(items[i])
    case Obj(ms) => Sorted(ms) && forall i :: 0 <= i < |ms| ==> AllSorted(ms[i].value)
    case _ => true
  }

  lemma {:induction false} SortKeysKeepsMeaning(j: Json)
    requires Valid(j)
    ensures Valid(SortKeys(j)) && AllSorted(SortKeys(j)) && Mean(SortKeys(j)) == Mean(j)
    decreases j
  {
    match j
    case Arr(items) =>
      forall i | 0 <= i < |items|
        ensures Valid(SortKeys(items[i])) && AllSorted(SortKeys(items[i]))
        ensures Mean(SortKeys(items[i])) == Mean(items[i])
      {
        SortKeysKeepsMeaning(items[i]);
      }
      assert MeanItems(SortItems(items)) == MeanItems(items);
    case Obj(ms) =>
      var vs := SortValues(ms);
      forall i | 0 <= i < |ms|
        ensures Valid(vs[i].value) && AllSorted(vs[i].value) && Mean(vs[i].value) == Mean(ms[i].value)
      {
        SortKeysKeepsMeaning(ms[i].value);
      }
      MeanMembersPointwise(vs, ms);
      assert DistinctKeys(vs);
      SortSorts(vs);
      SortedKeysDiffer(Sort(vs));
      forall i | 0 <= i < |Sort(vs)| ensures Valid(Sort(vs)[i].value) && AllSorted(Sort(vs)[i].value) {
        assert Sort(vs)[i] in vs;
      }
    case _ =>
  }

  lemma {:induction false} MeanMembersPointwise(a: seq<Member>, b: seq<Member>)
    requires |a| == |b|
    requires forall i :: 0 <= i < |a| ==> a[i].key == b[i].key && Mean(a[i].value) == Mean(b[i].value)
    ensures MeanMembers(a) == MeanMembers(b)
  {
    if a != [] { MeanMembersPointwise(a[1..], b[1..]); }
  }

  lemma {:induction false} UnsignKeepsMeaning(j: Json)
    ensures Mean(Unsign(j)) == Mean(j)
    decreases j
  {
    match j
    case Arr(items) =>
      forall i | 0 <= i < |items| ensures Mean(Unsign(items[i])) == Mean(items[i]) {
        UnsignKeepsMeaning(items[i]);
      }
      assert MeanItems(UnsignItems(items)) == MeanItems(items);
    case Obj(ms) =>
      forall i | 0 <= i < |ms| ensures Mean(Unsign(ms[i].value)) == Mean(ms[i].value) {
        UnsignKeepsMeaning(ms[i].value);
      }
      MeanMembersPointwise(UnsignMembers(ms), ms);
    case _ =>
  }

  // ---------------------------------------------------------------- same meaning, same text

  lemma {:induction false} SameMeaningSameText(a: Json, b: Json)
    requires Valid(a) && Valid(b) && AllSorted(a) && AllSorted(b) && Mean(a) == Mean(b)
    ensures Print(a) == Print(b)
    decreases a, 0
  {
    match a
    case Arr(items) =>
      forall i | 0 <= i < |items| ensures Mean(items[i]) == Mean(b.items[i]) {
        assert MeanItems(items)[i] == MeanItems(b.items)[i];
      }
      SameItems(items, b.items);
    case Obj(ms) => SameMembers(ms, b.members);
    case Num(n) =>
    case _ =>
  }

  lemma {:induction false} SameItems(a: seq<Json>, b: seq<Json>)
    requires |a| == |b|
    requires forall i :: 0 <= i < |a| ==>
      Valid(a[i]) && Valid(b[i]) && AllSorted(a[i]) && AllSorted(b[i]) && Mean(a[i]) == Mean(b[i])
    ensures PrintItems(a) == PrintItems(b)
    decreases a
  {
    if a != [] {
      SameMeaningSameText(a[0], b[0]);
      SameItems(a[1..], b[1..]);
    }
  }

  /** The least key comes first, and the other members say the rest. */
  lemma SortedFirst(ms: seq<Member>)
    requires Sorted(ms) && ms != []
    ensures forall k :: k in MeanMembers(ms) && k != ms[0].key ==> KeyLess(ms[0].key, k)
    ensures MeanMembers(ms[1..]) == MeanMembers(ms) - {ms[0].key}
  {
    forall k | k in MeanMembers(ms) && k != ms[0].key ensures KeyLess(ms[0].key, k) {
      MeanKeys(ms, k);
    }
    if HasKey(ms[1..], ms[0].key) { KeyLessTotal(ms[0].key, ms[0].key); }
    MeanKeys(ms[1..], ms[0].key);
    RemoveAdded(MeanMembers(ms[1..]), ms[0].key, Mean(ms[0].value));
  }

  lemma RemoveAdded<K, V>(m: map<K, V>, k: K, v: V)
    requires k !in m
    ensures m[k := v] - {k} == m
  {
  }

  lemma MeanEmpty(ms: seq<Member>)
    ensures MeanMembers(ms) == map[] <==> ms == []
  {
    if ms != [] { assert ms[0].key in MeanMembers(ms); }
  }

  lemma {:induction false} SameMembers(a: seq<Member>, b: seq<Member>)
    requires Sorted(a) && Sorted(b) && MeanMembers(a) == MeanMembers(b)
    requires forall i :: 0 <= i < |a| ==> Valid(a[i].value) && AllSorted(a[i].value)
    requires forall i :: 0 <= i < |b| ==> Valid(b[i].value) && AllSorted(b[i].value)
    ensures PrintMembers(a) == PrintMembers(b)
    decreases a
  {
    MeanEmpty(a);
    MeanEmpty(b);
    if a != [] {
      SortedFirst(a);
      SortedFirst(b);
      assert a[0].key in MeanMembers(b) && b[0].key in MeanMembers(a);
      KeyLessTotal(a[0].key, b[0].key);
      assert MeanMembers(a)[a[0].key] == Mean(a[0].value) == Mean(b[0].value);
      SameMeaningSameText(a[0].value, b[0].value);
      SameMembers(a[1..], b[1..]);
      MeanEmpty(a[1..]);
      MeanEmpty(b[1..]);
    }
  }

  // ---------------------------------------------------------------- main results

  lemma {:induction false} SettleValid(v: Value)
    requires WellFormed(v)
    ensures Valid(Settle(v))
    decreases v
  {
    match v
    case List(items) =>
      forall i | 0 <= i < |items| ensures Valid(Settle(items[i])) { SettleValid(items[i]); }
    case Record(fs) => SettleFieldsValid(fs);
    case _ =>
  }

  lemma {:induction false} SettleKeys(fs: seq<Field>, m: Member)
    requires m in SettleFields(fs)
    ensures exists f :: f in fs && f.key == m.key
  {
    if !(Kept(fs[0].value) && m == Member(fs[0].key, Settle(fs[0].value))) { SettleKeys(fs[1..], m); }
  }

  lemma {:induction false} SettleFieldsValid(fs: seq<Field>)
    requires forall i, j :: 0 <= i < j < |fs| ==> fs[i].key != fs[j].key
    requires forall i :: 0 <= i < |fs| ==> WellFormed(fs[i].value)
    ensures Valid(Obj(SettleFields(fs)))
    decreases fs
  {
    if fs != [] {
      SettleFieldsValid(fs[1..]);
      SettleValid(fs[0].value);
      var rest := SettleFields(fs[1..]);
      forall i | 0 <= i < |rest| ensures rest[i].key != fs[0].key { SettleKeys(fs[1..], rest[i]); }
    }
  }

  /**
   * Canonical texts name meanings: two well-formed values print the same receipt text exactly
   * when their JSON is equal up to the order of members at every level and the sign of zero.
   */
  lemma CanonicalIsInjective(v: Value, w: Value)
    requires WellFormed(v) && WellFormed(w) && Canonical(v).Text? && Canonical(w).Text?
    ensures Canonical(v) == Canonical(w) <==> Mean(Settle(v)) == Mean(Settle(w))
  {
    var a, b := Settle(v), Settle(w);
    SettleValid(v);
    SettleValid(w);
    SortedTextIsMeaning(a, b);
  }

  lemma SortedTextIsMeaning(a: Json, b: Json)
    requires Valid(a) && Valid(b)
    ensures Print(SortKeys(a)) == Print(SortKeys(b)) <==> Mean(a) == Mean(b)
  {
    SortKeysKeepsMeaning(a);
    SortKeysKeepsMeaning(b);
    var p, q := SortKeys(a), SortKeys(b);
    if Print(p) == Print(q) {
      PrintUnique(p, q, "", "");
      UnsignKeepsMeaning(p);
      UnsignKeepsMeaning(q);
    } else if Mean(a) == Mean(b) {
      SameMeaningSameText(p, q);
    }
  }

  /** The text of a record is the list of its kept fields by key, each with its own canonical text. */
  lemma CanonicalRecord(fs: seq<Field>)
    requires WellFormed(Record(fs)) && Canonical(Record(fs)).Text?
    ensures var ms := Sort(SortValues(SettleFields(fs)));
      && Canonical(Record(fs)).text == "{" + PrintMembers(ms) + "}"
      && Sorted(ms)
      && (forall m :: m in ms ==> exists f :: f in fs && FieldText(f, m))
      && (forall f :: f in fs && !f.value.Undefined? ==> exists m :: m in ms && FieldText(f, m))
  {
    SettleFieldsValid(fs);
    var vs := SettleFields(fs);
    var us := SortValues(vs);
    var ms := Sort(us);
    SortSorts(us);
    forall m | m in ms ensures exists f :: f in fs && FieldText(f, m) {
      var i :| 0 <= i < |us| && us[i] == m;
      SettledFrom(fs, vs[i]);
      var f :| f in fs && Kept(f.value) && vs[i] == Member(f.key, Settle(f.value));
      assert FieldText(f, m);
    }
    forall f | f in fs && !f.value.Undefined? ensures exists m :: m in ms && FieldText(f, m) {
      SettledTo(fs, f);
      var i :| 0 <= i < |vs| && vs[i] == Member(f.key, Settle(f.value));
      assert us[i] in ms && FieldText(f, us[i]);
    }
  }

  ghost predicate FieldText(f: Field, m: Member) {
    !Refused(f.value) && m.key == f.key && Text(Print(m.value)) == Canonical(f.value)
  }

  lemma {:induction false} SettledFrom(fs: seq<Field>, m: Member)
    requires m in SettleFields(fs) && !Refused(Record(fs))
    ensures exists f :: f in fs && Kept(f.value) && !Refused(f.value) && m == Member(f.key, Settle(f.value))
  {
    assert Refused(fs[0].value) && !fs[0].value.Undefined? ==> Refused(Record(fs));
    if !(Kept(fs[0].value) && m == Member(fs[0].key, Settle(fs[0].value))) {
      RefusedTail(fs);
      SettledFrom(fs[1..], m);
    }
  }

  lemma RefusedTail(fs: seq<Field>)
    requires fs != [] && !Refused(Record(fs))
    ensures !Refused(Record(fs[1..]))
  {
    forall i | 0 <= i < |fs[1..]| ensures fs[1..][i].value.Undefined? || !Refused(fs[1..][i].value) {
      assert fs[1..][i] == fs[i + 1];
    }
  }

  lemma {:induction false} SettledTo(fs: seq<Field>, f: Field)
    requires f in fs && !f.value.Undefined? && !Refused(Record(fs))
    ensures !Refused(f.value) && Member(f.key, Settle(f.value)) in SettleFields(fs)
  {
    assert Refused(fs[0].value) && !fs[0].value.Undefined? ==> Refused(Record(fs));
    if f != fs[0] {
      assert f in fs[1..];
      RefusedTail(fs);
      SettledTo(fs[1..], f);
    }
  }

  /**
   * The receipt text is the JSON of the value: a JSON reader finds in it a value of the same
   * meaning, with the members of every object in the order of their keys.
   */
  lemma CanonicalReadsBack(v: Value)
    requires WellFormed(v) && Canonical(v).Text?
    ensures var r := ReadJson(Canonical(v).text);
      r.Some? && Mean(r.value) == Mean(Settle(v)) && r.value == Unsign(SortKeys(Settle(v)))
  {
    SettleValid(v);
    SortKeysKeepsMeaning(Settle(v));
    ReadsBack(SortKeys(Settle(v)));
    UnsignKeepsMeaning(SortKeys(Settle(v)));
  }

  /** A non-finite number prints like null: the text does not name the value it came from. */
  lemma NonFiniteCollides()
    ensures Canonical(NonFinite) == Canonical(Scalar(Null)) && NonFinite != Scalar(Null)
  {
  }

  // ---------------------------------------------------------------- persisted values

  datatype Persisted = Stored(json: Json) | Unsupported

  /** `persistedJsonValue`: undefined becomes null, an undefined member goes, the rest must be JSON. */
  function Persist(v: Value): Persisted
    decreases v
  {
    match v
    case Undefined => Stored(Null)
    case Other => Unsupported
    case NonFinite => Unsupported
    case Scalar(j) => Stored(j)
    case List(items) =>
      if exists i :: 0 <= i < |items| && Persist(items[i]).Unsupported? then Unsupported
      else Stored(Arr(seq(|items|, i requires 0 <= i < |items| => Persist(items[i]).json)))
    case Record(fs) =>
      if exists i :: 0 <= i < |fs| && !fs[i].value.Undefined? && Persist(fs[i].value).Unsupported? then Unsupported
      else Stored(Obj(PersistFields(fs)))
  }

  function PersistFields(fs: seq<Field>): seq<Member>
    requires forall i :: 0 <= i < |fs| && !fs[i].value.Undefined? ==> Persist(fs[i].value).Stored?
    decreases fs
  {
    if fs == [] then []
    else (if fs[0].value.Undefined? then [] else [Member(fs[0].key, Persist(fs[0].value).json)]) + PersistFields(fs[1..])
  }

  /** What the journal keeps of a value is what `JSON.stringify` would have written of it. */
  lemma {:induction false} PersistSettles(v: Value)
    requires Persist(v).Stored?
    ensures Persist(v).json == Settle(v)
    decreases v
  {
    match v
    case List(items) =>
      forall i | 0 <= i < |items| ensures Persist(items[i]).json == Settle(items[i]) {
        PersistSettles(items[i]);
      }
      assert Persist(v).json.items == SettleItems(items);
    case Record(fs) => PersistFieldsSettle(fs);
    case _ =>
  }

  lemma {:induction false} PersistFieldsSettle(fs: seq<Field>)
    requires forall i :: 0 <= i < |fs| && !fs[i].value.Undefined? ==> Persist(fs[i].value).Stored?
    ensures PersistFields(fs) == SettleFields(fs)
    decreases fs
  {
    if fs != [] {
      if !fs[0].value.Undefined? { PersistSettles(fs[0].value); }
      PersistFieldsSettle(fs[1..]);
    }
  }

  lemma {:induction false} UnsignValid(j: Json)
    requires Valid(j)
    ensures Valid(Unsign(j)) && Unsign(Unsign(j)) == Unsign(j)
    decreases j
  {
    match j
    case Arr(items) =>
      forall i | 0 <= i < |items| ensures Valid(Unsign(items[i])) && Unsign(Unsign(items[i])) == Unsign(items[i]) {
        UnsignValid(items[i]);
      }
      assert UnsignItems(UnsignItems(items)) == UnsignItems(items);
    case Obj(ms) =>
      forall i | 0 <= i < |ms|
        ensures Valid(Unsign(ms[i].value)) && Unsign(Unsign(ms[i].value)) == Unsign(ms[i].value)
      {
        UnsignValid(ms[i].value);
      }
      assert UnsignMembers(UnsignMembers(ms)) == UnsignMembers(ms);
    case _ =>
  }

  /**
   * A persisted value is a fixed point of write-then-read except for the sign of zero, and the
   * text that is hashed (keys sorted) is a fixed point without exception.
   */
  lemma PersistedSurvivesTheFile(v: Value)
    requires WellFormed(v) && Persist(v).Stored?
    ensures var j := Persist(v).json;
      && ReadJson(Print(j)) == Some(Unsign(j))
      && ReadJson(Print(Unsign(j))) == Some(Unsign(j))
      && Print(SortKeys(Unsign(j))) == Print(SortKeys(j))
  {
    var j := Persist(v).json;
    PersistSettles(v);
    SettleValid(v);
    ReadsBack(j);
    UnsignValid(j);
    ReadsBack(Unsign(j));
    UnsignKeepsMeaning(j);
    SortedTextIsMeaning(Unsign(j), j);
  }

  /** Minus zero is the exception: the hash does not change, the value in memory does. */
  lemma MinusZeroReadsAsZero()
    ensures var j := Persist(Scalar(Num(Zero(true)))).json;
      ReadJson(Print(j)) == Some(Num(Zero(false))) && Num(Zero(false)) != j
  {
    ReadsBack(Num(Zero(true)));
  }
}
