/** JSON values and the text that `JSON.stringify` writes for them (RFC 8259). */
module Json {
  import opened Text

  // ---------------------------------------------------------------- values

  /**
   * A finite number. A nonzero one is given by its sign, its shortest decimal digits and the
   * position of the decimal point (0.d1d2d3... times ten to the `point`), the triple from which
   * ECMA-262's Number::toString prints it.
   */
  datatype Number =
    | Zero(negative: bool)
    | Finite(negative: bool, digits: seq<Digit>, point: int)
  {
    ghost predicate Valid() {
      Finite? ==> |digits| > 0 && digits[0] != 0 && digits[|digits| - 1] != 0
    }
  }

  /** A JSON value; an object keeps its members in the order in which they are enumerated. */
  datatype Json =
    | Null
    | Bool(b: bool)
    | Num(n: Number)
    | Str(s: JsString)
    | Arr(items: seq<Json>)
    | Obj(members: seq<Member>)

  datatype Member = Member(key: JsString, value: Json)

  ghost predicate DistinctKeys(ms: seq<Member>) {
    forall i, j :: 0 <= i < j < |ms| ==> ms[i].key != ms[j].key
  }

  /** Every number is in shortest form and no object repeats a key. */
  ghost predicate Valid(j: Json) {
    match j
    case Num(n) => n.Valid()
    case Arr(items) => forall i :: 0 <= i < |items| ==> Valid(items[i])
    case Obj(ms) => DistinctKeys(ms) && forall i :: 0 <= i < |ms| ==> Valid(ms[i].value)
    case _ => true
  }

  // ---------------------------------------------------------------- numbers

  function DigitsText(ds: seq<Digit>): (t: string)
    ensures |t| == |ds|
    ensures forall i :: 0 <= i < |ds| ==> t[i] == DigitChar(ds[i])
  {
    seq(|ds|, i requires 0 <= i < |ds| => DigitChar(ds[i]))
  }

  function Zeros(n: nat): (t: string)
    ensures |t| == n && forall i :: 0 <= i < n ==> t[i] == '0'
  {
    seq(n, _ => '0')
  }

  /** The four layouts of Number::toString for a positive number. */
  function Magnitude(ds: seq<Digit>, point: int): string
    requires |ds| > 0
  {
    var t, k := DigitsText(ds), |ds|;
    if k <= point <= 21 then t + Zeros(point - k)
    else if 0 < point <= 21 then t[..point] + "." + t[point..]
    else if -6 < point <= 0 then "0." + Zeros(-point) + t
    else Mantissa(t) + "e" + Exponent(point - 1)
  }

  function Mantissa(t: string): string
    requires |t| > 0
  {
    if |t| == 1 then t else t[..1] + "." + t[1..]
  }

  function Exponent(e: int): string {
    if e >= 0 then "+" + Decimal(e) else "-" + Decimal(-e)
  }

  function NumberText(n: Number): string {
    match n
    case Zero(_) => "0"
    case Finite(negative, ds, point) =>
      if |ds| == 0 then "0"  // not a valid number
      else (if negative then "-" else "") + Magnitude(ds, point)
  }

  // ---------------------------------------------------------------- strings

  function HexChar(h: int): char
    requires 0 <= h < 16
  {
    if h < 10 then ('0' as int + h) as char else ('a' as int + h - 10) as char
  }

  function Hex4(u: CodeUnit): (t: string)
    ensures |t| == 4
  {
    var high := u / 16 / 16;
    [HexChar(high / 16), HexChar(high % 16), HexChar(u / 16 % 16), HexChar(u % 16)]
  }

  predicate HighSurrogate(u: CodeUnit) { 0xD800 <= u < 0xDC00 }

  predicate LowSurrogate(u: CodeUnit) { 0xDC00 <= u < 0xE000 }

  function PairChar(high: CodeUnit, low: CodeUnit): char
    requires HighSurrogate(high) && LowSurrogate(low)
  {
    (0x1_0000 + (high - 0xD800) * 0x400 + (low - 0xDC00)) as char
  }

  /** One code unit outside a surrogate pair: RFC 8259 section 7, lone surrogates escaped. */
  function UnitText(u: CodeUnit): (t: string)
    ensures |t| > 0
  {
    if u == 0x22 then "\\\""
    else if u == 0x5C then "\\\\"
    else if u == 0x08 then "\\b"
    else if u == 0x0C then "\\f"
    else if u == 0x0A then "\\n"
    else if u == 0x0D then "\\r"
    else if u == 0x09 then "\\t"
    else if u < 0x20 || HighSurrogate(u) || LowSurrogate(u) then "\\u" + Hex4(u)
    else [u as char]
  }

  /** The characters between the quotes. */
  function Escaped(s: JsString): string {
    if s == [] then ""
    else if |s| > 1 && HighSurrogate(s[0]) && LowSurrogate(s[1]) then
      [PairChar(s[0], s[1])] + Escaped(s[2..])
    else UnitText(s[0]) + Escaped(s[1..])
  }

  function Quote(s: JsString): string {
    "\"" + Escaped(s) + "\""
  }

  // ---------------------------------------------------------------- values as text

  function Print(j: Json): string
    decreases j
  {
    match j
    case Null => "null"
    case Bool(b) => if b then "true" else "false"
    case Num(n) => NumberText(n)
    case Str(s) => Quote(s)
    case Arr(items) => "[" + PrintItems(items) + "]"
    case Obj(ms) => "{" + PrintMembers(ms) + "}"
  }

  function PrintItems(items: seq<Json>): string
    decreases items
  {
    if items == [] then ""
    else Print(items[0]) + (if |items| > 1 then "," + PrintItems(items[1..]) else "")
  }

  function PrintMembers(ms: seq<Member>): string
    decreases ms
  {
    if ms == [] then ""
    else Quote(ms[0].key) + ":" + Print(ms[0].value)
         + (if |ms| > 1 then "," + PrintMembers(ms[1..]) else "")
  }

  // ---------------------------------------------------------------- reading numbers

  predicate NumberChar(c: char) {
    '0' <= c <= '9' || c == '-' || c == '+' || c == '.' || c == 'e'
  }

  /** What may follow a value inside an array or an object, or nothing at all. */
  predicate Stop(x: string) {
    x == "" || x[0] in {',', ']', '}'}
  }

  ghost predicate Shortest(ds: seq<Digit>) {
    |ds| > 0 && ds[0] != 0 && ds[|ds| - 1] != 0
  }

  ghost predicate AllNumberChars(t: string) {
    forall i :: 0 <= i < |t| ==> NumberChar(t[i])
  }

  /** Minus zero prints as zero; everything else keeps its identity. */
  function Unsigned(n: Number): Number {
    if n.Zero? then Zero(false) else n
  }

  lemma MagnitudeShape(ds: seq<Digit>, point: int)
    requires |ds| > 0
    ensures var t := Magnitude(ds, point); |t| > 0 && AllNumberChars(t) && '0' <= t[0] <= '9'
  {
    var t, k := DigitsText(ds), |ds|;
    DigitsShape(ds);
    if k <= point <= 21 {
      ShapesJoin(t, Zeros(point - k));
    } else if 0 < point <= 21 {
      ShapesJoin(t[..point], ".");
      ShapesJoin(t[..point] + ".", t[point..]);
    } else if -6 < point <= 0 {
      ShapesJoin("0.", Zeros(-point));
      ShapesJoin("0." + Zeros(-point), t);
    } else {
      if k > 1 {
        ShapesJoin(t[..1], ".");
        ShapesJoin(t[..1] + ".", t[1..]);
      }
      ExponentShape(point - 1);
      ShapesJoin(Mantissa(t), "e");
      ShapesJoin(Mantissa(t) + "e", Exponent(point - 1));
    }
    hide AllNumberChars, DigitsText, Zeros, Exponent, Mantissa;
  }

  lemma ShapesJoin(a: string, b: string)
    requires AllNumberChars(a) && AllNumberChars(b)
    ensures AllNumberChars(a + b) && (a != "" ==> (a + b)[0] == a[0])
  {
    hide NumberChar;
  }

  lemma DigitsShape(ds: seq<Digit>)
    ensures AllNumberChars(DigitsText(ds)) && forall i :: 0 <= i < |ds| ==> '0' <= DigitsText(ds)[i] <= '9'
  {
  }

  lemma ExponentShape(e: int)
    ensures AllNumberChars(Exponent(e))
  {
    ShapesJoin(if e >= 0 then "+" else "-", Decimal(if e >= 0 then e else -e));
  }

  lemma NumberTextShape(n: Number)
    requires n.Valid()
    ensures var t := NumberText(n);
      && |t| > 0 && AllNumberChars(t) && (t[0] == '-' || '0' <= t[0] <= '9')
  {
    if n.Finite? { MagnitudeShape(n.digits, n.point); }
  }

  predicate PairAt(s: JsString) {
    |s| > 1 && HighSurrogate(s[0]) && LowSurrogate(s[1])
  }

  /** The text of the first code point of a string, and the code units it stands for. */
  function FirstText(s: JsString): (t: string)
    requires s != []
    ensures |t| > 0
  {
    if PairAt(s) then [PairChar(s[0], s[1])] else UnitText(s[0])
  }

  function FirstUnits(s: JsString): (n: nat)
    requires s != []
    ensures 0 < n <= |s|
  {
    if PairAt(s) then 2 else 1
  }

  lemma FirstIsNotQuote(s: JsString, x: string)
    requires s != []
    ensures FirstText(s)[0] != '"'
    ensures Escaped(s) + x == FirstText(s) + (Escaped(s[FirstUnits(s)..]) + x)
  {
    assert Escaped(s) == FirstText(s) + Escaped(s[FirstUnits(s)..]);
  }

  // ---------------------------------------------------------------- reading values

  /** Minus zero, the one number that does not survive printing, replaced by zero. */
  function Unsign(j: Json): Json
    decreases j
  {
    match j
    case Num(n) => Num(Unsigned(n))
    case Arr(items) => Arr(UnsignItems(items))
    case Obj(ms) => Obj(UnsignMembers(ms))
    case _ => j
  }

  function UnsignItems(items: seq<Json>): (r: seq<Json>)
    ensures |r| == |items|
    ensures forall i :: 0 <= i < |items| ==> r[i] == Unsign(items[i])
    decreases items
  {
    if items == [] then [] else [Unsign(items[0])] + UnsignItems(items[1..])
  }

  function UnsignMembers(ms: seq<Member>): (r: seq<Member>)
    ensures |r| == |ms|
    ensures forall i :: 0 <= i < |ms| ==> r[i] == Member(ms[i].key, Unsign(ms[i].value))
    decreases ms
  {
    if ms == [] then [] else [Member(ms[0].key, Unsign(ms[0].value))] + UnsignMembers(ms[1..])
  }

  ghost predicate HeadOf(j: Json, c: char) {
    match j
    case Null => c == 'n'
    case Bool(b) => c == if b then 't' else 'f'
    case Num(_) => c == '-' || '0' <= c <= '9'
    case Str(_) => c == '"'
    case Arr(_) => c == '['
    case Obj(_) => c == '{'
  }

  /** The first character of a value tells its kind. */
  lemma PrintHead(j: Json)
    requires Valid(j)
    ensures |Print(j)| > 0 && HeadOf(j, Print(j)[0])
  {
    if j.Num? { NumberTextShape(j.n); }
  }

  /** What follows the first element of a list: its other elements and the closing bracket. */
  function AfterFirst(more: bool, rest: string, close: string): (t: string)
    requires |close| > 0 && close[0] in {']', '}'}
    ensures Stop(t) && t != "" && (t[0] == ',' <==> more)
  {
    if more then "," + (rest + close) else close
  }

  lemma TailText(more: bool, rest: string, close: string)
    requires |close| > 0 && close[0] in {']', '}'}
    ensures (if more then "," + rest else "") + close == AfterFirst(more, rest, close)
  {
  }

  lemma Assoc(a: string, b: string, c: string)
    ensures a + b + c == a + (b + c)
  {
  }

  lemma Regroup(a: string, b: string, c: string, d: string, e: string)
    ensures a + b + c + d + e == a + (b + (c + (d + e)))
  {
  }

  lemma PrintItemsFirst(items: seq<Json>, close: string)
    requires items != [] && |close| > 0 && close[0] in {']', '}'}
    ensures PrintItems(items) + close == Print(items[0]) + AfterFirst(|items| > 1, PrintItems(items[1..]), close)
  {
    var tail := if |items| > 1 then "," + PrintItems(items[1..]) else "";
    assert PrintItems(items) == Print(items[0]) + tail;
    TailText(|items| > 1, PrintItems(items[1..]), close);
    Assoc(Print(items[0]), tail, close);
  }

  lemma PrintMembersFirst(ms: seq<Member>, close: string)
    requires ms != [] && |close| > 0 && close[0] in {']', '}'}
    ensures PrintMembers(ms) + close
         == Quote(ms[0].key) + (":" + (Print(ms[0].value) + AfterFirst(|ms| > 1, PrintMembers(ms[1..]), close)))
  {
    var k, v := Quote(ms[0].key), Print(ms[0].value);
    var tail := if |ms| > 1 then "," + PrintMembers(ms[1..]) else "";
    assert PrintMembers(ms) == k + ":" + v + tail;
    TailText(|ms| > 1, PrintMembers(ms[1..]), close);
    Regroup(k, ":", v, tail, close);
  }
}
