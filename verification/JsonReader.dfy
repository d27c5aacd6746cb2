/** A reader of JSON texts by the grammar of RFC 8259, which knows nothing of the printer, and what it reads of printed texts. */
module JsonReader {
  import opened Wrappers
  import opened Text
  import opened Json

  /** What was read from the front of a text, and the text after it. */
  datatype Reading<+T> = Got(value: T, rest: string) | Bad

  // ---------------------------------------------------------------- numbers (section 6)

  predicate IsDigit(c: char) { '0' <= c <= '9' }

  function DigitOf(c: char): Digit
    requires IsDigit(c)
  {
    c as int - '0' as int
  }

  /** The length of the run of digits at the front. */
  function DigitRun(s: string): (n: nat)
    ensures n <= |s| && (forall i :: 0 <= i < n ==> IsDigit(s[i])) && (n < |s| ==> !IsDigit(s[n]))
  {
    if s == "" || !IsDigit(s[0]) then 0 else 1 + DigitRun(s[1..])
  }

  function DigitsIn(t: string): (ds: seq<Digit>)
    requires forall i :: 0 <= i < |t| ==> IsDigit(t[i])
    ensures |ds| == |t|
  {
    seq(|t|, i requires 0 <= i < |t| => DigitOf(t[i]))
  }

  /** The number that a row of decimal digits names. */
  function NatOf(ds: seq<Digit>): nat {
    if ds == [] then 0 else NatOf(ds[..|ds| - 1]) * 10 + ds[|ds| - 1]
  }

  /** `int`: a zero, or digits of which the first is none. */
  function ReadWhole(s: string): Reading<seq<Digit>> {
    var n := if s != "" && s[0] == '0' then 1 else DigitRun(s);
    if n == 0 then Bad else Got(DigitsIn(s[..n]), s[n..])
  }

  /** `frac`, or nothing. */
  function ReadFraction(s: string): Reading<seq<Digit>> {
    if s == "" || s[0] != '.' then Got([], s)
    else
      var n := DigitRun(s[1..]);
      if n == 0 then Bad else Got(DigitsIn(s[1..][..n]), s[1..][n..])
  }

  function Signed(negative: bool, n: int): int { if negative then -n else n }

  /** `exp`, or nothing. */
  function ReadExponent(s: string): Reading<int> {
    if s == "" || (s[0] != 'e' && s[0] != 'E') then Got(0, s)
    else
      var signed := |s| > 1 && (s[1] == '+' || s[1] == '-');
      var t := if signed then s[2..] else s[1..];
      var n := DigitRun(t);
      if n == 0 then Bad
      else
        Got(Signed(signed && s[1] == '-', NatOf(DigitsIn(t[..n]))), t[n..])
  }

  function TrimZeros(ds: seq<Digit>): seq<Digit> {
    if ds != [] && ds[|ds| - 1] == 0 then TrimZeros(ds[..|ds| - 1]) else ds
  }

  /** The number 0.d1d2d3... times ten to the `point`, in shortest form. */
  function Normal(negative: bool, ds: seq<Digit>, point: int): Number {
    if ds == [] then Zero(negative)
    else if ds[0] == 0 then Normal(negative, ds[1..], point - 1)
    else Finite(negative, TrimZeros(ds), point)
  }

  /** A number without its sign. */
  function ReadUnsigned(negative: bool, s: string): (r: Reading<Number>)
    ensures r.Got? ==> |r.rest| < |s|
  {
    match ReadWhole(s)
    case Bad => Bad
    case Got(whole, afterWhole) =>
      match ReadFraction(afterWhole)
      case Bad => Bad
      case Got(fraction, afterFraction) =>
        match ReadExponent(afterFraction)
        case Bad => Bad
        case Got(exponent, rest) => Got(Normal(negative, whole + fraction, |whole| + exponent), rest)
  }

  function ReadNumber(s: string): (r: Reading<Number>)
    ensures r.Got? ==> |r.rest| < |s|
  {
    if s != "" && s[0] == '-' then ReadUnsigned(true, s[1..]) else ReadUnsigned(false, s)
  }

  // ---------------------------------------------------------------- strings (section 7)

  /** What stands for a code unit after a backslash. */
  function Unescape(c: char): Option<CodeUnit> {
    match c
    case '"' => Some(0x22)
    case '\\' => Some(0x5C)
    case '/' => Some(0x2F)
    case 'b' => Some(0x08)
    case 'f' => Some(0x0C)
    case 'n' => Some(0x0A)
    case 'r' => Some(0x0D)
    case 't' => Some(0x09)
    case _ => None
  }

  function HexOf(c: char): Option<int> {
    if '0' <= c <= '9' then Some(c as int - '0' as int)
    else if 'a' <= c <= 'f' then Some(c as int - 'a' as int + 10)
    else if 'A' <= c <= 'F' then Some(c as int - 'A' as int + 10)
    else None
  }

  function ReadHex(s: string): Option<CodeUnit>
    requires |s| >= 4
  {
    var a, b, c, d := HexOf(s[0]), HexOf(s[1]), HexOf(s[2]), HexOf(s[3]);
    if a.None? || b.None? || c.None? || d.None? then None
    else
      var u := a.value * 0x1000 + b.value * 0x100 + c.value * 0x10 + d.value;
      if 0 <= u < 0x1_0000 then Some(u) else None
  }

  /** The first character of a string, escaped or not, as code units. */
  function ReadChar(s: string): (r: Reading<JsString>)
    requires s != ""
    ensures r.Got? ==> |r.rest| < |s|
  {
    if s[0] == '\\' then
      if |s| < 2 then Bad
      else if s[1] == 'u' then
        if |s| < 6 then Bad
        else
          match ReadHex(s[2..])
          case Some(u) => Got([u], s[6..])
          case None => Bad
      else
        match Unescape(s[1])
        case Some(u) => Got([u], s[2..])
        case None => Bad
    else if s[0] < ' ' then Bad
    else Got(Units([s[0]]), s[1..])
  }

  /** The rest of a string whose opening quote was read. */
  function ReadString(s: string): (r: Reading<JsString>)
    ensures r.Got? ==> |r.rest| < |s|
    decreases |s|
  {
    if s == "" then Bad
    else if s[0] == '"' then Got([], s[1..])
    else
      match ReadChar(s)
      case Bad => Bad
      case Got(us, rest) =>
        match ReadString(rest)
        case Got(more, after) => Got(us + more, after)
        case Bad => Bad
  }

  // ---------------------------------------------------------------- values (sections 2 to 5)

  predicate IsBlank(c: char) { c == ' ' || c == '\t' || c == '\n' || c == '\r' }

  function Skip(s: string): (t: string)
    ensures |t| <= |s|
  {
    if s != "" && IsBlank(s[0]) then Skip(s[1..]) else s
  }

  function ReadWord(s: string, word: string, value: Json): (r: Reading<Json>)
    requires word != ""
    ensures r.Got? ==> |r.rest| < |s|
  {
    if word <= s then Got(value, s[|word|..]) else Bad
  }

  function ReadValue(s: string): (r: Reading<Json>)
    ensures r.Got? ==> |r.rest| < |s|
    decreases |s|, 0
  {
    if s == "" then Bad
    else if s[0] == 'n' then ReadWord(s, "null", Null)
    else if s[0] == 't' then ReadWord(s, "true", Bool(true))
    else if s[0] == 'f' then ReadWord(s, "false", Bool(false))
    else if s[0] == '"' then
      match ReadString(s[1..])
      case Got(text, rest) => Got(Str(text), rest)
      case Bad => Bad
    else if s[0] == '[' then ReadArray(s[1..])
    else if s[0] == '{' then ReadObject(s[1..])
    else
      match ReadNumber(s)
      case Got(n, rest) => Got(Num(n), rest)
      case Bad => Bad
  }

  /** The rest of an array whose opening bracket was read. */
  function ReadArray(s: string): (r: Reading<Json>)
    ensures r.Got? ==> |r.rest| < |s|
    decreases |s|, 4
  {
    var t := Skip(s);
    if t != "" && t[0] == ']' then Got(Arr([]), t[1..])
    else
      match ReadItems(t)
      case Got(items, rest) => Got(Arr(items), rest)
      case Bad => Bad
  }

  function ReadObject(s: string): (r: Reading<Json>)
    ensures r.Got? ==> |r.rest| < |s|
    decreases |s|, 4
  {
    var t := Skip(s);
    if t != "" && t[0] == '}' then Got(Obj([]), t[1..])
    else
      match ReadMembers(t)
      case Got(members, rest) => Got(Obj(members), rest)
      case Bad => Bad
  }

  /** A value with the blanks around it. */
  function ReadElement(s: string): (r: Reading<Json>)
    ensures r.Got? ==> |r.rest| < |s|
    decreases |s|, 1
  {
    match ReadValue(Skip(s))
    case Got(value, rest) => Got(value, Skip(rest))
    case Bad => Bad
  }

  /** The elements of an array up to its closing bracket; at least one. */
  function ReadItems(s: string): (r: Reading<seq<Json>>)
    ensures r.Got? ==> |r.rest| < |s|
    decreases |s|, 2
  {
    match ReadElement(s)
    case Bad => Bad
    case Got(value, rest) =>
      if rest == "" then Bad
      else if rest[0] == ']' then Got([value], rest[1..])
      else if rest[0] != ',' then Bad
      else
        match ReadItems(rest[1..])
        case Got(more, after) => Got([value] + more, after)
        case Bad => Bad
  }

  function ReadMember(s: string): (r: Reading<Member>)
    ensures r.Got? ==> |r.rest| < |s|
    decreases |s|, 2
  {
    var t := Skip(s);
    if t == "" || t[0] != '"' then Bad
    else
      match ReadString(t[1..])
      case Bad => Bad
      case Got(key, afterKey) =>
        var colon := Skip(afterKey);
        if colon == "" || colon[0] != ':' then Bad
        else
          match ReadElement(colon[1..])
          case Got(value, rest) => Got(Member(key, value), rest)
          case Bad => Bad
  }

  /** The members of an object up to its closing brace; at least one. */
  function ReadMembers(s: string): (r: Reading<seq<Member>>)
    ensures r.Got? ==> |r.rest| < |s|
    decreases |s|, 3
  {
    match ReadMember(s)
    case Bad => Bad
    case Got(member, rest) =>
      if rest == "" then Bad
      else if rest[0] == '}' then Got([member], rest[1..])
      else if rest[0] != ',' then Bad
      else
        match ReadMembers(rest[1..])
        case Got(more, after) => Got([member] + more, after)
        case Bad => Bad
  }

  /** A whole JSON text. */
  function ReadJson(text: string): Option<Json> {
    match ReadElement(text)
    case Got(value, rest) => if rest == "" then Some(value) else None
    case Bad => None
  }

  // ---------------------------------------------------------------- printed numbers

  ghost predicate AllDigits(t: string) { forall i :: 0 <= i < |t| ==> IsDigit(t[i]) }

  function NoughtsOf(n: nat): seq<Digit> { seq(n, (_: nat) => 0) }

  lemma {:induction false} RunEnds(t: string, x: string)
    requires AllDigits(t) && (x == "" || !IsDigit(x[0]))
    ensures DigitRun(t + x) == |t|
  {
    var n := DigitRun(t + x);
    assert forall i :: 0 <= i < |t| ==> (t + x)[i] == t[i];
    assert |t| < |t + x| ==> (t + x)[|t|] == x[0];
  }

  lemma DigitsRead(ds: seq<Digit>)
    ensures AllDigits(DigitsText(ds))
    ensures DigitsIn(DigitsText(ds)) == ds
  {
  }

  lemma {:induction false} DecimalRead(n: nat)
    ensures AllDigits(Decimal(n)) && NatOf(DigitsIn(Decimal(n))) == n
  {
    var t := Decimal(n);
    if n >= 10 {
      DecimalRead(n / 10);
      assert t[..|t| - 1] == Decimal(n / 10);
      assert DigitsIn(t)[..|t| - 1] == DigitsIn(Decimal(n / 10));
    } else {
      assert DigitsIn(t)[..0] == [];
    }
  }

  lemma {:induction false} TrimsZeros(ds: seq<Digit>, k: nat)
    requires ds != [] && ds[|ds| - 1] != 0
    ensures TrimZeros(ds + NoughtsOf(k)) == ds
  {
    if k == 0 {
      assert ds + NoughtsOf(k) == ds;
    } else {
      TrimsZeros(ds, k - 1);
      assert (ds + NoughtsOf(k))[..|ds| + k - 1] == ds + NoughtsOf(k - 1);
    }
  }

  /** Zeros in front move the point, zeros behind do nothing. */
  lemma {:induction false} NormalReads(negative: bool, front: nat, ds: seq<Digit>, back: nat, point: int)
    requires Shortest(ds)
    ensures Normal(negative, NoughtsOf(front) + ds + NoughtsOf(back), point + front) == Finite(negative, ds, point)
    decreases front
  {
    var all := NoughtsOf(front) + ds + NoughtsOf(back);
    if front == 0 {
      assert all == ds + NoughtsOf(back);
      TrimsZeros(ds, back);
    } else {
      NormalReads(negative, front - 1, ds, back, point);
      assert all[1..] == NoughtsOf(front - 1) + ds + NoughtsOf(back);
    }
  }

  /** What `x` starts with ends a number. */
  predicate Ends(x: string) { x == "" || (!IsDigit(x[0]) && x[0] != '.' && x[0] != 'e' && x[0] != 'E') }

  lemma WholeRead(t: string, x: string)
    requires |t| > 0 && AllDigits(t) && (t[0] == '0' ==> |t| == 1)
    requires x == "" || !IsDigit(x[0])
    ensures ReadWhole(t + x) == Got(DigitsIn(t), x)
  {
    RunEnds(t, x);
    assert (t + x)[0] == t[0] && (t + x)[..|t|] == t && (t + x)[|t|..] == x;
  }

  lemma FractionRead(t: string, x: string)
    requires |t| > 0 && AllDigits(t) && (x == "" || !IsDigit(x[0]))
    ensures ReadFraction("." + t + x) == Got(DigitsIn(t), x)
  {
    RunEnds(t, x);
    assert ("." + t + x)[1..] == t + x && (t + x)[..|t|] == t && (t + x)[|t|..] == x;
  }

  lemma ExponentParts(sign: char, t: string, x: string)
    requires (sign == '+' || sign == '-') && t != "" && AllDigits(t) && (x == "" || !IsDigit(x[0]))
    ensures ReadExponent("e" + [sign] + (t + x)) == Got(Signed(sign == '-', NatOf(DigitsIn(t))), x)
  {
    RunEnds(t, x);
    hide NatOf, DigitRun;
    var s := "e" + [sign] + (t + x);
    assert s[1] == sign && s[2..] == t + x;
    assert (t + x)[..|t|] == t && (t + x)[|t|..] == x;
  }

  lemma ExponentRead(e: int, x: string)
    requires x == "" || !IsDigit(x[0])
    ensures ReadExponent("e" + Exponent(e) + x) == Got(e, x)
  {
    var n, sign := if e >= 0 then e else -e, if e >= 0 then '+' else '-';
    DecimalRead(n);
    var t := Decimal(n);
    assert Exponent(e) == [sign] + t && Signed(sign == '-', n) == e;
    hide *;
    ExponentParts(sign, t, x);
    Regrouped("e", [sign], t, x);
  }

  lemma Regrouped(a: string, b: string, c: string, x: string)
    ensures a + (b + c) + x == a + b + (c + x)
  {
  }

  lemma Grouped(a: string, b: string, c: string, x: string)
    ensures a + b + c + x == a + (b + c + x)
  {
  }

  /** A magnitude is read as its digits and its point. */
  lemma MagnitudeRead(negative: bool, ds: seq<Digit>, point: int, x: string)
    requires Shortest(ds) && Ends(x)
    ensures var m := Magnitude(ds, point); |m| > 0 && IsDigit(m[0])
    ensures ReadUnsigned(negative, Magnitude(ds, point) + x) == Got(Finite(negative, ds, point), x)
  {
    hide *;
    if |ds| <= point <= 21 {
      WholeLayout(negative, ds, point, x);
    } else if 0 < point <= 21 {
      PointedLayout(negative, ds, point, x);
    } else if -6 < point <= 0 {
      FractionLayout(negative, ds, point, x);
    } else {
      ScientificLayout(negative, ds, point, x);
    }
  }


  lemma JustDigits(negative: bool, ds: seq<Digit>, point: int)
    requires Shortest(ds)
    ensures Normal(negative, ds, point) == Finite(negative, ds, point)
  {
  }

  lemma EndsWhole(x: string)
    requires Ends(x)
    ensures x == "" || !IsDigit(x[0])
  {
  }

  lemma PointIsNone(x: string)
    ensures !IsDigit(("." + x)[0])
  {
  }

  lemma NothingMore(x: string)
    requires Ends(x)
    ensures ReadFraction(x) == Got([], x) && ReadExponent(x) == Got(0, x)
  {
  }

  lemma Assembled(negative: bool, s: string, whole: seq<Digit>, s1: string, fraction: seq<Digit>, s2: string, e: int, x: string)
    requires ReadWhole(s) == Got(whole, s1) && ReadFraction(s1) == Got(fraction, s2) && ReadExponent(s2) == Got(e, x)
    ensures ReadUnsigned(negative, s) == Got(Normal(negative, whole + fraction, |whole| + e), x)
  {
    hide ReadWhole, ReadFraction, ReadExponent, Normal;
  }

  lemma WholeText(ds: seq<Digit>, point: int)
    requires Shortest(ds) && |ds| <= point <= 21
    ensures var m := Magnitude(ds, point);
      |m| > 0 && m[0] != '0' && AllDigits(m) && DigitsIn(m) == NoughtsOf(0) + ds + NoughtsOf(point - |ds|)
  {
    DigitsRead(ds);
    assert DigitsText(ds)[0] == DigitChar(ds[0]);
  }

  lemma WholeLayout(negative: bool, ds: seq<Digit>, point: int, x: string)
    requires Shortest(ds) && Ends(x) && |ds| <= point <= 21
    ensures |Magnitude(ds, point)| > 0 && IsDigit(Magnitude(ds, point)[0])
    ensures ReadUnsigned(negative, Magnitude(ds, point) + x) == Got(Finite(negative, ds, point), x)
  {
    var m := Magnitude(ds, point);
    WholeText(ds, point);
    assert IsDigit(m[0]);
    EndsWhole(x);
    hide *;
    WholeRead(m, x);
    NothingMore(x);
    NormalReads(negative, 0, ds, point - |ds|, point);
    assert DigitsIn(m) + [] == DigitsIn(m);
    Assembled(negative, m + x, DigitsIn(m), x, [], x, 0, x);
  }

  lemma PointedText(ds: seq<Digit>, point: int)
    requires Shortest(ds) && 0 < point < |ds| && point <= 21
    ensures var t := DigitsText(ds); var p, q := t[..point], t[point..];
      && Magnitude(ds, point) == p + "." + q && AllDigits(p) && AllDigits(q) && p[0] != '0'
      && DigitsIn(p) == ds[..point] && DigitsIn(q) == ds[point..]
  {
    DigitsRead(ds);
    assert DigitsText(ds)[0] == DigitChar(ds[0]);
  }

  lemma PointedLayout(negative: bool, ds: seq<Digit>, point: int, x: string)
    requires Shortest(ds) && Ends(x) && 0 < point < |ds| && point <= 21
    ensures |Magnitude(ds, point)| > 0 && IsDigit(Magnitude(ds, point)[0])
    ensures ReadUnsigned(negative, Magnitude(ds, point) + x) == Got(Finite(negative, ds, point), x)
  {
    var p, q := DigitsText(ds)[..point], DigitsText(ds)[point..];
    PointedText(ds, point);
    assert p != "" && IsDigit(p[0]) && q != "";
    JustDigits(negative, ds, point);
    assert ds[..point] + ds[point..] == ds;
    hide *;
    PartsRead(negative, p, q, x);
  }

  lemma PartsRead(negative: bool, p: string, q: string, x: string)
    requires p != "" && AllDigits(p) && (p[0] == '0' ==> |p| == 1) && q != "" && AllDigits(q) && Ends(x)
    ensures ReadUnsigned(negative, p + "." + q + x) == Got(Normal(negative, DigitsIn(p) + DigitsIn(q), |p|), x)
  {
    PointIsNone(q + x);
    EndsWhole(x);
    hide *;
    WholeRead(p, "." + q + x);
    FractionRead(q, x);
    NothingMore(x);
    Grouped(p, ".", q, x);
    Assembled(negative, p + ("." + q + x), DigitsIn(p), "." + q + x, DigitsIn(q), x, 0, x);
  }

  lemma FractionText(ds: seq<Digit>, point: int)
    requires Shortest(ds) && -6 < point <= 0
    ensures var q := Zeros(-point) + DigitsText(ds);
      && Magnitude(ds, point) == "0" + "." + q && AllDigits(q) && |q| > 0
      && [0] + DigitsIn(q) == NoughtsOf(1 - point) + ds + NoughtsOf(0)
    ensures DigitsIn("0") == [0]
  {
    DigitsRead(ds);
  }

  lemma FractionLayout(negative: bool, ds: seq<Digit>, point: int, x: string)
    requires Shortest(ds) && Ends(x) && -6 < point <= 0
    ensures |Magnitude(ds, point)| > 0 && IsDigit(Magnitude(ds, point)[0])
    ensures ReadUnsigned(negative, Magnitude(ds, point) + x) == Got(Finite(negative, ds, point), x)
  {
    var q := Zeros(-point) + DigitsText(ds);
    FractionText(ds, point);
    assert IsDigit('0') && AllDigits("0");
    NormalReads(negative, 1 - point, ds, 0, point);
    hide *;
    PartsRead(negative, "0", q, x);
  }

  lemma ScientificLayout(negative: bool, ds: seq<Digit>, point: int, x: string)
    requires Shortest(ds) && Ends(x) && !(-6 < point <= 21)
    ensures |Magnitude(ds, point)| > 0 && IsDigit(Magnitude(ds, point)[0])
    ensures ReadUnsigned(negative, Magnitude(ds, point) + x) == Got(Finite(negative, ds, point), x)
  {
    var m, e := Mantissa(DigitsText(ds)), "e" + Exponent(point - 1);
    ScientificText(ds, point);
    EndsWhole(x);
    MantissaText(ds, e + x);
    ExponentRead(point - 1, x);
    hide *;
    ScientificParts(negative, ds, point, m, e, x);
  }

  lemma ScientificParts(negative: bool, ds: seq<Digit>, point: int, m: string, e: string, x: string)
    requires Shortest(ds) && ds != [] && m != ""
    requires ReadWhole(m + (e + x)) == Got(ds[..1], m[1..] + (e + x))
    requires ReadFraction(m[1..] + (e + x)) == Got(ds[1..], e + x) && ReadExponent(e + x) == Got(point - 1, x)
    ensures ReadUnsigned(negative, m + e + x) == Got(Finite(negative, ds, point), x)
  {
    hide *;
    JustDigits(negative, ds, point);
    assert ds[..1] + ds[1..] == ds;
    Assembled(negative, m + (e + x), ds[..1], m[1..] + (e + x), ds[1..], e + x, point - 1, x);
    assert m + e + x == m + (e + x);
  }

  lemma MantissaText(ds: seq<Digit>, end: string)
    requires Shortest(ds) && end != "" && end[0] == 'e'
    ensures var m := Mantissa(DigitsText(ds));
      && |m| > 0 && IsDigit(m[0]) && (forall e: string :: (m + e)[0] == m[0])
      && ReadWhole(m + end) == Got(ds[..1], m[1..] + end) && ReadFraction(m[1..] + end) == Got(ds[1..], end)
  {
    MantissaRead(ds, end);
  }

  lemma ScientificText(ds: seq<Digit>, point: int)
    requires Shortest(ds) && !(-6 < point <= 21)
    ensures |ds| > 0 && Magnitude(ds, point) == Mantissa(DigitsText(ds)) + ("e" + Exponent(point - 1))
  {
    assert Mantissa(DigitsText(ds)) + "e" + Exponent(point - 1) == Mantissa(DigitsText(ds)) + ("e" + Exponent(point - 1));
  }

  lemma MantissaRead(ds: seq<Digit>, end: string)
    requires Shortest(ds) && end != "" && end[0] == 'e'
    ensures var m := Mantissa(DigitsText(ds));
      |m| > 0 && IsDigit(m[0]) && ReadWhole(m + end) == Got(ds[..1], m[1..] + end) && ReadFraction(m[1..] + end) == Got(ds[1..], end)
  {
    var t := DigitsText(ds);
    DigitsRead(ds);
    assert DigitsIn(t[..1]) == ds[..1];
    if |ds| == 1 {
      WholeRead(t, end);
      assert t[1..] + end == end && ds[..1] == ds;
    } else {
      var tail := "." + t[1..] + end;
      assert t[..1] + "." + t[1..] + end == t[..1] + tail && (t[..1] + "." + t[1..])[1..] + end == tail;
      assert DigitsIn(t[1..]) == ds[1..];
      WholeRead(t[..1], tail);
      FractionRead(t[1..], end);
    }
  }

  /** The text of a number is read as that number, minus zero as zero. */
  lemma NumberRead(n: Number, x: string)
    requires n.Valid() && Ends(x)
    ensures var t := NumberText(n); |t| > 0 && (t[0] == '-' || IsDigit(t[0]))
    ensures ReadNumber(NumberText(n) + x) == Got(Unsigned(n), x)
  {
    hide ReadUnsigned, Magnitude;
    match n
    case Zero(_) => ZeroRead(x);
    case Finite(negative, ds, point) =>
      var m := Magnitude(ds, point);
      MagnitudeRead(negative, ds, point, x);
      assert (m + x)[0] == m[0];
      if negative {
        assert NumberText(n) == "-" + m && ("-" + m + x)[0] == '-' && ("-" + m + x)[1..] == m + x;
      } else {
        assert NumberText(n) == m;
      }
  }

  lemma ZeroRead(x: string)
    requires Ends(x)
    ensures ReadUnsigned(false, "0" + x) == Got(Zero(false), x)
  {
    WholeRead("0", x);
    NothingMore(x);
    assert DigitsIn("0") == [0] && [0] + [] == [0] && [0][1..] == [];
    assert Normal(false, [0], 1) == Normal(false, [], 0) == Zero(false);
    hide *;
    Assembled(false, "0" + x, [0], x, [], x, 0, x);
  }

  // ---------------------------------------------------------------- printed strings

  lemma HexRead(u: CodeUnit, x: string)
    ensures ReadHex(Hex4(u) + x) == Some(u)
  {
    var high := u / 16 / 16;
    HexDigitRead(high / 16);
    HexDigitRead(high % 16);
    HexDigitRead(u / 16 % 16);
    HexDigitRead(u % 16);
  }

  lemma HexDigitRead(h: int)
    requires 0 <= h < 16
    ensures HexOf(HexChar(h)) == Some(h)
  {
  }

  lemma HexUnitRead(u: CodeUnit, x: string)
    ensures ReadChar("\\u" + Hex4(u) + x) == Got([u], x)
  {
    HexRead(u, x);
    hide Hex4, ReadHex;
    var t := "\\u" + Hex4(u) + x;
    assert t[2..] == Hex4(u) + x && t[6..] == x;
  }

  lemma ShortRead(c: char, u: CodeUnit, x: string)
    requires Unescape(c) == Some(u)
    ensures ReadChar(['\\', c] + x) == Got([u], x)
  {
    assert (['\\', c] + x)[2..] == x;
  }

  lemma PlainRead(u: CodeUnit, x: string)
    requires u >= 0x20 && u != 0x5C && !HighSurrogate(u) && !LowSurrogate(u)
    ensures ReadChar([u as char] + x) == Got([u], x)
  {
    var t := [u as char] + x;
    assert t[1..] == x && [t[0]] == [u as char] && [u as char][1..] == "";
    assert Units([u as char]) == [u] + Units("") == [u];
  }

  lemma UnitRead(u: CodeUnit, x: string)
    ensures ReadChar(UnitText(u) + x) == Got([u], x) && UnitText(u)[0] != '"'
  {
    hide Hex4, ReadChar;
    if u == 0x22 { ShortRead('"', u, x); }
    else if u == 0x5C { ShortRead('\\', u, x); }
    else if u == 0x08 { ShortRead('b', u, x); }
    else if u == 0x0C { ShortRead('f', u, x); }
    else if u == 0x0A { ShortRead('n', u, x); }
    else if u == 0x0D { ShortRead('r', u, x); }
    else if u == 0x09 { ShortRead('t', u, x); }
    else if u < 0x20 || HighSurrogate(u) || LowSurrogate(u) { HexUnitRead(u, x); }
    else { PlainRead(u, x); }
  }

  lemma PairRead(high: CodeUnit, low: CodeUnit, x: string)
    requires HighSurrogate(high) && LowSurrogate(low)
    ensures ReadChar([PairChar(high, low)] + x) == Got([high, low], x) && PairChar(high, low) != '"'
  {
    var c := PairChar(high, low);
    assert ([c] + x)[1..] == x && [c][1..] == "";
    assert Units([c]) == [high, low];
  }

  lemma {:induction false} StringRead(s: JsString, x: string)
    ensures ReadString(Escaped(s) + ("\"" + x)) == Got(s, x)
    decreases |s|
  {
    var end := "\"" + x;
    if s == [] {
      assert Escaped(s) + end == end && end[1..] == x;
    } else {
      var n := FirstUnits(s);
      var rest := Escaped(s[n..]) + end;
      FirstIsNotQuote(s, end);
      assert Escaped(s) + end == FirstText(s) + rest;
      if PairAt(s) {
        PairRead(s[0], s[1], rest);
        assert s[..2] == [s[0], s[1]];
      } else {
        UnitRead(s[0], rest);
        assert s[..1] == [s[0]];
      }
      StringRead(s[n..], x);
      hide UnitText, ReadChar;
      assert (FirstText(s) + rest)[0] == FirstText(s)[0];
      assert s[..n] + s[n..] == s;
    }
  }

  // ---------------------------------------------------------------- printed values

  lemma ItemThen(t: string, item: Json, rest: string)
    requires ReadElement(t) == Got(item, rest) && rest != ""
    ensures rest[0] == ']' ==> ReadItems(t) == Got([item], rest[1..])
    ensures rest[0] == ',' ==>
      match ReadItems(rest[1..])
      case Got(more, after) => ReadItems(t) == Got([item] + more, after)
      case Bad => true
  {
    hide ReadElement;
  }

  lemma WordRead(word: string, x: string, value: Json)
    requires word != ""
    ensures ReadWord(word + x, word, value) == Got(value, x)
  {
    assert (word + x)[|word|..] == x;
  }

  lemma StopEnds(x: string)
    requires Stop(x)
    ensures Ends(x) && Skip(x) == x
  {
  }

  /** The printed text of a value, and whatever may follow it, is read as that value, minus zeros as zeros. */
  lemma {:induction false} ValueRead(j: Json, x: string)
    requires Valid(j) && (j.Num? ==> Ends(x))
    ensures Print(j) != "" && !IsBlank(Print(j)[0]) && Print(j)[0] != ']' && Print(j)[0] != '}'
    ensures ReadValue(Print(j) + x) == Got(Unsign(j), x)
    decreases j, 0
  {
    match j
    case Null => WordRead("null", x, Null);
    case Bool(b) => WordRead(Print(j), x, j);
    case Num(n) => NumberValueRead(n, x);
    case Str(s) => StringValueRead(s, x);
    case Arr(items) =>
      if items != [] { ItemsRead(items, x); }
      ArrayRead(items, x);
    case Obj(ms) =>
      if ms != [] { MembersRead(ms, x); }
      ObjectRead(ms, x);
  }

  lemma NumberValueRead(n: Number, x: string)
    requires n.Valid() && Ends(x)
    ensures var t := NumberText(n); |t| > 0 && (t[0] == '-' || IsDigit(t[0]))
    ensures ReadValue(NumberText(n) + x) == Got(Num(Unsigned(n)), x)
  {
    NumberRead(n, x);
    NumberValue(NumberText(n) + x);
    hide *;
    assert (NumberText(n) + x)[0] == NumberText(n)[0];
  }

  lemma NumberValue(s: string)
    requires s != "" && (s[0] == '-' || IsDigit(s[0])) && ReadNumber(s).Got?
    ensures ReadValue(s) == Got(Num(ReadNumber(s).value), ReadNumber(s).rest)
  {
    hide ReadNumber, ReadString, ReadArray, ReadObject, ReadWord;
  }

  lemma BracketValue(s: string)
    ensures ReadValue("[" + s) == ReadArray(s) && ReadValue("{" + s) == ReadObject(s)
  {
    hide ReadNumber, ReadString, ReadArray, ReadObject, ReadWord;
    assert ("[" + s)[1..] == s && ("{" + s)[1..] == s;
  }

  lemma StringValueRead(s: JsString, x: string)
    ensures ReadValue(Quote(s) + x) == Got(Str(s), x)
  {
    StringRead(s, x);
    hide Escaped, ReadString;
    var t := "\"" + (Escaped(s) + ("\"" + x));
    assert Quote(s) + x == t && t[1..] == Escaped(s) + ("\"" + x);
  }

  lemma Bracketed(open: string, p: string, close: string, x: string)
    ensures open + p + close + x == open + (p + (close + x))
  {
  }

  lemma EmptyRead(x: string)
    ensures ReadArray("]" + x) == Got(Arr([]), x) && ReadObject("}" + x) == Got(Obj([]), x)
  {
    assert ("]" + x)[1..] == x && ("}" + x)[1..] == x;
  }

  lemma ItemsFollow(t: string, items: seq<Json>, x: string)
    requires ReadItems(t) == Got(items, x) && Skip(t) == t && t != "" && t[0] != ']'
    ensures ReadArray(t) == Got(Arr(items), x)
  {
    hide ReadItems, Skip;
  }

  lemma MembersFollow(t: string, members: seq<Member>, x: string)
    requires ReadMembers(t) == Got(members, x) && Skip(t) == t && t != "" && t[0] != '}'
    ensures ReadObject(t) == Got(Obj(members), x)
  {
    hide ReadMembers, Skip;
  }

  lemma ArrayRead(items: seq<Json>, x: string)
    requires items != [] ==>
      var t := PrintItems(items) + ("]" + x);
      ReadItems(t) == Got(UnsignItems(items), x) && Skip(t) == t && t != "" && t[0] != ']'
    ensures ReadValue("[" + PrintItems(items) + "]" + x) == Got(Arr(UnsignItems(items)), x)
  {
    var t := PrintItems(items) + ("]" + x);
    assert items == [] ==> t == "]" + x && UnsignItems(items) == [];
    hide *;
    Bracketed("[", PrintItems(items), "]", x);
    BracketValue(t);
    if items == [] { EmptyRead(x); } else { ItemsFollow(t, UnsignItems(items), x); }
  }

  lemma ObjectRead(ms: seq<Member>, x: string)
    requires ms != [] ==>
      var t := PrintMembers(ms) + ("}" + x);
      ReadMembers(t) == Got(UnsignMembers(ms), x) && Skip(t) == t && t != "" && t[0] != '}'
    ensures ReadValue("{" + PrintMembers(ms) + "}" + x) == Got(Obj(UnsignMembers(ms)), x)
  {
    var t := PrintMembers(ms) + ("}" + x);
    assert ms == [] ==> t == "}" + x && UnsignMembers(ms) == [];
    hide *;
    Bracketed("{", PrintMembers(ms), "}", x);
    BracketValue(t);
    if ms == [] { EmptyRead(x); } else { MembersFollow(t, UnsignMembers(ms), x); }
  }

  lemma {:induction false} ElementRead(j: Json, x: string)
    requires Valid(j) && Stop(x)
    ensures Print(j) != "" && !IsBlank(Print(j)[0]) && Print(j)[0] != ']' && Print(j)[0] != '}'
    ensures ReadElement(Print(j) + x) == Got(Unsign(j), x)
    decreases j, 1
  {
    StopEnds(x);
    ValueRead(j, x);
    assert (Print(j) + x)[0] == Print(j)[0];
  }

  lemma {:induction false} ItemsRead(items: seq<Json>, x: string)
    requires items != [] && forall i :: 0 <= i < |items| ==> Valid(items[i])
    ensures var t := PrintItems(items) + ("]" + x);
      ReadItems(t) == Got(UnsignItems(items), x) && Skip(t) == t && t != "" && t[0] != ']'
    decreases items
  {
    var t := PrintItems(items) + ("]" + x);
    var after := AfterFirst(|items| > 1, PrintItems(items[1..]), "]" + x);
    PrintItemsFirst(items, "]" + x);
    ElementRead(items[0], after);
    assert t[0] == Print(items[0])[0] && Skip(t) == t;
    ItemThen(t, Unsign(items[0]), after);
    assert if |items| == 1 then after == "]" + x else after == "," + (PrintItems(items[1..]) + ("]" + x));
    assert UnsignItems(items) == [Unsign(items[0])] + UnsignItems(items[1..]);
    assert |items| == 1 ==> UnsignItems(items) == [Unsign(items[0])];
    if |items| > 1 { ItemsRead(items[1..], x); }
    hide *;
    assert after[1..] == if |items| == 1 then x else PrintItems(items[1..]) + ("]" + x);
  }

  lemma KeyFollows(key: JsString, t: string, value: Json, x: string)
    requires ReadElement(t) == Got(value, x)
    ensures ReadMember(Quote(key) + (":" + t)) == Got(Member(key, value), x)
    ensures var s := Quote(key) + (":" + t); Skip(s) == s && s[0] == '"'
  {
    var s := "\"" + (Escaped(key) + ("\"" + (":" + t)));
    assert Quote(key) + (":" + t) == s;
    StringRead(key, ":" + t);
    hide ReadString, ReadElement, Escaped;
    assert s[1..] == Escaped(key) + ("\"" + (":" + t)) && (":" + t)[1..] == t;
  }

  lemma MemberThen(t: string, member: Member, rest: string)
    requires ReadMember(t) == Got(member, rest) && rest != ""
    ensures rest[0] == '}' ==> ReadMembers(t) == Got([member], rest[1..])
    ensures rest[0] == ',' ==>
      match ReadMembers(rest[1..])
      case Got(more, after) => ReadMembers(t) == Got([member] + more, after)
      case Bad => true
  {
    hide ReadMember;
  }

  lemma {:induction false} MembersRead(ms: seq<Member>, x: string)
    requires ms != [] && forall i :: 0 <= i < |ms| ==> Valid(ms[i].value)
    ensures var t := PrintMembers(ms) + ("}" + x);
      ReadMembers(t) == Got(UnsignMembers(ms), x) && Skip(t) == t && t != "" && t[0] != '}'
    decreases ms
  {
    var t := PrintMembers(ms) + ("}" + x);
    var after := AfterFirst(|ms| > 1, PrintMembers(ms[1..]), "}" + x);
    PrintMembersFirst(ms, "}" + x);
    ElementRead(ms[0].value, after);
    KeyFollows(ms[0].key, Print(ms[0].value) + after, Unsign(ms[0].value), after);
    MemberThen(t, Member(ms[0].key, Unsign(ms[0].value)), after);
    assert if |ms| == 1 then after == "}" + x else after == "," + (PrintMembers(ms[1..]) + ("}" + x));
    assert UnsignMembers(ms) == [Member(ms[0].key, Unsign(ms[0].value))] + UnsignMembers(ms[1..]);
    assert |ms| == 1 ==> UnsignMembers(ms) == [Member(ms[0].key, Unsign(ms[0].value))];
    if |ms| > 1 { MembersRead(ms[1..], x); }
    hide *;
    assert after[1..] == if |ms| == 1 then x else PrintMembers(ms[1..]) + ("}" + x);
  }

  /** Reading undoes printing, for every value, up to the sign of zero. */
  lemma ReadsBack(j: Json)
    requires Valid(j)
    ensures ReadJson(Print(j)) == Some(Unsign(j))
  {
    ElementRead(j, "");
    assert Print(j) + "" == Print(j);
  }

  // ---------------------------------------------------------------- unique reading

  /** Minus zero and zero share a text, and no other two numbers do. */
  lemma NumberTextInjective(m: Number, n: Number)
    requires m.Valid() && n.Valid() && NumberText(m) == NumberText(n)
    ensures Unsigned(m) == Unsigned(n)
  {
    NumberRead(m, "");
    NumberRead(n, "");
  }

  lemma EscapedUnique(a: JsString, b: JsString, x: string, y: string)
    requires Escaped(a) + ("\"" + x) == Escaped(b) + ("\"" + y)
    ensures a == b && x == y
  {
    StringRead(a, x);
    StringRead(b, y);
  }

  lemma QuoteUnique(a: JsString, b: JsString, x: string, y: string)
    requires Quote(a) + x == Quote(b) + y
    ensures a == b && x == y
  {
    StringValueRead(a, x);
    StringValueRead(b, y);
  }

  /**
   * Unique reading: two texts that start with a printed value can only be equal if the values
   * and the rests are. A number needs to be followed by a delimiter; nothing else does.
   */
  lemma PrintUnique(a: Json, b: Json, x: string, y: string)
    requires Valid(a) && Valid(b) && Print(a) + x == Print(b) + y
    requires a.Num? || b.Num? ==> Stop(x) && Stop(y)
    ensures Unsign(a) == Unsign(b) && x == y
  {
    ValueRead(a, x);
    ValueRead(b, y);
  }

  // ---------------------------------------------------------------- which of the possible texts

  /** Scientific notation is used exactly beyond 21 digits and below a millionth. */
  lemma LayoutIsChosen(ds: seq<Digit>, point: int)
    requires Shortest(ds)
    ensures var m := Magnitude(ds, point);
      && ('e' in m <==> point > 21 || point <= -6)
      && ('e' !in m ==> ('.' in m <==> point < |ds|))
  {
    var t, m := DigitsText(ds), Magnitude(ds, point);
    DigitsRead(ds);
    assert 'e' !in t && '.' !in t;
    if point > 21 || point <= -6 {
      assert m[|Mantissa(t)|] == 'e';
    } else if 0 < point < |ds| {
      assert m[point] == '.';
    } else if point <= 0 {
      assert m[1] == '.';
    }
  }

  /** Where the layouts meet. */
  lemma LayoutBorders()
    ensures NumberText(Finite(false, [1], 21)) == "1" + Zeros(20)
    ensures NumberText(Finite(false, [1], 22)) == "1e+21"
    ensures NumberText(Finite(false, [1], -5)) == "0." + Zeros(5) + "1"
    ensures NumberText(Finite(true, [1, 2], -6)) == "-1.2e-7"
  {
    OneAndTwo();
    hide Decimal, DigitsText, Zeros;
    assert Magnitude([1], 21) == "1" + Zeros(20);
    assert Magnitude([1], 22) == Mantissa("1") + "e" + Exponent(21);
    assert Magnitude([1], -5) == "0." + Zeros(5) + "1";
    assert Magnitude([1, 2], -6) == Mantissa("12") + "e" + Exponent(-7);
    hide Magnitude;
  }

  lemma OneAndTwo()
    ensures DigitsText([1]) == "1" && DigitsText([1, 2]) == "12"
    ensures Mantissa("1") == "1" && Mantissa("12") == "1.2"
    ensures Exponent(21) == "+21" && Exponent(-7) == "-7"
  {
    assert Decimal(7) == "7" && Decimal(2) == "2";
    assert Decimal(21) == Decimal(2) + "1";
  }

  /** A code unit is escaped only where it must be, in the shortest way, with small hexadecimal letters. */
  lemma EscapesAreShortest(u: CodeUnit)
    ensures |UnitText(u)| == 1 <==> u >= 0x20 && u != 0x22 && u != 0x5C && !(0xD800 <= u < 0xE000)
    ensures |UnitText(u)| == 1 ==> UnitText(u)[0] as int == u
    ensures |UnitText(u)| == 2 <==> u in {0x22, 0x5C, 0x08, 0x0C, 0x0A, 0x0D, 0x09}
    ensures |UnitText(u)| > 2 ==> |UnitText(u)| == 6 && forall c :: c in UnitText(u) ==> !('A' <= c <= 'F')
  {
  }
}
