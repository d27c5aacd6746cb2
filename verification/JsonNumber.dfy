/** What the text of a number is worth, as a real number. */
module JsonNumber {
  import opened Text
  import opened Json
  import opened JsonReader

  /** Ten to the `e`. */
  function Power(e: int): real
    decreases if e < 0 then -e else e
  {
    if e == 0 then 1.0 else if e > 0 then Power(e - 1) * 10.0 else Power(e + 1) / 10.0
  }

  function WithSign(negative: bool, r: real): real { if negative then -r else r }

  /** The product; by name, so that proofs can treat it as a whole. */
  function Times(a: real, b: real): real { a * b }

  /** Digits times a power of ten. */
  function Scaled(ds: seq<Digit>, e: int): real { Times(NatOf(ds) as real, Power(e)) }

  /** The real number that a number stands for. */
  function ValueOf(n: Number): real {
    match n
    case Zero(_) => 0.0
    case Finite(negative, ds, point) => WithSign(negative, Scaled(ds, point - |ds|))
  }

  /** What digits, digits after the point and an exponent are worth. */
  function PartsValue(whole: seq<Digit>, fraction: seq<Digit>, e: int): real {
    Times(NatOf(whole) as real + Scaled(fraction, -|fraction|), Power(e))
  }

  lemma PowerStep(e: int)
    ensures Power(e + 1) == Power(e) * 10.0
  {
  }

  lemma TenTimes(a: real, p: real)
    ensures Times(a, p * 10.0) == Times(a, p) * 10.0 == Times(a * 10.0, p)
  {
  }

  lemma {:induction false} PowerAdds(a: int, n: nat)
    ensures Power(a + n) == Times(Power(a), Power(n))
  {
    if n == 0 {
      assert Power(0) == 1.0;
    } else {
      PowerAdds(a, n - 1);
      PowerStep(a + n - 1);
      PowerStep(n - 1);
      hide *;
      TenTimes(Power(a), Power(n - 1));
    }
  }

  lemma NatOfStep(ds: seq<Digit>, d: Digit)
    ensures NatOf(ds + [d]) as real == NatOf(ds) as real * 10.0 + d as real
  {
    assert (ds + [d])[..|ds|] == ds;
  }

  /** The digits of `a` before `k` others are worth ten to the `k` times as much. */
  ghost predicate Shifted(a: seq<Digit>, b: seq<Digit>) {
    NatOf(a + b) as real == Times(NatOf(a) as real, Power(|b|)) + NatOf(b) as real
  }

  lemma ShiftedMore(a: seq<Digit>, b: seq<Digit>, d: Digit)
    requires Shifted(a, b)
    ensures Shifted(a, b + [d])
  {
    NatOfStep(a + b, d);
    NatOfStep(b, d);
    PowerStep(|b|);
    assert a + b + [d] == a + (b + [d]);
    hide NatOf, Power, Times;
    TenTimes(NatOf(a) as real, Power(|b|));
  }

  lemma {:induction false} NatOfConcat(a: seq<Digit>, b: seq<Digit>)
    ensures Shifted(a, b)
  {
    if b == [] {
      assert a + b == a && Power(0) == 1.0 && NatOf([]) == 0 && Times(NatOf(a) as real, 1.0) == NatOf(a) as real;
    } else {
      var n := |b| - 1;
      NatOfConcat(a, b[..n]);
      hide *;
      ShiftedMore(a, b[..n], b[n]);
      assert b[..n] + [b[n]] == b;
    }
  }

  /** A zero at the end is worth one step of the exponent. */
  lemma ZeroBehind(ds: seq<Digit>, e: int)
    requires ds != [] && ds[|ds| - 1] == 0
    ensures Scaled(ds[..|ds| - 1], e + 1) == Scaled(ds, e)
  {
    var front := ds[..|ds| - 1];
    PowerStep(e);
    NatOfStep(front, 0);
    hide Power, NatOf, Times;
    assert front + [0] == ds;
    TenTimes(NatOf(front) as real, Power(e));
  }

  lemma {:induction false} TrimKeepsValue(ds: seq<Digit>, point: int)
    ensures Scaled(TrimZeros(ds), point - |TrimZeros(ds)|) == Scaled(ds, point - |ds|)
  {
    if ds != [] && ds[|ds| - 1] == 0 {
      TrimKeepsValue(ds[..|ds| - 1], point);
      ZeroBehind(ds, point - |ds|);
    }
  }

  lemma ZeroInFront(ds: seq<Digit>, e: int)
    requires ds != [] && ds[0] == 0
    ensures Scaled(ds[1..], e) == Scaled(ds, e)
  {
    NatOfConcat([0], ds[1..]);
    NatOfStep([], 0);
    assert NatOf([]) == 0 && Times(0.0, Power(|ds[1..]|)) == 0.0;
    hide Power, NatOf, Times;
    assert [0] + ds[1..] == ds && [] + [0] == [0];
  }

  /** Shortest form changes nothing. */
  lemma {:induction false} NormalKeepsValue(negative: bool, ds: seq<Digit>, point: int)
    ensures ValueOf(Normal(negative, ds, point)) == WithSign(negative, Scaled(ds, point - |ds|))
  {
    if ds == [] {
      assert NatOf(ds) == 0;
      hide Power;
    } else if ds[0] == 0 {
      NormalKeepsValue(negative, ds[1..], point - 1);
      ZeroInFront(ds, point - |ds|);
      hide Scaled, ValueOf;
    } else {
      TrimKeepsValue(ds, point);
      hide Scaled, TrimZeros;
    }
  }

  lemma Distribute(w: real, f: real, p: real, q: real, r: real)
    requires Times(q, p) == 1.0
    ensures Times(Times(w, p) + f, r) == Times(w + Times(f, q), Times(r, p))
  {
    calc {
      (w + f * q) * (r * p);
      w * r * p + f * r * (q * p);
      (w * p + f) * r;
    }
  }

  lemma PartsScale(whole: seq<Digit>, fraction: seq<Digit>, e: int)
    ensures Scaled(whole + fraction, e - |fraction|) == PartsValue(whole, fraction, e)
  {
    var k := |fraction|;
    NatOfConcat(whole, fraction);
    PowerAdds(-k, k);
    PowerAdds(e - k, k);
    assert Power(0) == 1.0;
    hide NatOf, Power, Times;
    Distribute(NatOf(whole) as real, NatOf(fraction) as real, Power(k), Power(-k), Power(e - k));
  }

  /** A number that is read is worth what its whole part, its fraction and its exponent say. */
  lemma ReadIsWorth(negative: bool, s: string)
    requires ReadWhole(s).Got? && ReadFraction(ReadWhole(s).rest).Got?
    requires ReadExponent(ReadFraction(ReadWhole(s).rest).rest).Got?
    ensures var w, f := ReadWhole(s), ReadFraction(ReadWhole(s).rest);
      var e, n := ReadExponent(f.rest), ReadUnsigned(negative, s);
      n.Got? && ValueOf(n.value) == WithSign(negative, PartsValue(w.value, f.value, e.value))
  {
    hide *;
    var w, f := ReadWhole(s), ReadFraction(ReadWhole(s).rest);
    var e := ReadExponent(f.rest);
    Assembled(negative, s, w.value, w.rest, f.value, f.rest, e.value, e.rest);
    NormalKeepsValue(negative, w.value + f.value, |w.value| + e.value);
    PartsScale(w.value, f.value, e.value);
  }

  /** The text of a number is worth the number. */
  lemma TextIsWorth(n: Number)
    requires n.Valid()
    ensures var r := ReadNumber(NumberText(n)); r == Got(Unsigned(n), "") && ValueOf(r.value) == ValueOf(n)
  {
    NumberRead(n, "");
    assert NumberText(n) + "" == NumberText(n);
  }
}
