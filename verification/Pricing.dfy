/** Live endpoint prices merged into one price per million tokens, and the cost that it estimates. */
module Pricing {
  import opened Wrappers

  /** Prices per token as the endpoint reports them; None when absent or no number. */
  datatype Endpoint = Endpoint(provider: string, prompt: Option<real>, completion: Option<real>, cacheRead: Option<real>)

  datatype ModelPrice = ModelPrice(input: real, output: real, cacheRead: Option<real>)

  function PerMillion(v: Option<real>): Option<real> {
    if v.Some? && v.value >= 0.0 then Some(v.value * 1_000_000.0) else None
  }

  function Or0(v: Option<real>): real { if v.Some? then v.value else 0.0 }

  function Parsed(e: Endpoint): ModelPrice {
    ModelPrice(Or0(PerMillion(e.prompt)), Or0(PerMillion(e.completion)), PerMillion(e.cacheRead))
  }

  /** An endpoint counts unless it is free on both sides. */
  predicate Priced(e: Endpoint) { Parsed(e).input != 0.0 || Parsed(e).output != 0.0 }

  function Max(a: real, b: real): real { if a > b then a else b }

  // ---------------------------------------------------------------- the merged price

  ghost predicate IsMaximum(m: real, es: seq<Endpoint>, field: Endpoint -> Option<real>) {
    && (forall e :: e in es && Priced(e) && field(e).Some? ==> field(e).value <= m)
    && (exists e :: e in es && Priced(e) && field(e) == Some(m))
  }

  function Input(): Endpoint -> Option<real> { (e: Endpoint) => Some(Parsed(e).input) }
  function Output(): Endpoint -> Option<real> { (e: Endpoint) => Some(Parsed(e).output) }
  function CacheRead(): Endpoint -> Option<real> { (e: Endpoint) => Parsed(e).cacheRead }

  ghost predicate Exposed(es: seq<Endpoint>) { exists e :: e in es && Priced(e) && Parsed(e).cacheRead.Some? }

  /** Every field is the largest value that a priced endpoint exposes for it. */
  ghost predicate IsMerged(p: ModelPrice, es: seq<Endpoint>) {
    && IsMaximum(p.input, es, Input()) && IsMaximum(p.output, es, Output())
    && (if p.cacheRead.Some? then IsMaximum(p.cacheRead.value, es, CacheRead()) else !Exposed(es))
  }

  function Merge(price: Option<ModelPrice>, p: ModelPrice): ModelPrice {
    if price.None? then p
    else
      var q := price.value;
      ModelPrice(Max(q.input, p.input), Max(q.output, p.output),
                 if p.cacheRead.Some? then Some(Max(Or0(q.cacheRead), p.cacheRead.value)) else q.cacheRead)
  }

  predicate Unpriced(es: seq<Endpoint>) { forall e :: e in es ==> !Priced(e) }

  ghost predicate MergedSoFar(price: Option<ModelPrice>, es: seq<Endpoint>) {
    if price.None? then Unpriced(es) else IsMerged(price.value, es)
  }

  lemma MaximumStep(m: real, es: seq<Endpoint>, field: Endpoint -> Option<real>, e: Endpoint)
    requires IsMaximum(m, es, field)
    ensures IsMaximum(if Priced(e) && field(e).Some? then Max(m, field(e).value) else m, es + [e], field)
  {
    var x :| x in es && Priced(x) && field(x) == Some(m);
    assert x in es + [e] && e in es + [e];
  }

  lemma MaximumStarts(es: seq<Endpoint>, field: Endpoint -> Option<real>, e: Endpoint)
    requires Priced(e) && field(e).Some? && forall x :: x in es && Priced(x) ==> field(x).None?
    ensures IsMaximum(field(e).value, es + [e], field)
  {
    assert e in es + [e];
  }

  lemma MergeStep(price: Option<ModelPrice>, es: seq<Endpoint>, e: Endpoint)
    requires MergedSoFar(price, es)
    ensures MergedSoFar(if Priced(e) then Some(Merge(price, Parsed(e))) else price, es + [e])
  {
    hide IsMaximum, Parsed;
    var p := Parsed(e);
    ParsedIsNonNegative(e);
    if price.None? {
      if Priced(e) {
        MaximumStarts(es, Input(), e);
        MaximumStarts(es, Output(), e);
        if p.cacheRead.Some? { MaximumStarts(es, CacheRead(), e); }
      }
    } else {
      var q := price.value;
      MaximumStep(q.input, es, Input(), e);
      MaximumStep(q.output, es, Output(), e);
      if q.cacheRead.Some? {
        MaximumStep(q.cacheRead.value, es, CacheRead(), e);
      } else if Priced(e) && p.cacheRead.Some? {
        MaximumStarts(es, CacheRead(), e);
      }
    }
  }

  lemma ParsedIsNonNegative(e: Endpoint)
    ensures Parsed(e).input >= 0.0 && Parsed(e).output >= 0.0 && Or0(Parsed(e).cacheRead) >= 0.0
  {
  }

  /** The first priced endpoint of the preferred provider. */
  function Preferred(es: seq<Endpoint>, provider: string, lower: string -> string): Option<ModelPrice> {
    if es == [] then None
    else if Priced(es[0]) && lower(es[0].provider) == lower(provider) then Some(Parsed(es[0]))
    else Preferred(es[1..], provider, lower)
  }

  /** `parseEndpointPricing`; an empty preference is none. */
  method ParseEndpointPricing(endpoints: seq<Endpoint>, preference: string, lower: string -> string) returns (price: Option<ModelPrice>)
    ensures preference == "" ==> MergedSoFar(price, endpoints)
    ensures preference != "" ==> price == Preferred(endpoints, preference, lower)
  {
    price := None;
    assert endpoints[..0] == [] && endpoints[0..] == endpoints;
    for i := 0 to |endpoints|
      invariant MergedSoFar(price, endpoints[..i])
      invariant preference != "" ==> Preferred(endpoints, preference, lower) == Preferred(endpoints[i..], preference, lower)
    {
      var e := endpoints[i];
      assert endpoints[..i + 1] == endpoints[..i] + [e] && endpoints[i..][1..] == endpoints[i + 1..];
      MergeStep(price, endpoints[..i], e);
      if Priced(e) {
        if preference != "" && lower(e.provider) == lower(preference) { return Some(Parsed(e)); }
        price := Some(Merge(price, Parsed(e)));
      }
    }
    assert endpoints[..|endpoints|] == endpoints;
    if preference != "" { return None; }
  }

  // ---------------------------------------------------------------- cost

  datatype Usage = Usage(inputTokens: nat, outputTokens: nat, cachedTokens: int)

  function Cached(u: Usage): nat {
    var c := if u.cachedTokens > 0 then u.cachedTokens else 0;
    if c < u.inputTokens then c else u.inputTokens
  }

  function CacheRate(p: ModelPrice): real { if p.cacheRead.Some? then p.cacheRead.value else p.input }

  /** `estimateCost` under a price. */
  function Cost(p: ModelPrice, u: Usage): real {
    var uncached, cached, output := (u.inputTokens - Cached(u)) as real, Cached(u) as real, u.outputTokens as real;
    (uncached * p.input + cached * CacheRate(p) + output * p.output) / 1_000_000.0
  }

  /** An endpoint charges what it says per token; a negative price is none, and a free side is no price. */
  lemma ParsedMeans(e: Endpoint)
    ensures Priced(e) <==> (e.prompt.Some? && e.prompt.value > 0.0) || (e.completion.Some? && e.completion.value > 0.0)
    ensures forall r :: Parsed(e).cacheRead == Some(r) <==>
      e.cacheRead.Some? && e.cacheRead.value >= 0.0 && r == e.cacheRead.value * 1_000_000.0
    ensures Parsed(e).input == (if e.prompt.Some? && e.prompt.value > 0.0 then e.prompt.value * 1_000_000.0 else 0.0)
    ensures Parsed(e).output == (if e.completion.Some? && e.completion.value > 0.0 then e.completion.value * 1_000_000.0 else 0.0)
  {
  }

  /** A million tokens of one sort cost the rate of that sort; cached tokens cost the input rate unless there is one for them. */
  lemma MillionCosts(p: ModelPrice)
    ensures Cost(p, Usage(1_000_000, 0, 0)) == p.input
    ensures Cost(p, Usage(0, 1_000_000, 0)) == p.output
    ensures Cost(p, Usage(1_000_000, 0, 1_000_000)) == match p.cacheRead case Some(r) => r case None => p.input
  {
  }

  ghost predicate Plain(u: Usage) { 0 <= u.cachedTokens <= u.inputTokens }

  lemma ThreeRates(a: real, b: real, x: real, c: real, d: real, y: real, e: real, f: real, z: real)
    ensures ((a + b) * x + (c + d) * y + (e + f) * z) / 1_000_000.0
         == (a * x + c * y + e * z) / 1_000_000.0 + (b * x + d * y + f * z) / 1_000_000.0
  {
    assert (a + b) * x == a * x + b * x && (c + d) * y == c * y + d * y && (e + f) * z == e * z + f * z;
  }

  /** Costs add up over calls, and reported cached tokens count from none to all of the input. */
  lemma CostsAddUp(p: ModelPrice, u: Usage, v: Usage)
    ensures Plain(u) && Plain(v) ==>
      Cost(p, Usage(u.inputTokens + v.inputTokens, u.outputTokens + v.outputTokens, u.cachedTokens + v.cachedTokens))
        == Cost(p, u) + Cost(p, v)
    ensures u.cachedTokens < 0 ==> Cost(p, u) == Cost(p, u.(cachedTokens := 0))
    ensures u.cachedTokens > u.inputTokens ==> Cost(p, u) == Cost(p, u.(cachedTokens := u.inputTokens))
  {
    if Plain(u) && Plain(v) {
      ThreeRates((u.inputTokens - u.cachedTokens) as real, (v.inputTokens - v.cachedTokens) as real, p.input,
                 u.cachedTokens as real, v.cachedTokens as real, CacheRate(p),
                 u.outputTokens as real, v.outputTokens as real, p.output);
    }
  }

  // ---------------------------------------------------------------- main results

  lemma MaximumIsUnique(m: real, n: real, es: seq<Endpoint>, fs: seq<Endpoint>, field: Endpoint -> Option<real>)
    requires (forall e :: e in es <==> e in fs) && IsMaximum(m, es, field) && IsMaximum(n, fs, field)
    ensures m == n
  {
    var e :| e in es && Priced(e) && field(e) == Some(m);
    var f :| f in fs && Priced(f) && field(f) == Some(n);
  }

  /** Without a preference the price depends only on which endpoints there are, not on their order. */
  lemma OrderDoesNotMatter(p: Option<ModelPrice>, q: Option<ModelPrice>, es: seq<Endpoint>, fs: seq<Endpoint>)
    requires MergedSoFar(p, es) && MergedSoFar(q, fs) && forall e :: e in es <==> e in fs
    ensures p == q
  {
    if p.Some? && q.Some? {
      var a, b := p.value, q.value;
      MaximumIsUnique(a.input, b.input, es, fs, Input());
      MaximumIsUnique(a.output, b.output, es, fs, Output());
      if a.cacheRead.Some? && b.cacheRead.Some? {
        MaximumIsUnique(a.cacheRead.value, b.cacheRead.value, es, fs, CacheRead());
      }
    }
  }

  /** The condition under which the merged price is an upper bound. */
  ghost predicate CacheCovered(p: ModelPrice, es: seq<Endpoint>) {
    p.cacheRead.Some? ==>
      forall e :: e in es && Priced(e) && Parsed(e).cacheRead.None? ==> Parsed(e).input <= p.cacheRead.value
  }

  lemma CostMonotone(p: ModelPrice, q: ModelPrice, u: Usage)
    requires p.input <= q.input && p.output <= q.output && CacheRate(p) <= CacheRate(q)
    ensures Cost(p, u) <= Cost(q, u)
  {
    var uncached, cached, output := (u.inputTokens - Cached(u)) as real, Cached(u) as real, u.outputTokens as real;
    TimesMonotone(uncached, p.input, q.input);
    TimesMonotone(cached, CacheRate(p), CacheRate(q));
    TimesMonotone(output, p.output, q.output);
    SumMonotone(uncached * p.input, uncached * q.input, cached * CacheRate(p), cached * CacheRate(q),
                output * p.output, output * q.output);
  }

  lemma SumMonotone(a: real, b: real, c: real, d: real, e: real, f: real)
    requires a <= b && c <= d && e <= f
    ensures (a + c + e) / 1_000_000.0 <= (b + d + f) / 1_000_000.0
  {
  }

  lemma TimesMonotone(n: real, x: real, y: real)
    requires n >= 0.0 && x <= y
    ensures n * x <= n * y
  {
  }

  /**
   * The merged price costs at least as much as every priced endpoint, for every usage, exactly
   * when no endpoint exposes a cache rate or each that exposes none has an input price at most the
   * merged cache rate. With all endpoints exposing one, or none, that always holds.
   */
  lemma MergedIsUpperBound(p: ModelPrice, es: seq<Endpoint>)
    requires IsMerged(p, es)
    ensures (forall e, u :: e in es && Priced(e) ==> Cost(Parsed(e), u) <= Cost(p, u)) <==> CacheCovered(p, es)
  {
    if CacheCovered(p, es) {
      forall e, u | e in es && Priced(e) ensures Cost(Parsed(e), u) <= Cost(p, u) {
        assert Input()(e).value <= p.input && Output()(e).value <= p.output;
        if Parsed(e).cacheRead.Some? { assert CacheRead()(e).value <= CacheRate(p); }
        CostMonotone(Parsed(e), p, u);
      }
    } else {
      var e :| e in es && Priced(e) && Parsed(e).cacheRead.None? && Parsed(e).input > p.cacheRead.value;
      var u := Usage(1, 0, 1);
      assert Cost(Parsed(e), u) > Cost(p, u);
    }
  }

  /** A cached token under two endpoints, one of which exposes a cheap cache rate, costs more than the merged price says. */
  lemma MixedListUnderestimates()
    ensures var cheap := Endpoint("a", Some(0.000001), Some(0.000001), Some(0.0000001));
      var plain := Endpoint("b", Some(0.000001), Some(0.000001), None);
      forall p :: IsMerged(p, [cheap, plain]) ==> Cost(p, Usage(1, 0, 1)) < Cost(Parsed(plain), Usage(1, 0, 1))
  {
    var cheap := Endpoint("a", Some(0.000001), Some(0.000001), Some(0.0000001));
    var plain := Endpoint("b", Some(0.000001), Some(0.000001), None);
    assert Parsed(cheap) == ModelPrice(1.0, 1.0, Some(0.1)) && Parsed(plain) == ModelPrice(1.0, 1.0, None);
    hide Parsed, PerMillion;
    forall p | IsMerged(p, [cheap, plain]) ensures Cost(p, Usage(1, 0, 1)) < Cost(Parsed(plain), Usage(1, 0, 1)) {
      assert cheap in [cheap, plain] && CacheRead()(cheap) == Some(0.1);
      assert p.cacheRead == Some(0.1);
    }
  }
}
