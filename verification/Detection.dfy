/** The stepwise precision-recall area of `detection`, where equal scores form one threshold group. */
module Detection {
  import opened Wrappers

  datatype Window = Window(score: real, positive: bool)

  // ---------------------------------------------------------------- sums over windows

  function Sum(ws: seq<Window>, f: Window -> real): real {
    if ws == [] then 0.0 else Sum(ws[..|ws| - 1], f) + f(ws[|ws| - 1])
  }

  lemma {:induction false} SumConcat(a: seq<Window>, b: seq<Window>, f: Window -> real)
    ensures Sum(a + b, f) == Sum(a, f) + Sum(b, f)
  {
    if b == [] {
      assert a + b == a;
    } else {
      assert (a + b)[..|a + b| - 1] == a + b[..|b| - 1];
      SumConcat(a, b[..|b| - 1], f);
    }
  }

  lemma SumRemove(ws: seq<Window>, i: nat, f: Window -> real)
    requires i < |ws|
    ensures Sum(ws, f) == Sum(ws[..i] + ws[i + 1..], f) + f(ws[i])
    ensures multiset(ws) == multiset(ws[..i] + ws[i + 1..]) + multiset{ws[i]}
  {
    var head, tail := ws[..i + 1], ws[i + 1..];
    assert ws == head + tail && head == ws[..i] + [ws[i]];
    SumConcat(head, tail, f);
    SumConcat(ws[..i], tail, f);
    assert head[..i] == ws[..i];
  }

  lemma SameWithout(a: seq<Window>, b: seq<Window>, i: nat)
    requires a != [] && multiset(a) == multiset(b) && i < |b| && b[i] == a[|a| - 1]
    ensures multiset(a[..|a| - 1]) == multiset(b[..i] + b[i + 1..])
  {
    hide Sum;
    SumRemove(a, |a| - 1, w => 0.0);
    SumRemove(b, i, w => 0.0);
    assert a[..|a| - 1] + a[|a|..] == a[..|a| - 1];
    assert multiset(a) - multiset{b[i]} == multiset(a[..|a| - 1]);
  }

  /** A sum does not depend on the order of the windows. */
  lemma {:induction false} SumPermutes(a: seq<Window>, b: seq<Window>, f: Window -> real)
    requires multiset(a) == multiset(b)
    ensures Sum(a, f) == Sum(b, f)
    decreases |a|
  {
    if a == [] {
      assert |multiset(b)| == 0;
    } else {
      var n := |a| - 1;
      assert a[n] in multiset(b);
      var i :| 0 <= i < |b| && b[i] == a[n];
      SameWithout(a, b, i);
      SumRemove(b, i, f);
      SumPermutes(a[..n], b[..i] + b[i + 1..], f);
    }
  }

  /** A smaller summand gives a smaller sum, strictly if it is smaller at some window. */
  lemma {:induction false} SumMonotone(ws: seq<Window>, f: Window -> real, g: Window -> real)
    requires forall w :: w in ws ==> f(w) <= g(w)
    ensures Sum(ws, f) <= Sum(ws, g)
    ensures (exists w :: w in ws && f(w) < g(w)) <==> Sum(ws, f) < Sum(ws, g)
  {
    if ws != [] {
      var n := |ws| - 1;
      SumMonotone(ws[..n], f, g);
      assert ws == ws[..n] + [ws[n]];
    }
  }

  function IsPositive(): Window -> real { (w: Window) => if w.positive then 1.0 else 0.0 }

  function AtLeast(x: real): Window -> real { (w: Window) => if w.score >= x then 1.0 else 0.0 }

  function PositiveAtLeast(x: real): Window -> real { (w: Window) => if w.positive && w.score >= x then 1.0 else 0.0 }

  function PositiveAt(x: real): Window -> real { (w: Window) => if w.positive && w.score == x then 1.0 else 0.0 }

  function Positives(ws: seq<Window>): real { Sum(ws, IsPositive()) }

  /** Precision of the detector that selects the windows with a score of at least `x`. */
  function Precision(ws: seq<Window>, x: real): real {
    var selected := Sum(ws, AtLeast(x));
    if selected == 0.0 then 0.0 else Sum(ws, PositiveAtLeast(x)) / selected
  }

  function PrecisionIfPositive(ws: seq<Window>): Window -> real {
    (w: Window) => if w.positive then Precision(ws, w.score) else 0.0
  }

  /** The mean, over the positive windows, of the precision at the window's own score. */
  function MeanPrecision(ws: seq<Window>): real
    requires Positives(ws) != 0.0
  {
    Sum(ws, PrecisionIfPositive(ws)) / Positives(ws)
  }

  // ---------------------------------------------------------------- the sort and the loop

  predicate Descending(ws: seq<Window>) {
    forall i, j :: 0 <= i < j < |ws| ==> ws[i].score >= ws[j].score
  }

  function Insert(w: Window, ws: seq<Window>): (r: seq<Window>)
    ensures multiset(r) == multiset(ws) + multiset{w}
  {
    if ws == [] || ws[|ws| - 1].score >= w.score then ws + [w]
    else
      var n := |ws| - 1;
      assert ws == ws[..n] + [ws[n]];
      Insert(w, ws[..n]) + [ws[n]]
  }

  lemma {:induction false} InsertDescends(w: Window, ws: seq<Window>)
    requires Descending(ws)
    ensures Descending(Insert(w, ws))
  {
    if ws != [] && ws[|ws| - 1].score < w.score {
      var n := |ws| - 1;
      var r := Insert(w, ws[..n]);
      InsertDescends(w, ws[..n]);
      forall v | v in r ensures v.score >= ws[n].score {
        assert v in multiset(r);
        assert v == w || v in ws[..n];
      }
    }
  }

  /** The stable sort by descending score. */
  function Sorted(ws: seq<Window>): (r: seq<Window>)
    ensures Descending(r) && multiset(r) == multiset(ws)
  {
    if ws == [] then []
    else
      var n := |ws| - 1;
      assert ws == ws[..n] + [ws[n]];
      InsertDescends(ws[n], Sorted(ws[..n]));
      Insert(ws[n], Sorted(ws[..n]))
  }

  lemma {:induction false} SumOnes(ws: seq<Window>, f: Window -> real, g: Window -> real)
    requires forall w :: w in ws ==> f(w) == g(w)
    ensures Sum(ws, f) == Sum(ws, g)
  {
    if ws != [] {
      assert ws[|ws| - 1] in ws;
      SumOnes(ws[..|ws| - 1], f, g);
    }
  }

  function One(): Window -> real { (w: Window) => 1.0 }

  function Zero(): Window -> real { (w: Window) => 0.0 }

  lemma {:induction false} SumOfOnes(ws: seq<Window>)
    ensures Sum(ws, One()) == |ws| as real && Sum(ws, Zero()) == 0.0
  {
    if ws != [] { SumOfOnes(ws[..|ws| - 1]); }
  }

  /** Where a threshold cuts the sorted list, its precision is that of the part above the cut. */
  lemma CutPrecision(ws: seq<Window>, k: nat, x: real)
    requires 0 < k <= |ws|
    requires (forall i :: 0 <= i < k ==> ws[i].score >= x) && (forall i :: k <= i < |ws| ==> ws[i].score < x)
    ensures Precision(ws, x) == Positives(ws[..k]) / (k as real)
  {
    var above, below := ws[..k], ws[k..];
    assert ws == above + below;
    SumConcat(above, below, AtLeast(x));
    SumConcat(above, below, PositiveAtLeast(x));
    SumOnes(above, AtLeast(x), One());
    SumOnes(below, AtLeast(x), Zero());
    SumOnes(above, PositiveAtLeast(x), IsPositive());
    SumOnes(below, PositiveAtLeast(x), Zero());
    SumOfOnes(above);
    SumOfOnes(below);
  }

  lemma SumStep(ws: seq<Window>, k: nat, f: Window -> real)
    requires k < |ws|
    ensures Sum(ws[..k + 1], f) == Sum(ws[..k], f) + f(ws[k])
  {
    assert ws[..k + 1][..k] == ws[..k];
  }

  lemma GroupStep(ws: seq<Window>, k: nat, group: real, precision: real)
    requires k < |ws| && precision == Precision(ws, ws[k].score)
    ensures var one := if ws[k].positive then 1.0 else 0.0;
      && Positives(ws[..k + 1]) == Positives(ws[..k]) + one
      && Sum(ws[..k + 1], PrecisionIfPositive(ws)) == Sum(ws[..k], PrecisionIfPositive(ws)) + one * precision
      && (group + one) * precision == group * precision + one * precision
  {
    SumStep(ws, k, IsPositive());
    SumStep(ws, k, PrecisionIfPositive(ws));
  }

  lemma GroupEnds(ws: seq<Window>, start: nat, index: nat)
    requires Descending(ws) && start < index <= |ws| && ws[index - 1].score == ws[start].score
    requires index < |ws| ==> ws[index].score != ws[start].score
    ensures Precision(ws, ws[start].score) == Positives(ws[..index]) / (index as real)
    ensures index < |ws| ==> ws[index - 1].score > ws[index].score
  {
    hide Positives, Precision;
    CutPrecision(ws, index, ws[start].score);
  }

  lemma NoGroupYet(precision: real)
    ensures 0 as real * precision == 0.0
  {
  }

  /** The inner loop: the group of equal scores that starts at `start`. */
  method Group(sorted: seq<Window>, start: nat, ghost f: Window -> real) returns (index: nat, groupPositive: nat)
    requires Descending(sorted) && start < |sorted| && (start > 0 ==> sorted[start - 1].score > sorted[start].score)
    requires f == PrecisionIfPositive(sorted)
    ensures start < index <= |sorted| && (index < |sorted| ==> sorted[index - 1].score > sorted[index].score)
    ensures Positives(sorted[..index]) == Positives(sorted[..start]) + groupPositive as real
    ensures var precision := Positives(sorted[..index]) / (index as real);
      Sum(sorted[..index], f) == Sum(sorted[..start], f) + groupPositive as real * precision
  {
    hide *;
    NoGroupYet(Precision(sorted, sorted[start].score));
    var score := sorted[start].score;
    index, groupPositive := start, 0;
    ghost var precision := Precision(sorted, score);
    while index < |sorted| && sorted[index].score == score
      invariant start <= index <= |sorted|
      invariant index > start ==> sorted[index - 1].score == score
      invariant Positives(sorted[..index]) == Positives(sorted[..start]) + groupPositive as real
      invariant Sum(sorted[..index], f) == Sum(sorted[..start], f) + groupPositive as real * precision
    {
      GroupStep(sorted, index, groupPositive as real, precision);
      if sorted[index].positive { groupPositive := groupPositive + 1; }
      index := index + 1;
    }
    GroupEnds(sorted, start, index);
  }

  lemma NothingSeen(ws: seq<Window>, positives: nat)
    ensures Positives(ws[..0]) == 0.0 && (positives > 0 ==> 0.0 == Sum(ws[..0], PrecisionIfPositive(ws)) / (positives as real))
  {
  }

  lemma MeanPrecisionMeans(ws: seq<Window>)
    ensures Positives(ws) != 0.0 ==> MeanPrecision(ws) == Sum(ws, PrecisionIfPositive(ws)) / Positives(ws)
  {
  }

  lemma AddGroup(sum: real, group: real, positives: real, precision: real)
    requires positives != 0.0
    ensures sum / positives + group / positives * precision == (sum + group * precision) / positives
  {
    assert group / positives * precision == group * precision / positives;
  }

  /** The area that `detection` reports for the windows; None when nothing is positive. */
  method Area(pairs: seq<Window>) returns (aucpr: Option<real>)
    ensures aucpr.None? <==> Positives(pairs) == 0.0
    ensures aucpr.Some? ==> aucpr.value == MeanPrecision(pairs)
  {
    hide *;
    var positives := CountPositives(pairs);
    var sorted := Sorted(pairs);
    var area, seenPositive, index := 0.0, 0, 0;
    NothingSeen(sorted, positives);
    ghost var f := PrecisionIfPositive(sorted);
    while index < |sorted|
      invariant index <= |sorted| && seenPositive as real == Positives(sorted[..index])
      invariant 0 < index < |sorted| ==> sorted[index - 1].score > sorted[index].score
      invariant positives > 0 ==> area == Sum(sorted[..index], f) / (positives as real)
    {
      var seen, groupPositive := Group(sorted, index, f);
      seenPositive := seenPositive + groupPositive;
      if positives > 0 {
        AddGroup(Sum(sorted[..index], f), groupPositive as real, positives as real, seenPositive as real / seen as real);
        area := area + (groupPositive as real / positives as real) * (seenPositive as real / seen as real);
      }
      index := seen;
    }
    assert sorted[..|sorted|] == sorted;
    OrderDoesNotMatter(sorted, pairs);
    MeanPrecisionMeans(pairs);
    aucpr := if positives > 0 then Some(area) else None;
  }

  method CountPositives(pairs: seq<Window>) returns (n: nat)
    ensures n as real == Positives(pairs)
  {
    n := 0;
    assert pairs[..0] == [];
    for i := 0 to |pairs|
      invariant n as real == Positives(pairs[..i])
    {
      SumStep(pairs, i, IsPositive());
      if pairs[i].positive { n := n + 1; }
    }
    assert pairs[..|pairs|] == pairs;
  }

  // ---------------------------------------------------------------- main results

  /** Neither the area nor any precision depends on the order of the windows, ties included. */
  lemma OrderDoesNotMatter(a: seq<Window>, b: seq<Window>)
    requires multiset(a) == multiset(b)
    ensures Positives(a) == Positives(b) && (forall x :: Precision(a, x) == Precision(b, x))
    ensures Sum(a, PrecisionIfPositive(a)) == Sum(b, PrecisionIfPositive(b))
  {
    SumPermutes(a, b, IsPositive());
    forall x ensures Precision(a, x) == Precision(b, x) {
      SumPermutes(a, b, AtLeast(x));
      SumPermutes(a, b, PositiveAtLeast(x));
    }
    SumPermutes(a, b, PrecisionIfPositive(a));
    SumOnes(b, PrecisionIfPositive(a), PrecisionIfPositive(b));
  }

  lemma PrecisionInUnit(ws: seq<Window>, x: real)
    ensures 0.0 <= Precision(ws, x) <= 1.0
    ensures Precision(ws, x) == 1.0 <==> Sum(ws, AtLeast(x)) > 0.0 && Sum(ws, PositiveAtLeast(x)) == Sum(ws, AtLeast(x))
  {
    SumMonotone(ws, PositiveAtLeast(x), AtLeast(x));
    SumMonotone(ws, Zero(), PositiveAtLeast(x));
    SumOfOnes(ws);
    if Sum(ws, AtLeast(x)) > 0.0 { DivideBy(Sum(ws, PositiveAtLeast(x)), Sum(ws, AtLeast(x))); }
  }

  /** A positive window's own precision is 1 exactly when no negative scores as high. */
  lemma PerfectAt(ws: seq<Window>, w: Window)
    requires w in ws && w.positive
    ensures Precision(ws, w.score) == 1.0 <==> forall v :: v in ws && !v.positive ==> v.score < w.score
  {
    var x := w.score;
    PrecisionInUnit(ws, x);
    SumMonotone(ws, Zero(), AtLeast(x));
    SumOfOnes(ws);
    assert Zero()(w) < AtLeast(x)(w);
    SumMonotone(ws, PositiveAtLeast(x), AtLeast(x));
    forall v | v in ws ensures PositiveAtLeast(x)(v) < AtLeast(x)(v) <==> !v.positive && v.score >= x {}
  }

  /** The area lies in the unit interval, and is 1 exactly when every positive scores above every negative. */
  lemma AreaInUnit(ws: seq<Window>)
    requires Positives(ws) != 0.0
    ensures 0.0 <= MeanPrecision(ws) <= 1.0
    ensures MeanPrecision(ws) == 1.0 <==>
      forall v, w :: v in ws && w in ws && w.positive && !v.positive ==> v.score < w.score
  {
    var f, one := PrecisionIfPositive(ws), IsPositive();
    forall w | w in ws ensures Zero()(w) <= f(w) <= one(w) { PrecisionInUnit(ws, w.score); }
    SumMonotone(ws, f, one);
    SumMonotone(ws, Zero(), f);
    SumMonotone(ws, Zero(), one);
    SumOfOnes(ws);
    forall w | w in ws ensures f(w) < one(w) <==> w.positive && exists v :: v in ws && !v.positive && v.score >= w.score {
      PrecisionInUnit(ws, w.score);
      if w.positive { PerfectAt(ws, w); }
    }
    DivideBy(Sum(ws, f), Positives(ws));
  }

  lemma DivideBy(sum: real, positives: real)
    requires 0.0 <= sum <= positives && positives > 0.0
    ensures 0.0 <= sum / positives <= 1.0 && (sum / positives == 1.0 <==> sum == positives)
  {
  }

  // ---------------------------------------------------------------- the form over distinct scores

  /** The number of positives at each score times the precision there, over a list of scores. */
  function ScoreSum(scores: seq<real>, part: seq<Window>, ws: seq<Window>): real {
    if scores == [] then 0.0
    else
      var n := |scores| - 1;
      ScoreSum(scores[..n], part, ws) + Sum(part, PositiveAt(scores[n])) * Precision(ws, scores[n])
  }

  predicate Distinct(scores: seq<real>) { forall i, j :: 0 <= i < j < |scores| ==> scores[i] != scores[j] }

  lemma {:induction false} ScoreSumStep(scores: seq<real>, part: seq<Window>, w: Window, ws: seq<Window>)
    requires Distinct(scores)
    ensures ScoreSum(scores, part + [w], ws) ==
      ScoreSum(scores, part, ws) + if w.positive && w.score in scores then Precision(ws, w.score) else 0.0
  {
    if scores != [] {
      var n := |scores| - 1;
      ScoreSumStep(scores[..n], part, w, ws);
      assert (part + [w])[..|part|] == part;
      var one := if w.positive && w.score == scores[n] then 1.0 else 0.0;
      assert Sum(part + [w], PositiveAt(scores[n])) == Sum(part, PositiveAt(scores[n])) + one;
      assert scores == scores[..n] + [scores[n]];
    }
  }

  lemma {:induction false} ScoreSumOfNone(scores: seq<real>, ws: seq<Window>)
    ensures ScoreSum(scores, [], ws) == 0.0
  {
    if scores != [] { ScoreSumOfNone(scores[..|scores| - 1], ws); }
  }

  lemma {:induction false} ScoreSumIsSum(scores: seq<real>, part: seq<Window>, ws: seq<Window>)
    requires Distinct(scores) && forall w :: w in part && w.positive ==> w.score in scores
    ensures ScoreSum(scores, part, ws) == Sum(part, PrecisionIfPositive(ws))
  {
    if part == [] {
      ScoreSumOfNone(scores, ws);
    } else {
      var n := |part| - 1;
      assert part == part[..n] + [part[n]];
      ScoreSumIsSum(scores, part[..n], ws);
      ScoreSumStep(scores, part[..n], part[n], ws);
    }
  }

  /**
   * The area is the sum, over the distinct scores in any order, of the recall gained at a score
   * times the precision there.
   */
  lemma AreaOverScores(ws: seq<Window>, scores: seq<real>)
    requires Positives(ws) != 0.0 && Distinct(scores) && forall w :: w in ws ==> w.score in scores
    ensures MeanPrecision(ws) == ScoreSum(scores, ws, ws) / Positives(ws)
  {
    ScoreSumIsSum(scores, ws, ws);
  }
}
