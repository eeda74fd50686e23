/** The population stability index: quantile edges, histogram, clipped divergence. */
module Psi {

  // ---------------------------------------------------------------- sorting

  predicate Sorted(s: seq<real>) {
    forall i, j :: 0 <= i < j < |s| ==> s[i] <= s[j]
  }

  function Insert(s: seq<real>, x: real): (r: seq<real>)
    ensures multiset(r) == multiset(s) + multiset{x}
  {
    if s == [] || x <= s[0] then [x] + s
    else
      assert s == [s[0]] + s[1..];
      [s[0]] + Insert(s[1..], x)
  }

  lemma {:induction false} InsertSorted(s: seq<real>, x: real)
    requires Sorted(s)
    ensures Sorted(Insert(s, x))
  {
    if s != [] && x > s[0] {
      InsertSorted(s[1..], x);
      var r := Insert(s[1..], x);
      forall j | 0 <= j < |r| ensures s[0] <= r[j] {
        assert r[j] in multiset(r);
        assert r[j] == x || r[j] in s[1..];
      }
    }
  }

  function Sort(s: seq<real>): (r: seq<real>)
    ensures Sorted(r) && multiset(r) == multiset(s) && |r| == |s|
  {
    if s == [] then []
    else
      assert s == [s[0]] + s[1..];
      var r := Sort(s[1..]);
      InsertSorted(r, s[0]);
      assert |multiset(Insert(r, s[0]))| == |multiset(s)|;
      Insert(r, s[0])
  }

  // ---------------------------------------------------------------- edges

  datatype Edge = NegInf | Fin(value: real) | PosInf

  predicate AtLeast(x: real, e: Edge) {
    e.NegInf? || (e.Fin? && e.value <= x)
  }

  /** Quotient and remainder. */
  function Divide(p: nat, b: nat): (r: (nat, nat))
    requires b > 0
    ensures r.1 < b
  {
    if p < b then (0, p) else (Divide(p - b, b).0 + 1, Divide(p - b, b).1)
  }

  lemma {:induction false} DivideMeaning(p: nat, b: nat)
    requires b > 0
    ensures p == Divide(p, b).0 * b + Divide(p, b).1
  {
    if p >= b {
      DivideMeaning(p - b, b);
      assert (Divide(p - b, b).0 + 1) * b == Divide(p - b, b).0 * b + b;
    }
  }

  lemma ProductMonotone(m: nat, k: int, l: int)
    ensures k <= l ==> m * k <= m * l
  {
  }

  /** Quotients and remainders are ordered like the numbers divided. */
  lemma QuotientOrder(x: int, y: int, d: int, r: int, d': int, r': int, b: nat)
    requires x <= y && x == d * b + r && y == d' * b + r' && 0 <= r < b && 0 <= r' < b
    ensures d < d' || (d == d' && r <= r')
  {
    ProductMonotone(b, 1, d - d');
    assert b * (d - d') == d * b - d' * b;
  }

  lemma PositionBounds(m: nat, k: nat, bins: nat)
    requires bins > 0 && k <= bins
    ensures var (low, rest) := Divide(m * k, bins); low <= m && (rest > 0 ==> low < m)
  {
    var (low, rest) := Divide(m * k, bins);
    DivideMeaning(m * k, bins);
    ProductMonotone(m, k, bins);
    QuotientOrder(m * k, m * bins, low, rest, m, 0, bins);
  }

  /** Where quantile k/bins falls in n = m + 1 sorted values: an index and a remainder in bins-ths. */
  function Position(m: nat, k: nat, bins: nat): (r: (nat, nat))
    requires bins > 0 && k <= bins
    ensures r.0 <= m && r.1 < bins && (r.1 > 0 ==> r.0 < m)
  {
    PositionBounds(m, k, bins);
    Divide(m * k, bins)
  }

  /** Linear interpolation between neighbours. */
  function Between(s: seq<real>, low: nat, rest: nat, bins: nat): real
    requires low < |s| && rest < bins && (rest > 0 ==> low + 1 < |s|)
  {
    if rest == 0 then s[low] else s[low] + (rest as real / bins as real) * (s[low + 1] - s[low])
  }

  /** The sorted sample's k/bins quantile, at position (n-1)k/bins. */
  function Quantile(s: seq<real>, k: nat, bins: nat): real
    requires s != [] && bins > 0 && k <= bins
  {
    var (low, rest) := Position(|s| - 1, k, bins);
    Between(s, low, rest, bins)
  }

  /**
   * Where a quantile lies, for any way of writing (n-1)k as d * bins + r: at s[d],
   * or r bins-ths of the way from s[d] to s[d+1].
   */
  lemma QuantileMeaning(s: seq<real>, k: nat, bins: nat, d: nat, r: nat)
    requires s != [] && bins > 0 && k <= bins
    requires (|s| - 1) * k == d * bins + r && r < bins
    ensures d < |s| && (r > 0 ==> d + 1 < |s|)
    ensures r == 0 ==> Quantile(s, k, bins) == s[d]
    ensures r > 0 ==> bins as real * (Quantile(s, k, bins) - s[d]) == r as real * (s[d + 1] - s[d])
  {
    PositionIs(|s| - 1, k, bins, d, r);
    BetweenMeaning(s, d, r, bins);
  }

  lemma PositionIs(m: nat, k: nat, bins: nat, d: nat, r: nat)
    requires bins > 0 && k <= bins && m * k == d * bins + r && r < bins
    ensures Position(m, k, bins) == (d, r)
  {
    var (low, rest) := Position(m, k, bins);
    DivideMeaning(m * k, bins);
    QuotientOrder(m * k, m * k, low, rest, d, r, bins);
    QuotientOrder(m * k, m * k, d, r, low, rest, bins);
  }

  lemma BetweenMeaning(s: seq<real>, low: nat, rest: nat, bins: nat)
    requires low < |s| && rest < bins && (rest > 0 ==> low + 1 < |s|)
    ensures rest == 0 ==> Between(s, low, rest, bins) == s[low]
    ensures rest > 0 ==> bins as real * (Between(s, low, rest, bins) - s[low]) == rest as real * (s[low + 1] - s[low])
  {
    if rest > 0 {
      FractionOf(rest as real, bins as real, s[low + 1] - s[low]);
    }
  }

  lemma FractionOf(r: real, b: real, x: real)
    requires b > 0.0
    ensures b * ((r / b) * x) == r * x
  {
    assert b * (r / b) == r;
    assert b * ((r / b) * x) == (b * (r / b)) * x;
  }

  /** The quantiles of a sorted sample, with both end edges moved out to infinity. */
  function Edges(s: seq<real>, bins: nat): (edges: seq<Edge>)
    requires s != [] && bins > 0
    ensures |edges| == bins + 1 && edges[0] == NegInf && edges[bins] == PosInf
  {
    seq(bins + 1, k requires 0 <= k <= bins => Fin(Quantile(s, k, bins)))[0 := NegInf][bins := PosInf]
  }

  lemma ScaleMonotone(f: real, g: real, d: real)
    requires f <= g && d >= 0.0
    ensures f * d <= g * d
  {
  }

  lemma FractionMonotone(r: nat, t: nat, b: nat)
    requires 0 < b && r <= t
    ensures 0.0 <= r as real / b as real <= t as real / b as real
    ensures t <= b ==> t as real / b as real <= 1.0
    ensures r > 0 ==> r as real / b as real > 0.0
  {
  }

  lemma BetweenBounds(s: seq<real>, low: nat, rest: nat, bins: nat)
    requires Sorted(s) && low < |s| && rest < bins && (rest > 0 ==> low + 1 < |s|)
    ensures s[low] <= Between(s, low, rest, bins)
    ensures rest > 0 ==> Between(s, low, rest, bins) <= s[low + 1]
  {
    if rest > 0 {
      var f, d := rest as real / bins as real, s[low + 1] - s[low];
      FractionMonotone(rest, bins, bins);
      ScaleMonotone(0.0, f, d);
      ScaleMonotone(f, 1.0, d);
    }
  }

  lemma BetweenMonotone(s: seq<real>, low: nat, rest: nat, low': nat, rest': nat, bins: nat)
    requires Sorted(s) && low < |s| && rest < bins && (rest > 0 ==> low + 1 < |s|)
    requires low' < |s| && rest' < bins && (rest' > 0 ==> low' + 1 < |s|)
    requires low < low' || (low == low' && rest <= rest')
    ensures Between(s, low, rest, bins) <= Between(s, low', rest', bins)
  {
    BetweenBounds(s, low, rest, bins);
    BetweenBounds(s, low', rest', bins);
    if low == low' && rest > 0 {
      FractionMonotone(rest, rest', bins);
      ScaleMonotone(rest as real / bins as real, rest' as real / bins as real, s[low + 1] - s[low]);
    }
  }

  lemma PositionMonotone(m: nat, k: nat, l: nat, bins: nat)
    requires bins > 0 && k <= l <= bins
    ensures var p, q := Position(m, k, bins), Position(m, l, bins);
            p.0 < q.0 || (p.0 == q.0 && p.1 <= q.1)
  {
    var p, q := Position(m, k, bins), Position(m, l, bins);
    ProductMonotone(m, k, l);
    DivideMeaning(m * k, bins);
    DivideMeaning(m * l, bins);
    QuotientOrder(m * k, m * l, p.0, p.1, q.0, q.1, bins);
  }

  /** Quantiles rise with k. */
  lemma QuantileMonotone(s: seq<real>, k: nat, l: nat, bins: nat)
    requires s != [] && Sorted(s) && bins > 0 && k <= l <= bins
    ensures Quantile(s, k, bins) <= Quantile(s, l, bins)
  {
    var p, q := Position(|s| - 1, k, bins), Position(|s| - 1, l, bins);
    PositionMonotone(|s| - 1, k, l, bins);
    BetweenMonotone(s, p.0, p.1, q.0, q.1, bins);
  }

  /** Whatever is at or above `f` is at or above `e`. */
  ghost predicate NotAbove(e: Edge, f: Edge) {
    forall x :: AtLeast(x, f) ==> AtLeast(x, e)
  }

  ghost predicate AscendingEdges(edges: seq<Edge>) {
    forall i, j :: 0 <= i < j < |edges| ==> NotAbove(edges[i], edges[j])
  }

  lemma EdgesAscend(s: seq<real>, bins: nat)
    requires s != [] && Sorted(s) && bins > 0
    ensures AscendingEdges(Edges(s, bins))
  {
    var edges := Edges(s, bins);
    forall i, j | 0 <= i < j < |edges| ensures NotAbove(edges[i], edges[j]) {
      QuantileMonotone(s, i, j, bins);
    }
  }

  // ---------------------------------------------------------------- histogram

  /** Half-open bins; with an infinite last edge closing the last bin changes nothing. */
  predicate InBin(x: real, edges: seq<Edge>, i: nat)
    requires i + 1 < |edges|
  {
    AtLeast(x, edges[i]) && !AtLeast(x, edges[i + 1])
  }

  function Count(xs: seq<real>, edges: seq<Edge>, i: nat): nat
    requires i + 1 < |edges|
  {
    if xs == [] then 0 else (if InBin(xs[0], edges, i) then 1 else 0) + Count(xs[1..], edges, i)
  }

  function Histogram(xs: seq<real>, edges: seq<Edge>): seq<nat>
    requires edges != []
  {
    seq(|edges| - 1, i requires 0 <= i < |edges| - 1 => Count(xs, edges, i))
  }

  function SumOf(counts: seq<nat>): nat {
    if counts == [] then 0 else SumOf(counts[..|counts| - 1]) + counts[|counts| - 1]
  }

  function Above(xs: seq<real>, e: Edge): nat {
    if xs == [] then 0 else (if AtLeast(xs[0], e) then 1 else 0) + Above(xs[1..], e)
  }

  lemma {:induction false} CountIsDifference(xs: seq<real>, edges: seq<Edge>, i: nat)
    requires i + 1 < |edges| && AscendingEdges(edges)
    ensures Count(xs, edges, i) + Above(xs, edges[i + 1]) == Above(xs, edges[i])
  {
    if xs != [] {
      CountIsDifference(xs[1..], edges, i);
      assert NotAbove(edges[i], edges[i + 1]);
    }
  }

  lemma {:induction false} PrefixSum(xs: seq<real>, edges: seq<Edge>, k: nat)
    requires k < |edges| && AscendingEdges(edges)
    ensures SumOf(Histogram(xs, edges)[..k]) + Above(xs, edges[k]) == Above(xs, edges[0])
  {
    if k > 0 {
      PrefixSum(xs, edges, k - 1);
      CountIsDifference(xs, edges, k - 1);
      assert Histogram(xs, edges)[..k][..k - 1] == Histogram(xs, edges)[..k - 1];
    }
  }

  lemma {:induction false} AboveEnds(xs: seq<real>)
    ensures Above(xs, NegInf) == |xs| && Above(xs, PosInf) == 0
  {
    if xs != [] {
      AboveEnds(xs[1..]);
    }
  }

  /** The bins partition any sample: the counts sum to its size. */
  lemma HistogramSums(expected: seq<real>, bins: nat, xs: seq<real>)
    requires expected != [] && bins > 0
    ensures SumOf(Histogram(xs, Edges(Sort(expected), bins))) == |xs|
  {
    var edges := Edges(Sort(expected), bins);
    EdgesAscend(Sort(expected), bins);
    PrefixSum(xs, edges, bins);
    AboveEnds(xs);
    assert Histogram(xs, edges)[..bins] == Histogram(xs, edges);
  }

  // ---------------------------------------------------------------- divergence

  const FLOOR := 0.000001

  function Clip(x: real): real {
    if x < FLOOR then FLOOR else x
  }

  function Share(count: nat, size: nat): real {
    Clip(count as real / (if size < 1 then 1 else size) as real)
  }

  function Term(e: real, a: real, ln: real -> real): real
    requires e > 0.0
  {
    (a - e) * ln(a / e)
  }

  function Divergence(es: seq<real>, actuals: seq<real>, ln: real -> real): real
    requires |es| == |actuals| && forall i :: 0 <= i < |es| ==> es[i] > 0.0
  {
    if es == [] then 0.0 else Term(es[0], actuals[0], ln) + Divergence(es[1..], actuals[1..], ln)
  }

  function Shares(xs: seq<real>, edges: seq<Edge>): (r: seq<real>)
    requires edges != []
    ensures |r| == |edges| - 1 && forall i :: 0 <= i < |r| ==> r[i] >= FLOOR && r[i] == Share(Count(xs, edges, i), |xs|)
  {
    seq(|edges| - 1, i requires 0 <= i < |edges| - 1 => Share(Count(xs, edges, i), |xs|))
  }

  /** population_stability_index, over a logarithm given as `ln`. */
  function Index(expected: seq<real>, actual: seq<real>, bins: nat, ln: real -> real): real
    requires expected != [] && bins > 0
  {
    var edges := Edges(Sort(expected), bins);
    Divergence(Shares(expected, edges), Shares(actual, edges), ln)
  }

  /** All that is assumed of the logarithm: its sign on either side of 1. */
  ghost predicate SignOfLn(ln: real -> real) {
    && ln(1.0) == 0.0
    && (forall x :: x > 1.0 ==> ln(x) > 0.0)
    && (forall x :: 0.0 < x < 1.0 ==> ln(x) < 0.0)
  }

  lemma QuotientSide(e: real, a: real)
    requires e > 0.0 && a > 0.0
    ensures a > e ==> a / e > 1.0
    ensures a < e ==> 0.0 < a / e < 1.0
    ensures a == e ==> a / e == 1.0
  {
    var q := a / e;
    assert q * e == a;
    ProductSign(q - 1.0, e);
    ProductSign(1.0 - q, e);
    assert (q - 1.0) * e == a - e && (1.0 - q) * e == e - a;
    if q <= 0.0 {
      ScaleMonotone(q, 0.0, e);
    }
  }

  lemma ProductSign(x: real, y: real)
    ensures x > 0.0 && y > 0.0 ==> x * y > 0.0
    ensures x < 0.0 && y < 0.0 ==> x * y > 0.0
    ensures x == 0.0 ==> x * y == 0.0
  {
  }

  /** A bin contributes nothing if its shares agree, and something positive otherwise. */
  lemma TermSign(e: real, a: real, ln: real -> real)
    requires e > 0.0 && a > 0.0 && SignOfLn(ln)
    ensures if a == e then Term(e, a, ln) == 0.0 else Term(e, a, ln) > 0.0
  {
    QuotientSide(e, a);
    ProductSign(a - e, ln(a / e));
  }

  lemma {:induction false} DivergenceSign(es: seq<real>, actuals: seq<real>, ln: real -> real)
    requires |es| == |actuals| && SignOfLn(ln)
    requires forall i :: 0 <= i < |es| ==> es[i] > 0.0 && actuals[i] > 0.0
    ensures Divergence(es, actuals, ln) >= 0.0
    ensures Divergence(es, actuals, ln) == 0.0 <==> es == actuals
  {
    if es != [] {
      TermSign(es[0], actuals[0], ln);
      DivergenceSign(es[1..], actuals[1..], ln);
      assert es == [es[0]] + es[1..] && actuals == [actuals[0]] + actuals[1..];
    }
  }

  /** The index is never negative, and zero exactly if both samples have the same clipped shares. */
  lemma IndexSign(expected: seq<real>, actual: seq<real>, bins: nat, ln: real -> real)
    requires expected != [] && bins > 0 && SignOfLn(ln)
    ensures Index(expected, actual, bins, ln) >= 0.0
    ensures Index(expected, actual, bins, ln) == 0.0
            <==> Shares(expected, Edges(Sort(expected), bins)) == Shares(actual, Edges(Sort(expected), bins))
  {
    var edges := Edges(Sort(expected), bins);
    DivergenceSign(Shares(expected, edges), Shares(actual, edges), ln);
  }

  /** A share is count over size, but never less than a millionth; an empty sample counts as size 1. */
  lemma ShareMeaning(count: nat, size: nat)
    ensures var n := if size == 0 then 1 else size;
            if 1_000_000 * count >= n then Share(count, size) * n as real == count as real
            else Share(count, size) == 0.000001
  {
    var n := (if size == 0 then 1 else size) as real;
    var q := count as real / n;
    assert q * n == count as real;
    if q < FLOOR {
      ProductSign(FLOOR - q, n);
      assert (FLOOR - q) * n == FLOOR * n - q * n;
    } else {
      ScaleMonotone(FLOOR, q, n);
    }
  }

  /** Relative entropy of p over q, bin by bin. */
  function Relative(ps: seq<real>, qs: seq<real>, ln: real -> real): real
    requires |ps| == |qs| && forall i :: 0 <= i < |qs| ==> qs[i] > 0.0
  {
    if ps == [] then 0.0 else ps[0] * ln(ps[0] / qs[0]) + Relative(ps[1..], qs[1..], ln)
  }

  /** What a logarithm does to a reciprocal. */
  predicate Flips(ln: real -> real, x: real)
    requires x > 0.0
  {
    ln(1.0 / x) == -ln(x)
  }

  lemma TermSplits(e: real, a: real, ln: real -> real)
    requires e > 0.0 && a > 0.0 && a / e > 0.0 && Flips(ln, a / e)
    ensures Term(e, a, ln) == a * ln(a / e) + e * ln(e / a)
  {
    var q := a / e;
    assert q * e == a;
    assert 1.0 / q == e / a by {
      assert q * (e / a) == (q * e) / a;
      assert q * (e / a) == 1.0;
    }
  }

  /** For a logarithm, the index is the relative entropy of each set of shares over the other, summed. */
  lemma {:induction false} DivergenceIsSymmetricEntropy(es: seq<real>, actuals: seq<real>, ln: real -> real)
    requires |es| == |actuals| && (forall x :: x > 0.0 ==> Flips(ln, x))
    requires forall i :: 0 <= i < |es| ==> es[i] > 0.0 && actuals[i] > 0.0
    ensures Divergence(es, actuals, ln) == Relative(actuals, es, ln) + Relative(es, actuals, ln)
  {
    if es != [] {
      QuotientSide(es[0], actuals[0]);
      assert Flips(ln, actuals[0] / es[0]);
      TermSplits(es[0], actuals[0], ln);
      DivergenceIsSymmetricEntropy(es[1..], actuals[1..], ln);
    }
  }

  // ---------------------------------------------------------------- blindness

  /** ceil((bins-1)(n-1)/bins): the first sorted position at or above the last interior quantile. */
  function LastEdgePosition(n: nat, bins: nat): (r: nat)
    requires n > 0 && bins > 0
    ensures r < n
  {
    var (low, rest) := Position(n - 1, bins - 1, bins);
    if rest == 0 then low else low + 1
  }

  /** The least position not below (bins-1)(n-1)/bins. */
  lemma LastEdgePositionMeaning(n: nat, bins: nat)
    requires n > 0 && bins > 0
    ensures var r := LastEdgePosition(n, bins);
            bins * (r - 1) < (n - 1) * (bins - 1) <= bins * r
  {
    var p := (n - 1) * (bins - 1);
    var (low, rest) := Position(n - 1, bins - 1, bins);
    DivideMeaning(p, bins);
    assert bins * (low - 1) == low * bins - bins && bins * (low + 1) == low * bins + bins;
  }

  /** The last interior edge is the minimum exactly if that position still holds the minimum. */
  lemma LastEdgeAtMinimum(s: seq<real>, bins: nat)
    requires s != [] && Sorted(s) && bins > 0
    ensures s[0] <= Quantile(s, bins - 1, bins) <= s[LastEdgePosition(|s|, bins)]
    ensures Quantile(s, bins - 1, bins) == s[0] <==> s[LastEdgePosition(|s|, bins)] == s[0]
  {
  }

  /** The sorted reference still equals its minimum at the last edge position. */
  predicate MinimumReachesLastEdge(s: seq<real>, bins: nat)
    requires s != [] && bins > 0
  {
    s[LastEdgePosition(|s|, bins)] == s[0]
  }

  predicate AllAtLeast(xs: seq<real>, m: real) {
    forall x :: x in xs ==> m <= x
  }

  /** Every interior edge at m: all of a sample at or above m lands in the last bin. */
  lemma {:induction false} AllInLastBin(xs: seq<real>, edges: seq<Edge>, m: real, i: nat)
    requires |edges| > 1 && i + 1 < |edges| && AllAtLeast(xs, m)
    requires edges[0] == NegInf && edges[|edges| - 1] == PosInf
    requires forall k :: 0 < k < |edges| - 1 ==> edges[k] == Fin(m)
    ensures Count(xs, edges, i) == if i + 2 == |edges| then |xs| else 0
  {
    if xs != [] {
      assert xs[0] in xs && forall x :: x in xs[1..] ==> x in xs;
      AllInLastBin(xs[1..], edges, m, i);
    }
  }

  lemma FullShare(n: nat)
    requires n > 0
    ensures Share(n, n) == 1.0 && Share(0, n) == FLOOR
  {
    QuotientSide(n as real, n as real);
    assert 0.0 / n as real == 0.0;
  }

  /** A share short of everything stays below 1. */
  lemma PartialShare(c: nat, n: nat)
    requires c < n && n > 0
    ensures Share(c, n) < 1.0
  {
  }

  lemma {:induction false} CountBelowSize(xs: seq<real>, edges: seq<Edge>, i: nat)
    requires i + 1 < |edges|
    ensures Count(xs, edges, i) <= |xs|
    ensures (exists x :: x in xs && !InBin(x, edges, i)) ==> Count(xs, edges, i) < |xs|
  {
    if xs != [] {
      CountBelowSize(xs[1..], edges, i);
      if x :| x in xs && !InBin(x, edges, i) {
        assert x == xs[0] || x in xs[1..];
      }
    }
  }

  lemma EdgeAt(s: seq<real>, bins: nat, k: nat)
    requires s != [] && 0 < k < bins
    ensures Edges(s, bins)[k] == Fin(Quantile(s, k, bins))
  {
  }

  lemma QuantileAboveMinimum(s: seq<real>, k: nat, bins: nat)
    requires s != [] && Sorted(s) && bins > 0 && k <= bins
    ensures s[0] <= Quantile(s, k, bins)
  {
  }

  lemma InteriorEdgesAtMinimum(s: seq<real>, bins: nat, k: nat)
    requires s != [] && Sorted(s) && 0 < k < bins && MinimumReachesLastEdge(s, bins)
    ensures Edges(s, bins)[k] == Fin(s[0])
  {
    EdgeAt(s, bins, k);
    LastEdgeAtMinimum(s, bins);
    QuantileMonotone(s, k, bins - 1, bins);
    QuantileAboveMinimum(s, k, bins);
  }

  /** Blind side: with the minimum up to the last edge position, any shift upwards goes unnoticed. */
  lemma ShiftGoesUnnoticed(expected: seq<real>, actual: seq<real>, bins: nat, ln: real -> real)
    requires expected != [] && actual != [] && bins > 0 && SignOfLn(ln)
    requires MinimumReachesLastEdge(Sort(expected), bins) && AllAtLeast(actual, Sort(expected)[0])
    ensures Index(expected, actual, bins, ln) == 0.0
  {
    var s := Sort(expected);
    forall k | 0 < k < bins ensures Edges(s, bins)[k] == Fin(s[0]) {
      InteriorEdgesAtMinimum(s, bins, k);
    }
    MinimumFirst(expected);
    SameShares(expected, actual, Edges(s, bins), s[0]);
    IndexSign(expected, actual, bins, ln);
  }

  lemma SameShares(expected: seq<real>, actual: seq<real>, edges: seq<Edge>, m: real)
    requires expected != [] && actual != [] && AllAtLeast(expected, m) && AllAtLeast(actual, m)
    requires |edges| > 1 && edges[0] == NegInf && edges[|edges| - 1] == PosInf
    requires forall k :: 0 < k < |edges| - 1 ==> edges[k] == Fin(m)
    ensures Shares(expected, edges) == Shares(actual, edges)
  {
    FullShare(|expected|);
    FullShare(|actual|);
    forall i | 0 <= i < |edges| - 1 ensures Shares(expected, edges)[i] == Shares(actual, edges)[i] {
      AllInLastBin(expected, edges, m, i);
      AllInLastBin(actual, edges, m, i);
    }
  }

  lemma MinimumFirst(xs: seq<real>)
    requires xs != []
    ensures Sort(xs)[0] in xs && AllAtLeast(xs, Sort(xs)[0])
  {
    var s := Sort(xs);
    assert s[0] in multiset(s);
    forall x | x in xs ensures s[0] <= x {
      assert x in multiset(s);
    }
  }

  lemma OneBinPosition(n: nat)
    requires n > 0
    ensures LastEdgePosition(n, 1) == 0
  {
  }

  /** The reference's minimum lies below the last edge and its maximum does not. */
  lemma LastEdgeSeparates(s: seq<real>, bins: nat)
    requires s != [] && Sorted(s) && bins > 0 && !MinimumReachesLastEdge(s, bins)
    ensures InBin(s[|s| - 1], Edges(s, bins), bins - 1) && !InBin(s[0], Edges(s, bins), bins - 1)
  {
    LastEdgeAtMinimum(s, bins);
    if bins == 1 {
      OneBinPosition(|s|);
    } else {
      EdgeAt(s, bins, bins - 1);
    }
  }

  /** One value in a bin that some reference value misses makes the shares differ. */
  lemma SharesDiffer(expected: seq<real>, x: real, y: real, edges: seq<Edge>, i: nat)
    requires i + 1 < |edges| && y in expected && InBin(x, edges, i) && !InBin(y, edges, i)
    ensures Shares(expected, edges) != Shares([x], edges)
  {
    CountBelowSize(expected, edges, i);
    assert Count([x][1..], edges, i) == 0 && Count([x], edges, i) == 1;
    FullShare(1);
    PartialShare(Count(expected, edges, i), |expected|);
    assert Shares(expected, edges)[i] != Shares([x], edges)[i];
  }

  /** Otherwise a window holding only a value of the last bin, such as the maximum, is noticed. */
  lemma ShiftIsNoticed(expected: seq<real>, top: real, bottom: real, bins: nat, ln: real -> real)
    requires expected != [] && bins > 0 && SignOfLn(ln) && bottom in expected
    requires var edges := Edges(Sort(expected), bins); InBin(top, edges, bins - 1) && !InBin(bottom, edges, bins - 1)
    ensures Index(expected, [top], bins, ln) > 0.0
  {
    SharesDiffer(expected, top, bottom, Edges(Sort(expected), bins), bins - 1);
    IndexSign(expected, [top], bins, ln);
  }

  /**
   * The index is blind to every upward change exactly if the sorted reference
   * still equals its minimum at position ceil((bins-1)(n-1)/bins).
   */
  lemma BlindExactly(expected: seq<real>, bins: nat, ln: real -> real)
    requires expected != [] && bins > 0 && SignOfLn(ln)
    ensures (forall actual :: actual != [] && AllAtLeast(actual, Sort(expected)[0]) ==> Index(expected, actual, bins, ln) == 0.0)
            <==> MinimumReachesLastEdge(Sort(expected), bins)
  {
    var s := Sort(expected);
    if MinimumReachesLastEdge(s, bins) {
      forall actual | actual != [] && AllAtLeast(actual, s[0]) ensures Index(expected, actual, bins, ln) == 0.0 {
        ShiftGoesUnnoticed(expected, actual, bins, ln);
      }
    } else {
      var top := s[|s| - 1];
      LastEdgeSeparates(s, bins);
      MinimumFirst(expected);
      ShiftIsNoticed(expected, top, s[0], bins, ln);
      assert AllAtLeast([top], s[0]);
    }
  }

  /**
   * As the drift job calls it, four bins over non-negative class labels: if label
   * 0 fills the sorted reference up to position ceil(3(n-1)/4), no change of the
   * live labels shows.
   */
  lemma LabelDriftUnseen(reference: seq<real>, live: seq<real>, ln: real -> real)
    requires reference != [] && live != [] && SignOfLn(ln)
    requires AllAtLeast(reference, 0.0) && AllAtLeast(live, 0.0)
    requires Sort(reference)[LastEdgePosition(|reference|, 4)] == 0.0
    ensures Index(reference, live, 4, ln) == 0.0
  {
    MinimumFirst(reference);
    ShiftGoesUnnoticed(reference, live, 4, ln);
  }
}
