/** Normalised entropy of the offer statuses, over the reals. The logarithm is any
    function with the two properties of the natural one used here. */
module Entropy {

  type Log = real -> real

  ghost predicate ProductLaw(ln: Log, x: real, y: real) {
    x > 0.0 && y > 0.0 ==> ln(x * y) == ln(x) + ln(y)
  }

  ghost predicate TangentLaw(ln: Log, x: real) {
    x > 0.0 ==> ln(x) <= x - 1.0 && (ln(x) == x - 1.0 ==> x == 1.0)
  }

  /** The product law, and ln x <= x - 1 with equality only at one. */
  ghost predicate IsLog(ln: Log) {
    && (forall x: real, y: real :: ProductLaw(ln, x, y))
    && (forall x: real :: TangentLaw(ln, x))
  }

  // ------------------------------------------------------------------
  // Counting
  // ------------------------------------------------------------------

  function Bump<T(==)>(counts: seq<(T, nat)>, x: T): seq<(T, nat)> {
    if counts == [] then [(x, 1)]
    else if counts[0].0 == x then [(x, counts[0].1 + 1)] + counts[1..]
    else [counts[0]] + Bump(counts[1..], x)
  }

  /** How often each value occurs, in order of first appearance. */
  function Tally<T(==)>(xs: seq<T>): seq<(T, nat)> {
    if xs == [] then [] else Bump(Tally(xs[..|xs| - 1]), xs[|xs| - 1])
  }

  function Total<T>(counts: seq<(T, nat)>): nat {
    if counts == [] then 0 else counts[0].1 + Total(counts[1..])
  }

  ghost predicate Positive<T>(counts: seq<(T, nat)>) {
    forall i :: 0 <= i < |counts| ==> counts[i].1 > 0
  }

  predicate Has<T(==)>(counts: seq<(T, nat)>, x: T) {
    exists i :: 0 <= i < |counts| && counts[i].0 == x
  }

  lemma {:induction false} BumpFacts<T>(counts: seq<(T, nat)>, x: T)
    requires Positive(counts)
    ensures Positive(Bump(counts, x)) && Total(Bump(counts, x)) == Total(counts) + 1
    ensures |Bump(counts, x)| == if Has(counts, x) then |counts| else |counts| + 1
    ensures forall y :: Has(Bump(counts, x), y) <==> Has(counts, y) || y == x
  {
    var r := Bump(counts, x);
    if counts != [] {
      var rest := counts[1..];
      assert forall y :: Has(counts, y) <==> counts[0].0 == y || Has(rest, y) by {
        forall y ensures Has(counts, y) <==> counts[0].0 == y || Has(rest, y) { HasCons(counts, y); }
      }
      if counts[0].0 != x {
        BumpFacts(rest, x);
      }
      assert r[1..] == if counts[0].0 == x then rest else Bump(rest, x);
      forall y ensures Has(r, y) <==> Has(counts, y) || y == x { HasCons(r, y); }
    } else {
      assert r[1..] == [];
      forall y ensures Has(r, y) <==> y == x { HasCons(r, y); }
    }
  }

  lemma HasCons<T>(counts: seq<(T, nat)>, y: T)
    requires counts != []
    ensures Has(counts, y) <==> counts[0].0 == y || Has(counts[1..], y)
  {
    if Has(counts, y) {
      var i :| 0 <= i < |counts| && counts[i].0 == y;
      if i > 0 { assert counts[1..][i - 1] == counts[i]; }
    }
    if Has(counts[1..], y) {
      var i :| 0 <= i < |counts[1..]| && counts[1..][i].0 == y;
      assert counts[i + 1] == counts[1..][i];
    }
  }

  predicate Unanimous<T(==)>(xs: seq<T>) {
    forall i :: 0 <= i < |xs| ==> xs[i] == xs[0]
  }

  /** The counts are positive, add up to the length, and there is just one of
      them exactly when all values agree. */
  lemma {:induction false} TallyFacts<T>(xs: seq<T>)
    ensures Positive(Tally(xs)) && Total(Tally(xs)) == |xs|
    ensures forall y :: Has(Tally(xs), y) <==> y in xs
    ensures xs != [] ==> |Tally(xs)| >= 1 && (|Tally(xs)| == 1 <==> Unanimous(xs))
  {
    if xs != [] {
      var init, last := xs[..|xs| - 1], xs[|xs| - 1];
      TallyFacts(init);
      BumpFacts(Tally(init), last);
      assert xs == init + [last];
      if init == [] {
        assert xs == [last];
      } else {
        assert Unanimous(xs) <==> Unanimous(init) && last == init[0];
        if Unanimous(init) {
          assert last in init <==> last == init[0];
        }
      }
    }
  }

  // ------------------------------------------------------------------
  // The entropy of a tally
  // ------------------------------------------------------------------

  function Log2(ln: Log, x: real): real
    requires ln(2.0) != 0.0
  {
    ln(x) / ln(2.0)
  }

  /** The sum of -p log2 p. */
  function EntropySum<T>(ln: Log, counts: seq<(T, nat)>, total: nat): real
    requires total > 0 && ln(2.0) != 0.0
  {
    if counts == [] then 0.0
    else
      var p := counts[|counts| - 1].1 as real / total as real;
      EntropySum(ln, counts[..|counts| - 1], total) - (if p > 0.0 then p * Log2(ln, p) else 0.0)
  }

  function Max(a: nat, b: nat): nat {
    if a >= b then a else b
  }

  /** No offers at all is maximum uncertainty. */
  function SemanticEntropy<T(==)>(ln: Log, statuses: seq<T>): real
    requires ln(2.0) != 0.0
  {
    if statuses == [] then 1.0
    else
      var counts := Tally(statuses);
      var entropy := EntropySum(ln, counts, |statuses|);
      var limit := Log2(ln, Max(|counts|, 2) as real);
      if limit > 0.0 then entropy / limit else 0.0
  }

  method ComputeSemanticEntropy<T(==)>(ln: Log, statuses: seq<T>) returns (h: real)
    requires ln(2.0) != 0.0
    ensures h == SemanticEntropy(ln, statuses)
  {
    if statuses == [] {
      return 1.0;
    }
    var counts: seq<(T, nat)> := [];
    for i := 0 to |statuses|
      invariant counts == Tally(statuses[..i])
    {
      assert statuses[..i + 1][..i] == statuses[..i];
      counts := Bump(counts, statuses[i]);
    }
    assert statuses[..|statuses|] == statuses;
    var entropy := 0.0;
    for i := 0 to |counts|
      invariant entropy == EntropySum(ln, counts[..i], |statuses|)
    {
      assert counts[..i + 1][..i] == counts[..i];
      var p := counts[i].1 as real / |statuses| as real;
      if p > 0.0 {
        entropy := entropy - p * Log2(ln, p);
      }
    }
    assert counts[..|counts|] == counts;
    var limit := Log2(ln, Max(|counts|, 2) as real);
    h := if limit > 0.0 then entropy / limit else 0.0;
  }

  // ------------------------------------------------------------------
  // Gibbs
  // ------------------------------------------------------------------

  lemma Product(ln: Log, x: real, y: real)
    requires IsLog(ln) && x > 0.0 && y > 0.0
    ensures ln(x * y) == ln(x) + ln(y)
  {
    assert ProductLaw(ln, x, y);
  }

  lemma Reciprocal(x: real)
    requires x > 0.0
    ensures 1.0 / x > 0.0 && x * (1.0 / x) == 1.0
    ensures x > 1.0 ==> 1.0 / x < 1.0
  {
  }

  lemma LogOfOne(ln: Log)
    requires IsLog(ln)
    ensures ln(1.0) == 0.0
  {
    Product(ln, 1.0, 1.0);
    assert 1.0 * 1.0 == 1.0;
  }

  lemma LogOfInverse(ln: Log, x: real, y: real)
    requires IsLog(ln) && x > 0.0 && y > 0.0 && x * y == 1.0
    ensures ln(y) == -ln(x)
  {
    Product(ln, x, y);
    LogOfOne(ln);
    assert ln(x * y) == ln(1.0);
  }

  lemma LogFacts(ln: Log, x: real)
    requires IsLog(ln) && x > 0.0
    ensures ln(1.0 / x) == -ln(x)
    ensures x > 1.0 ==> ln(x) > 0.0
    ensures x < 1.0 ==> ln(x) < 0.0
    ensures x == 1.0 ==> ln(x) == 0.0
  {
    Reciprocal(x);
    LogOfInverse(ln, x, 1.0 / x);
    LogOfOne(ln);
    LogBelow(ln, x);
    LogBelow(ln, 1.0 / x);
  }

  lemma LogTwoPositive(ln: Log)
    requires IsLog(ln)
    ensures ln(2.0) > 0.0
  {
    LogFacts(ln, 2.0);
  }

  /** The part of a whole. */
  function Share(c: nat, total: nat): real
    requires total > 0
  {
    c as real / total as real
  }

  lemma ShareBounds(c: nat, total: nat)
    requires 0 < c <= total
    ensures 0.0 < Share(c, total) <= 1.0
    ensures Share(c, total) == 1.0 <==> c == total
  {
    UnitQuotient(c as real, total as real);
  }

  lemma UnitQuotient(a: real, b: real)
    requires 0.0 < a <= b
    ensures 0.0 < a / b <= 1.0
    ensures a / b == 1.0 <==> a == b
  {
    assert (a / b) * b == a;
  }

  /** One term of the sum, in natural logarithms. */
  function Term(ln: Log, p: real): real {
    -(p * ln(p))
  }

  function LnSum<T>(ln: Log, counts: seq<(T, nat)>, total: nat): real
    requires total > 0
  {
    if counts == [] then 0.0
    else LnSum(ln, counts[..|counts| - 1], total) + Term(ln, Share(counts[|counts| - 1].1, total))
  }

  lemma {:induction false} EntropySumIsLnSum<T>(ln: Log, counts: seq<(T, nat)>, total: nat)
    requires total > 0 && ln(2.0) > 0.0 && Positive(counts) && AtMost(counts, total)
    ensures EntropySum(ln, counts, total) * ln(2.0) == LnSum(ln, counts, total)
  {
    if counts != [] {
      var init, c := counts[..|counts| - 1], counts[|counts| - 1].1;
      EntropySumIsLnSum(ln, init, total);
      var p := Share(c, total);
      ShareBounds(c, total);
      TermInBits(ln, p);
    }
  }

  lemma TermInBits(ln: Log, p: real)
    requires ln(2.0) > 0.0
    ensures p * Log2(ln, p) * ln(2.0) == p * ln(p)
  {
    var l := Log2(ln, p);
    assert l * ln(2.0) == ln(p);
    assert p * l * ln(2.0) == p * (l * ln(2.0));
  }

  ghost predicate AtMost<T>(counts: seq<(T, nat)>, total: nat) {
    forall i :: 0 <= i < |counts| ==> counts[i].1 <= total
  }

  lemma TermNonNegative(ln: Log, p: real)
    requires IsLog(ln) && 0.0 < p <= 1.0
    ensures Term(ln, p) >= 0.0
    ensures p < 1.0 ==> Term(ln, p) > 0.0
    ensures p == 1.0 ==> Term(ln, p) == 0.0
  {
    LogFacts(ln, p);
    if p < 1.0 {
      assert p * (-ln(p)) > 0.0;
    }
  }

  lemma TermAlgebra(p: real, k: real, x: real, a: real, b: real)
    requires p > 0.0 && k > 0.0 && x * (k * p) == 1.0 && -a - b <= x - 1.0
    ensures -(p * b) <= p * a + 1.0 / k - p
  {
    assert p * (-a - b) <= p * (x - 1.0);
    assert p * (-a - b) == -(p * a) - p * b;
    assert p * (x - 1.0) == p * x - p;
    assert p * x == 1.0 / k by {
      assert (p * x) * k == x * (k * p);
      SolveQuotient(p * x, k);
    }
  }

  lemma SolveQuotient(y: real, k: real)
    requires k > 0.0 && y * k == 1.0
    ensures y == 1.0 / k
  {
  }

  /** p ln (1/p) <= p ln k + 1/k - p. */
  lemma TermBound(ln: Log, p: real, k: real)
    requires IsLog(ln) && p > 0.0 && k > 0.0
    ensures Term(ln, p) <= p * ln(k) + 1.0 / k - p
  {
    var kp := k * p;
    Reciprocal(kp);
    Product(ln, k, p);
    LogFacts(ln, kp);
    LogBelow(ln, 1.0 / kp);
    TermAlgebra(p, k, 1.0 / kp, ln(k), ln(p));
  }

  lemma LogBelow(ln: Log, x: real)
    requires IsLog(ln) && x > 0.0
    ensures ln(x) <= x - 1.0
    ensures x != 1.0 ==> ln(x) < x - 1.0
  {
    assert TangentLaw(ln, x);
  }

  lemma {:induction false} TotalSplit<T>(counts: seq<(T, nat)>)
    requires counts != []
    ensures Total(counts) == Total(counts[..|counts| - 1]) + counts[|counts| - 1].1
  {
    if |counts| > 1 {
      TotalSplit(counts[1..]);
      assert counts[1..][..|counts| - 2] == counts[..|counts| - 1][1..];
    } else {
      assert counts[1..] == [] && counts[..0] == [];
    }
  }

  lemma ShareAdds(a: nat, b: nat, total: nat)
    requires total > 0
    ensures Share(a + b, total) == Share(a, total) + Share(b, total)
  {
  }

  /** Every term is non-negative, positive when its count is short of the total,
      and at most p l + inv - p. */
  ghost predicate TermsWithin<T>(ln: Log, counts: seq<(T, nat)>, total: nat, l: real, inv: real)
    requires total > 0
  {
    forall i :: 0 <= i < |counts| ==>
      var p := Share(counts[i].1, total);
      && 0.0 <= Term(ln, p) <= Bound(p, l, inv)
      && (counts[i].1 < total ==> Term(ln, p) > 0.0)
  }

  lemma GibbsTerms<T>(ln: Log, counts: seq<(T, nat)>, total: nat, k: real)
    requires IsLog(ln) && total > 0 && k > 0.0 && Positive(counts) && AtMost(counts, total)
    ensures TermsWithin(ln, counts, total, ln(k), 1.0 / k)
  {
    forall i | 0 <= i < |counts|
      ensures 0.0 <= Term(ln, Share(counts[i].1, total)) <= Bound(Share(counts[i].1, total), ln(k), 1.0 / k)
      ensures counts[i].1 < total ==> Term(ln, Share(counts[i].1, total)) > 0.0
    {
      ShareBounds(counts[i].1, total);
      TermBound(ln, Share(counts[i].1, total), k);
      TermNonNegative(ln, Share(counts[i].1, total));
    }
  }

  function Bound(p: real, l: real, inv: real): real {
    p * l + inv - p
  }

  function BoundSum<T>(counts: seq<(T, nat)>, total: nat, l: real, inv: real): real
    requires total > 0
  {
    if counts == [] then 0.0
    else BoundSum(counts[..|counts| - 1], total, l, inv) + Bound(Share(counts[|counts| - 1].1, total), l, inv)
  }

  function Closed(s: real, l: real, n: real, inv: real): real {
    s * l + n * inv - s
  }

  lemma BoundsAdd(s: real, p: real, t: real, l: real, n: real, m: real, inv: real)
    requires t == s + p && m == n + 1.0
    ensures Closed(s, l, n, inv) + Bound(p, l, inv) == Closed(t, l, m, inv)
  {
    assert t * l == s * l + p * l;
    assert m * inv == n * inv + inv;
  }

  lemma {:induction false} BoundSumClosed<T>(counts: seq<(T, nat)>, total: nat, l: real, inv: real)
    requires total > 0
    ensures BoundSum(counts, total, l, inv) == Closed(Share(Total(counts), total), l, |counts| as real, inv)
  {
    if counts != [] {
      var init, c := counts[..|counts| - 1], counts[|counts| - 1].1;
      BoundSumClosed(init, total, l, inv);
      TotalSplit(counts);
      ShareAdds(Total(init), c, total);
      BoundsAdd(Share(Total(init), total), Share(c, total), Share(Total(counts), total), l,
                |init| as real, |counts| as real, inv);
    }
  }

  /** Partial sums of the terms, bounded above by Gibbs and below by zero. */
  lemma {:induction false} LnSumBounds<T>(ln: Log, counts: seq<(T, nat)>, total: nat, l: real, inv: real)
    requires total > 0 && TermsWithin(ln, counts, total, l, inv)
    ensures 0.0 <= LnSum(ln, counts, total) <= BoundSum(counts, total, l, inv)
    ensures (exists i :: 0 <= i < |counts| && counts[i].1 < total) ==> LnSum(ln, counts, total) > 0.0
  {
    if counts != [] {
      var init := counts[..|counts| - 1];
      assert forall i :: 0 <= i < |init| ==> init[i] == counts[i];
      LnSumBounds(ln, init, total, l, inv);
      if exists i :: 0 <= i < |counts| && counts[i].1 < total {
        var i :| 0 <= i < |counts| && counts[i].1 < total;
        if i < |init| { assert init[i] == counts[i]; }
      }
    }
  }

  lemma {:induction false} PartsAtMostTotal<T>(counts: seq<(T, nat)>)
    ensures AtMost(counts, Total(counts))
  {
    if counts != [] {
      PartsAtMostTotal(counts[1..]);
      forall i | 0 <= i < |counts| ensures counts[i].1 <= Total(counts) {
        if i > 0 { assert counts[1..][i - 1] == counts[i]; }
      }
    }
  }

  /** With several counts, every one of them is short of the total. */
  lemma SomeCountShort<T>(counts: seq<(T, nat)>)
    requires Positive(counts) && |counts| >= 2
    ensures counts[0].1 < Total(counts)
  {
    assert counts[1..][0] == counts[1];
    assert Total(counts[1..]) >= counts[1].1;
  }

  lemma QuotientInUnit(a: real, b: real)
    requires 0.0 <= a <= b && b > 0.0
    ensures 0.0 <= a / b <= 1.0
    ensures a / b == 0.0 <==> a == 0.0
  {
    var q := a / b;
    assert q * b == a;
  }

  lemma CancelLogTwo(x: real, y: real, c: real, z: real, d: real)
    requires c > 0.0 && y > 0.0 && x * c == z && d == y / c
    ensures d > 0.0 && x / d == z / y
  {
    assert d * c == y;
    assert d > 0.0;
    var q := x / d;
    assert q * d == x;
    assert q * y == z by { assert q * (d * c) == (q * d) * c; }
    assert q == z / y;
  }

  /** The base of the logarithm cancels in the normalised entropy. */
  lemma {:induction false} BaseCancels<T>(ln: Log, statuses: seq<T>, m: real, sum: real)
    requires statuses != [] && m == Max(|Tally(statuses)|, 2) as real
    requires ln(2.0) > 0.0 && ln(m) > 0.0
    requires EntropySum(ln, Tally(statuses), |statuses|) * ln(2.0) == sum
    ensures SemanticEntropy(ln, statuses) == sum / ln(m)
  {
    CancelLogTwo(EntropySum(ln, Tally(statuses), |statuses|), ln(m), ln(2.0), sum, Log2(ln, m));
  }

  lemma ClosedAtOne(l: real, n: real, inv: real)
    requires n * inv == 1.0
    ensures Closed(1.0, l, n, inv) == l
  {
  }

  lemma GibbsUpper<T>(ln: Log, counts: seq<(T, nat)>, total: nat, k: real)
    requires IsLog(ln) && Positive(counts) && total == Total(counts) > 0 && k == |counts| as real > 0.0
    ensures BoundSum(counts, total, ln(k), 1.0 / k) == ln(k)
  {
    BoundSumClosed(counts, total, ln(k), 1.0 / k);
    ShareBounds(total, total);
    Reciprocal(k);
    ClosedAtOne(ln(k), k, 1.0 / k);
  }

  /** Gibbs' inequality: the sum is at most ln of the number of counts, and is
      positive as soon as there are two. */
  lemma Gibbs<T>(ln: Log, counts: seq<(T, nat)>)
    requires IsLog(ln) && Positive(counts) && counts != []
    ensures Total(counts) > 0
    ensures 0.0 <= LnSum(ln, counts, Total(counts)) <= ln(|counts| as real)
    ensures |counts| >= 2 ==> LnSum(ln, counts, Total(counts)) > 0.0
  {
    var total, k := Total(counts), |counts| as real;
    PartsAtMostTotal(counts);
    assert counts[0].1 <= total;
    GibbsTerms(ln, counts, total, k);
    LnSumBounds(ln, counts, total, ln(k), 1.0 / k);
    GibbsUpper(ln, counts, total, k);
    if |counts| >= 2 {
      SomeCountShort(counts);
    }
  }

  lemma SingleCount<T>(ln: Log, counts: seq<(T, nat)>)
    requires IsLog(ln) && Positive(counts) && |counts| == 1
    ensures Total(counts) > 0 && LnSum(ln, counts, Total(counts)) == 0.0
  {
    Gibbs(ln, counts);
    LogOfOne(ln);
  }

  /** What the logarithm contributes: the sum in natural logarithms, against
      the normalising limit. */
  lemma SumWithinLimit<T>(ln: Log, counts: seq<(T, nat)>, m: real)
    requires IsLog(ln) && Positive(counts) && counts != [] && m == Max(|counts|, 2) as real
    ensures Total(counts) > 0 && ln(m) > 0.0
    ensures 0.0 <= LnSum(ln, counts, Total(counts)) <= ln(m)
    ensures LnSum(ln, counts, Total(counts)) == 0.0 <==> |counts| == 1
  {
    Gibbs(ln, counts);
    LimitIsLarger(ln, |counts|, m);
    if |counts| == 1 {
      SingleCount(ln, counts);
    }
  }

  lemma SumInBits<T>(ln: Log, counts: seq<(T, nat)>)
    requires IsLog(ln) && Positive(counts) && Total(counts) > 0
    ensures ln(2.0) > 0.0
    ensures EntropySum(ln, counts, Total(counts)) * ln(2.0) == LnSum(ln, counts, Total(counts))
  {
    LogTwoPositive(ln);
    PartsAtMostTotal(counts);
    EntropySumIsLnSum(ln, counts, Total(counts));
  }

  /** Normalised entropy lies in [0, 1] for every non-empty list of statuses, and
      is zero exactly when they all agree. */
  lemma {:induction false} EntropyInUnit<T>(ln: Log, statuses: seq<T>)
    requires IsLog(ln) && ln(2.0) != 0.0 && statuses != []
    ensures 0.0 <= SemanticEntropy(ln, statuses) <= 1.0
    ensures SemanticEntropy(ln, statuses) == 0.0 <==> Unanimous(statuses)
  {
    TallyFacts(statuses);
    var m := Max(|Tally(statuses)|, 2) as real;
    SumWithinLimit(ln, Tally(statuses), m);
    SumInBits(ln, Tally(statuses));
    NormalisedInUnit(ln, statuses, m, LnSum(ln, Tally(statuses), |statuses|));
  }

  lemma NormalisedInUnit<T>(ln: Log, statuses: seq<T>, m: real, sum: real)
    requires statuses != [] && m == Max(|Tally(statuses)|, 2) as real
    requires ln(2.0) > 0.0 && ln(m) > 0.0
    requires EntropySum(ln, Tally(statuses), |statuses|) * ln(2.0) == sum
    requires 0.0 <= sum <= ln(m)
    ensures 0.0 <= SemanticEntropy(ln, statuses) <= 1.0
    ensures SemanticEntropy(ln, statuses) == 0.0 <==> sum == 0.0
  {
    BaseCancels(ln, statuses, m, sum);
    QuotientInUnit(sum, ln(m));
  }

  lemma LimitIsLarger(ln: Log, n: nat, m: real)
    requires IsLog(ln) && n >= 1 && m == Max(n, 2) as real
    ensures ln(n as real) <= ln(m) && ln(m) > 0.0
  {
    LogOfOne(ln);
    LogFacts(ln, m);
  }

  // ------------------------------------------------------------------
  // Convergence
  // ------------------------------------------------------------------

  predicate Converged<T(==)>(ln: Log, tau: real, statuses: seq<T>, initial: real)
    requires ln(2.0) != 0.0
  {
    SemanticEntropy(ln, statuses) <= (1.0 - tau) * initial
  }

  /** From an initial entropy of zero the test succeeds exactly on unanimity; and
      for tolerances up to one unanimity always converges. */
  lemma {:induction false} ConvergenceIsUnanimity<T>(ln: Log, tau: real, before: seq<T>, after: seq<T>)
    requires IsLog(ln) && ln(2.0) != 0.0 && before != [] && after != []
    ensures Unanimous(before) ==>
      (Converged(ln, tau, after, SemanticEntropy(ln, before)) <==> Unanimous(after))
    ensures tau <= 1.0 && Unanimous(after) ==> Converged(ln, tau, after, SemanticEntropy(ln, before))
  {
    EntropyInUnit(ln, before);
    EntropyInUnit(ln, after);
    var h := SemanticEntropy(ln, before);
    if tau <= 1.0 {
      assert (1.0 - tau) * h >= 0.0;
    }
    if Unanimous(before) {
      assert (1.0 - tau) * h == 0.0;
    }
  }
}
