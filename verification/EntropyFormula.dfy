/** The entropy of offers in one formula over the numbers of pending, accepted and
    rejected ones, without the counting loop. */
module EntropyFormula {
  import opened Entropy
  import opened Negotiation

  // ------------------------------------------------------------------
  // Counts
  // ------------------------------------------------------------------

  /** What the entries for `y` add up to. */
  function CountIn(counts: seq<(Status, nat)>, y: Status): nat {
    if counts == [] then 0
    else
      var last := counts[|counts| - 1];
      CountIn(counts[..|counts| - 1], y) + (if last.0 == y then last.1 else 0)
  }

  ghost predicate DistinctNames(counts: seq<(Status, nat)>) {
    forall i, j :: 0 <= i < j < |counts| ==> counts[i].0 != counts[j].0
  }

  lemma {:induction false} CountInCons(head: (Status, nat), rest: seq<(Status, nat)>, y: Status)
    ensures CountIn([head] + rest, y) == (if head.0 == y then head.1 else 0) + CountIn(rest, y)
  {
    if rest == [] {
      assert [head] + rest == [head];
    } else {
      var k := |rest| - 1;
      CountInCons(head, rest[..k], y);
      assert ([head] + rest)[..k + 1] == [head] + rest[..k];
    }
  }

  lemma {:induction false} BumpCounts(counts: seq<(Status, nat)>, x: Status, y: Status)
    ensures CountIn(Bump(counts, x), y) == CountIn(counts, y) + (if x == y then 1 else 0)
  {
    if counts == [] {
      CountInCons((x, 1), [], y);
      assert [(x, 1)] + [] == [(x, 1)];
    } else {
      assert counts == [counts[0]] + counts[1..];
      CountInCons(counts[0], counts[1..], y);
      if counts[0].0 == x {
        CountInCons((x, counts[0].1 + 1), counts[1..], y);
      } else {
        BumpCounts(counts[1..], x, y);
        CountInCons(counts[0], Bump(counts[1..], x), y);
      }
    }
  }

  lemma {:induction false} BumpNames(counts: seq<(Status, nat)>, x: Status)
    requires DistinctNames(counts)
    ensures DistinctNames(Bump(counts, x))
    ensures forall i :: 0 <= i < |Bump(counts, x)| ==>
      Bump(counts, x)[i].0 == x || exists j :: 0 <= j < |counts| && counts[j].0 == Bump(counts, x)[i].0
  {
    if counts != [] && counts[0].0 != x {
      BumpNames(counts[1..], x);
      var rest := Bump(counts[1..], x);
      forall i | 0 <= i < |rest| ensures rest[i].0 != counts[0].0 {
        if rest[i].0 != x {
          var j :| 0 <= j < |counts[1..]| && counts[1..][j].0 == rest[i].0;
          assert counts[j + 1] == counts[1..][j];
        }
      }
    }
  }

  /** The tally has one entry for each status that occurs, with the number of times. */
  lemma {:induction false} TallyCounts(xs: seq<Status>, y: Status)
    ensures DistinctNames(Tally(xs)) && CountIn(Tally(xs), y) == multiset(xs)[y]
  {
    if xs != [] {
      var init, last := xs[..|xs| - 1], xs[|xs| - 1];
      TallyCounts(init, y);
      BumpCounts(Tally(init), last, y);
      BumpNames(Tally(init), last);
      assert xs == init + [last];
    }
  }

  // ------------------------------------------------------------------
  // Sums over the three statuses
  // ------------------------------------------------------------------

  /** What `c` of `n` offers contribute. */
  function Part(ln: Log, c: nat, n: nat): real
    requires n > 0
  {
    if c == 0 then 0.0 else -((c as real / n as real) * ln(c as real / n as real))
  }

  function One(c: nat): nat {
    if c == 0 then 0 else 1
  }

  lemma {:induction false} CountOfAbsent(counts: seq<(Status, nat)>, y: Status)
    requires forall i :: 0 <= i < |counts| ==> counts[i].0 != y
    ensures CountIn(counts, y) == 0
  {
    if counts != [] { CountOfAbsent(counts[..|counts| - 1], y); }
  }

  lemma {:induction false} SumOverStatuses(ln: Log, counts: seq<(Status, nat)>, n: nat)
    requires n > 0 && DistinctNames(counts) && Positive(counts)
    ensures LnSum(ln, counts, n) ==
      Part(ln, CountIn(counts, Pending), n) + Part(ln, CountIn(counts, Accepted), n)
      + Part(ln, CountIn(counts, Rejected), n)
    ensures |counts| ==
      One(CountIn(counts, Pending)) + One(CountIn(counts, Accepted)) + One(CountIn(counts, Rejected))
  {
    if counts != [] {
      var init, last := counts[..|counts| - 1], counts[|counts| - 1];
      SumOverStatuses(ln, init, n);
      CountOfAbsent(init, last.0);
      assert Term(ln, Share(last.1, n)) == Part(ln, last.1, n);
    }
  }

  // ------------------------------------------------------------------
  // The formula
  // ------------------------------------------------------------------

  /** The number of statuses that occur, but at least two. */
  function Kinds(statuses: seq<Status>): nat {
    var m := multiset(statuses);
    var k := One(m[Pending]) + One(m[Accepted]) + One(m[Rejected]);
    if k < 2 then 2 else k
  }

  /** Over the logarithm of the number of kinds, the entropy is the sum of what the
      pending, the accepted and the rejected offers contribute; whatever the base. */
  lemma {:induction false} EntropyExactly(ln: Log, statuses: seq<Status>)
    requires IsLog(ln) && ln(2.0) != 0.0 && statuses != []
    ensures var m, n := multiset(statuses), |statuses|;
      IsQuotient(SemanticEntropy(ln, statuses),
                 Part(ln, m[Pending], n) + Part(ln, m[Accepted], n) + Part(ln, m[Rejected], n),
                 ln(Kinds(statuses) as real))
  {
    TallySums(ln, statuses);
    EntropyOverLimit(ln, statuses);
  }

  /** The tally's sum, and its size. */
  lemma TallySums(ln: Log, statuses: seq<Status>)
    requires statuses != []
    ensures var m, n := multiset(statuses), |statuses|;
      && LnSum(ln, Tally(statuses), n) ==
         Part(ln, m[Pending], n) + Part(ln, m[Accepted], n) + Part(ln, m[Rejected], n)
      && Max(|Tally(statuses)|, 2) == Kinds(statuses)
  {
    TallyFacts(statuses);
    TallyCounts(statuses, Pending);
    TallyCounts(statuses, Accepted);
    TallyCounts(statuses, Rejected);
    SumOverStatuses(ln, Tally(statuses), |statuses|);
  }

  lemma OverLimit<T>(ln: Log, statuses: seq<T>, m: real, sum: real)
    requires statuses != [] && m == Max(|Tally(statuses)|, 2) as real
    requires ln(2.0) > 0.0 && ln(m) > 0.0
    requires EntropySum(ln, Tally(statuses), |statuses|) * ln(2.0) == sum
    ensures IsQuotient(SemanticEntropy(ln, statuses), sum, ln(m))
  {
    BaseCancels(ln, statuses, m, sum);
    QuotientBack(sum, ln(m));
  }

  /** The sum in bits and the sum in natural logarithms differ by the base. */
  ghost predicate InBits<T>(ln: Log, counts: seq<(T, nat)>, total: nat)
    requires total > 0 && ln(2.0) > 0.0
  {
    EntropySum(ln, counts, total) * ln(2.0) == LnSum(ln, counts, total)
  }

  lemma AreInBits<T>(ln: Log, counts: seq<(T, nat)>, total: nat)
    requires total > 0 && ln(2.0) > 0.0 && Positive(counts) && AtMost(counts, total)
    ensures InBits(ln, counts, total)
  {
    EntropySumIsLnSum(ln, counts, total);
  }

  lemma InBitsOverLimit<T>(ln: Log, statuses: seq<T>, m: real, n: nat, counts: seq<(T, nat)>)
    requires statuses != [] && m == Max(|Tally(statuses)|, 2) as real && n == |statuses| && counts == Tally(statuses)
    requires ln(2.0) > 0.0 && ln(m) > 0.0 && InBits(ln, counts, n)
    ensures IsQuotient(SemanticEntropy(ln, statuses), LnSum(ln, counts, n), ln(m))
  {
    OverLimit(ln, statuses, m, LnSum(ln, counts, n));
  }

  lemma TallyOverLimit<T>(ln: Log, statuses: seq<T>, m: real, n: nat, counts: seq<(T, nat)>)
    requires statuses != [] && m == Max(|counts|, 2) as real && n == |statuses| && counts == Tally(statuses)
    requires ln(2.0) > 0.0 && ln(m) > 0.0 && Positive(counts) && AtMost(counts, n)
    ensures IsQuotient(SemanticEntropy(ln, statuses), LnSum(ln, counts, n), ln(m))
  {
    AreInBits(ln, counts, n);
    InBitsOverLimit(ln, statuses, m, n, counts);
  }

  lemma EntropyOverLimit<T>(ln: Log, statuses: seq<T>)
    requires IsLog(ln) && ln(2.0) != 0.0 && statuses != []
    ensures IsQuotient(SemanticEntropy(ln, statuses), LnSum(ln, Tally(statuses), |statuses|),
                       ln(Max(|Tally(statuses)|, 2) as real))
  {
    var m := Max(|Tally(statuses)|, 2) as real;
    TallyFacts(statuses);
    PartsAtMostTotal(Tally(statuses));
    LogTwoPositive(ln);
    LimitIsLarger(ln, |Tally(statuses)|, m);
    TallyOverLimit(ln, statuses, m, |statuses|, Tally(statuses));
  }

  /** `q` is `a` over `b`. */
  predicate IsQuotient(q: real, a: real, b: real) {
    b > 0.0 && q * b == a
  }

  lemma QuotientBack(a: real, b: real)
    requires b > 0.0
    ensures (a / b) * b == a
  {
  }

  lemma NoOffersNoAgreement(ln: Log)
    requires ln(2.0) != 0.0
    ensures SemanticEntropy<Status>(ln, []) == 1.0
  {
  }

  /** From an initial entropy that is not zero, the test asks for a relative drop of at
      least `tau`. */
  lemma {:induction false} ConvergenceIsRelativeDrop(ln: Log, tau: real, statuses: seq<Status>, initial: real)
    requires ln(2.0) != 0.0 && initial > 0.0
    ensures Converged(ln, tau, statuses, initial) <==> (initial - SemanticEntropy(ln, statuses)) / initial >= tau
  {
    RelativeDrop(SemanticEntropy(ln, statuses), initial, tau);
  }

  lemma RelativeDrop(final: real, initial: real, tau: real)
    requires initial > 0.0
    ensures final <= (1.0 - tau) * initial <==> (initial - final) / initial >= tau
  {
    var drop := (initial - final) / initial;
    assert drop * initial == initial - final;
    Scaled(drop, tau, initial);
    assert (1.0 - tau) * initial == initial - tau * initial;
  }

  lemma Scaled(a: real, b: real, c: real)
    requires c > 0.0
    ensures a >= b <==> a * c >= b * c
  {
    if a >= b {
      assert (a - b) * c >= 0.0;
    } else {
      assert (b - a) * c > 0.0;
    }
  }
}
