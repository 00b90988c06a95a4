/** Composing a plan from offers, ordering its steps by a model's answer, and the
    fallback decision. */
module Negotiation {
  import opened Options
  import opened Json
  import opened Entropy

  datatype Status = Pending | Accepted | Rejected

  datatype Offer = Offer(capability: string, description: string, requiredScopes: seq<string>)

  datatype NegotiationRecord = NegotiationRecord(agent: string, offer: Offer, status: Status)

  datatype Step = Step(agent: string, offer: Offer)

  /** One step per accepted offer, in the order the offers arrived. */
  function ComposeOffers(offers: seq<NegotiationRecord>): seq<Step> {
    if offers == [] then []
    else
      var init, last := ComposeOffers(offers[..|offers| - 1]), offers[|offers| - 1];
      if last.status == Accepted then init + [Step(last.agent, last.offer)] else init
  }

  function AcceptedAgents(offers: seq<NegotiationRecord>): seq<string> {
    if offers == [] then []
    else
      var init, last := AcceptedAgents(offers[..|offers| - 1]), offers[|offers| - 1];
      if last.status == Accepted then init + [last.agent] else init
  }

  function Statuses(offers: seq<NegotiationRecord>): (r: seq<Status>)
    ensures |r| == |offers| && forall i :: 0 <= i < |offers| ==> r[i] == offers[i].status
  {
    if offers == [] then [] else [offers[0].status] + Statuses(offers[1..])
  }

  // ------------------------------------------------------------------
  // Ordering
  // ------------------------------------------------------------------

  /** What the model is asked and answers: nothing, when no model is configured; no
      usable list, when the call fails or answers something else; or a list of
      any JSON values. `nestedSorts` says whether Python can sort the lists nested
      in it, which depends on what they hold and on which ones it compares. */
  datatype OrderAnswer = NoModel | Unusable | Listed(entries: seq<Json>, nestedSorts: bool)

  datatype Ordering = Ordered(steps: seq<Step>) | Raised

  /** Python's truth of a value: what `x or []` keeps. */
  predicate Truthy(v: Json) {
    match v
    case JNull => false
    case JBool(b) => b
    case JInt(n) => n != 0
    case JFloat(r) => r != 0.0
    case JStr(s) => s != ""
    case JList(items) => items != []
    case JObj(fields) => fields != []
  }

  /** Every sub-intent can be asked for its parts. */
  /** What Python takes for false: nothing, no, zero of either kind, and whatever is empty. */
  lemma TruthyExactly(v: Json)
    ensures !Truthy(v) <==>
      v == JNull || v == JBool(false) || v == JInt(0) || v == JFloat(0.0) || v == JStr("") || v == JList([])
      || v == JObj([])
  {
  }

  predicate Readable(subIntents: Json) {
    subIntents.JList? && forall i :: 0 <= i < |subIntents.items| ==> subIntents.items[i].JObj?
  }

  /** Sub-intents that are there and cannot be read. */
  predicate Malformed(subIntents: Json) {
    Truthy(subIntents) && !Readable(subIntents)
  }

  /** The kinds among which Python has an order; null and objects have none. */
  datatype Kind = Number | Text | Nested | Unordered

  function KindOf(v: Json): Kind {
    match v
    case JBool(_) | JInt(_) | JFloat(_) => Number
    case JStr(_) => Text
    case JList(_) => Nested
    case JNull | JObj(_) => Unordered
  }

  predicate Comparable(a: Json, b: Json) {
    KindOf(a) == KindOf(b) && KindOf(a) != Unordered
  }

  predicate AllNested(entries: seq<Json>) {
    forall i :: 0 <= i < |entries| ==> KindOf(entries[i]) == Nested
  }

  predicate Unsortable(entries: seq<Json>) {
    exists i :: 0 <= i < |entries| && !Comparable(entries[0], entries[i])
  }

  /** `sorted` raises. */
  predicate SortRaises(answer: OrderAnswer)
    requires answer.Listed?
  {
    |answer.entries| >= 2 && (Unsortable(answer.entries) || (AllNested(answer.entries) && !answer.nestedSorts))
  }

  ghost predicate IsPart(part: set<nat>, n: nat) {
    part != {} && (forall i :: i in part ==> i < n) && exists i: nat :: i < n && i !in part
  }

  /** One of the pairs has one position in the part and one outside. */
  ghost predicate Crosses(pairs: set<(nat, nat)>, part: set<nat>, n: nat) {
    exists p :: p in pairs && p.0 < n && p.1 < n && (p.0 in part <==> p.1 !in part)
  }

  /** The pairs a sort compares connect all positions: otherwise two parts of the
      list would stay in an unknown order. */
  ghost predicate Connects(pairs: set<(nat, nat)>, n: nat) {
    forall part :: IsPart(part, n) ==> Crosses(pairs, part, n)
  }

  ghost predicate MeetsIncomparable(pairs: set<(nat, nat)>, entries: seq<Json>) {
    exists p :: p in pairs && p.0 < |entries| && p.1 < |entries| && !Comparable(entries[p.0], entries[p.1])
  }

  /** Whatever a sort compares, it meets two values without an order exactly when
      the list is unsortable. */
  lemma AnySortMeetsIncomparable(entries: seq<Json>, pairs: set<(nat, nat)>)
    requires |entries| >= 2 && Connects(pairs, |entries|)
    ensures Unsortable(entries) <==> MeetsIncomparable(pairs, entries)
  {
    if Unsortable(entries) {
      var k :| 0 <= k < |entries| && !Comparable(entries[0], entries[k]);
      var part := if KindOf(entries[0]) == Unordered then {0} else OfKind(entries, KindOf(entries[0]));
      assert 0 in part && (if KindOf(entries[0]) == Unordered then 1 !in part else k !in part);
      assert IsPart(part, |entries|);
      var p :| p in pairs && p.0 < |entries| && p.1 < |entries| && (p.0 in part <==> p.1 !in part);
      assert !Comparable(entries[p.0], entries[p.1]);
    }
  }

  ghost function OfKind(entries: seq<Json>, kind: Kind): set<nat> {
    set i: nat | i < |entries| && KindOf(entries[i]) == kind
  }

  /** Usable as a list index: true and false count as 1 and 0. */
  predicate IsIndex(v: Json) {
    v.JInt? || v.JBool?
  }

  /** A number without a fraction; floats among them equal an integer but index
      nothing. */
  predicate IsIntegral(v: Json) {
    IsIndex(v) || (v.JFloat? && v.r == v.r.Floor as real)
  }

  predicate AllIntegral(entries: seq<Json>) {
    forall i :: 0 <= i < |entries| ==> IsIntegral(entries[i])
  }

  predicate AllIndices(entries: seq<Json>) {
    forall i :: 0 <= i < |entries| ==> IsIndex(entries[i])
  }

  function IntegerOf(v: Json): int
    requires IsIntegral(v)
  {
    match v
    case JInt(n) => n
    case JBool(b) => if b then 1 else 0
    case JFloat(r) => r.Floor
  }

  function Values(entries: seq<Json>): (r: seq<int>)
    requires AllIntegral(entries)
    ensures |r| == |entries| && forall i :: 0 <= i < |entries| ==> r[i] == IntegerOf(entries[i])
  {
    if entries == [] then [] else [IntegerOf(entries[0])] + Values(entries[1..])
  }

  function Insert(x: int, xs: seq<int>): (r: seq<int>)
    ensures multiset(r) == multiset(xs) + multiset{x}
  {
    if xs == [] || x <= xs[0] then [x] + xs
    else
      assert xs == [xs[0]] + xs[1..];
      [xs[0]] + Insert(x, xs[1..])
  }

  function Sorted(xs: seq<int>): (r: seq<int>)
    ensures multiset(r) == multiset(xs)
  {
    if xs == [] then []
    else
      assert xs == [xs[0]] + xs[1..];
      Insert(xs[0], Sorted(xs[1..]))
  }

  function Range(n: nat): (r: seq<int>)
    ensures |r| == n && forall i :: 0 <= i < n ==> r[i] == i
  {
    if n == 0 then [] else Range(n - 1) + [n - 1]
  }

  predicate IndicesOf(xs: seq<int>, n: nat) {
    forall i :: 0 <= i < |xs| ==> 0 <= xs[i] < n
  }

  function Pick(steps: seq<Step>, order: seq<int>): (r: seq<Step>)
    requires IndicesOf(order, |steps|)
    ensures |r| == |order| && forall i :: 0 <= i < |order| ==> r[i] == steps[order[i]]
  {
    if order == [] then [] else [steps[order[0]]] + Pick(steps, order[1..])
  }

  /** The sorted-equals-range check makes the answer a bijection on indices. */
  lemma {:induction false} SortedRangeIsBijection(xs: seq<int>, n: nat)
    requires Sorted(xs) == Range(n)
    ensures |xs| == n && IndicesOf(xs, n)
    ensures forall i :: 0 <= i < n ==> i in xs
    ensures forall i, j :: 0 <= i < j < n ==> xs[i] != xs[j]
  {
    assert multiset(xs) == multiset(Range(n));
    assert |multiset(xs)| == |xs| && |multiset(Range(n))| == n;
    RangeHasEachOnce(n);
    forall i | 0 <= i < |xs| ensures 0 <= xs[i] < n {
      assert xs[i] in multiset(xs);
    }
    forall i | 0 <= i < n ensures i in xs {
      assert i in multiset(xs);
    }
    forall i, j | 0 <= i < j < n ensures xs[i] != xs[j] {
      if xs[i] == xs[j] {
        TwiceInMultiset(xs, i, j);
      }
    }
  }

  lemma {:induction false} RangeHasEachOnce(n: nat)
    ensures forall x :: multiset(Range(n))[x] == if 0 <= x < n then 1 else 0
  {
    if n > 0 {
      RangeHasEachOnce(n - 1);
    }
  }

  lemma TwiceInMultiset(xs: seq<int>, i: nat, j: nat)
    requires i < j < |xs| && xs[i] == xs[j]
    ensures multiset(xs)[xs[i]] >= 2
  {
    assert xs == xs[..j] + xs[j..];
    assert xs[..j][i] == xs[i] && xs[j..][0] == xs[j];
    assert xs[i] in xs[..j] && xs[i] in xs[j..];
  }

  function OrderSteps(steps: seq<Step>, subIntents: Json, answer: OrderAnswer): Ordering {
    if |steps| < 2 || !Truthy(subIntents) || answer.NoModel? then Ordered(steps)
    else if !Readable(subIntents) then Raised
    else if answer.Unusable? || |answer.entries| != |steps| then Ordered(steps)
    else if SortRaises(answer) then Raised
    else if !AllIntegral(answer.entries) || Sorted(Values(answer.entries)) != Range(|steps|) then Ordered(steps)
    else if !AllIndices(answer.entries) then Raised
    else
      SortedRangeIsBijection(Values(answer.entries), |steps|);
      Ordered(Pick(steps, Values(answer.entries)))
  }

  lemma {:induction false} IndicesInsert(x: int, xs: seq<int>, n: nat)
    requires 0 <= x < n && IndicesOf(xs, n)
    ensures IndicesOf(Insert(x, xs), n)
  {
    if xs != [] && x > xs[0] {
      IndicesInsert(x, xs[1..], n);
    }
  }

  /** The steps an order picks, without their order. */
  ghost function Bag(steps: seq<Step>, order: seq<int>): multiset<Step>
    requires IndicesOf(order, |steps|)
  {
    if order == [] then multiset{} else multiset{steps[order[0]]} + Bag(steps, order[1..])
  }

  lemma {:induction false} PickIsBag(steps: seq<Step>, order: seq<int>)
    requires IndicesOf(order, |steps|)
    ensures multiset(Pick(steps, order)) == Bag(steps, order)
  {
    if order != [] {
      PickIsBag(steps, order[1..]);
    }
  }

  lemma BagCons(steps: seq<Step>, x: int, xs: seq<int>)
    requires 0 <= x < |steps| && IndicesOf(xs, |steps|)
    ensures Bag(steps, [x] + xs) == multiset{steps[x]} + Bag(steps, xs)
  {
  }

  lemma {:induction false} BagInsert(steps: seq<Step>, x: int, xs: seq<int>)
    requires 0 <= x < |steps| && IndicesOf(xs, |steps|)
    ensures IndicesOf(Insert(x, xs), |steps|)
    ensures Bag(steps, Insert(x, xs)) == multiset{steps[x]} + Bag(steps, xs)
  {
    IndicesInsert(x, xs, |steps|);
    if xs == [] || x <= xs[0] {
      BagCons(steps, x, xs);
    } else {
      BagInsert(steps, x, xs[1..]);
      BagCons(steps, xs[0], Insert(x, xs[1..]));
    }
  }

  /** Sorting the indices does not change which steps they pick. */
  lemma {:induction false} BagSorted(steps: seq<Step>, xs: seq<int>)
    requires IndicesOf(xs, |steps|)
    ensures IndicesOf(Sorted(xs), |steps|)
    ensures Bag(steps, Sorted(xs)) == Bag(steps, xs)
  {
    if xs != [] {
      BagSorted(steps, xs[1..]);
      BagInsert(steps, xs[0], Sorted(xs[1..]));
    }
  }

  lemma {:induction false} PickByRange(steps: seq<Step>, order: seq<int>)
    requires Sorted(order) == Range(|steps|) && IndicesOf(order, |steps|)
    ensures multiset(Pick(steps, order)) == multiset(steps)
  {
    BagSorted(steps, order);
    PickIsBag(steps, order);
    PickIsBag(steps, Range(|steps|));
    PickEverything(steps);
  }

  lemma PickEverything(steps: seq<Step>)
    ensures IndicesOf(Range(|steps|), |steps|) && Pick(steps, Range(|steps|)) == steps
  {
  }

  /** The answers that rearrange the indices. */
  predicate Rearranges(answer: OrderAnswer, n: nat) {
    answer.Listed? && AllIntegral(answer.entries) && multiset(Values(answer.entries)) == multiset(Range(n))
  }

  /** Whatever the model answers, a plan that is ordered keeps exactly the steps it
      was given; and an answer that is not a rearrangement of the indices leaves
      their order alone. */
  lemma OrderStepsPermutes(steps: seq<Step>, subIntents: Json, answer: OrderAnswer)
    requires OrderSteps(steps, subIntents, answer).Ordered?
    ensures multiset(OrderSteps(steps, subIntents, answer).steps) == multiset(steps)
    ensures !Rearranges(answer, |steps|) ==> OrderSteps(steps, subIntents, answer).steps == steps
  {
    if answer.Listed? && AllIndices(answer.entries) && Sorted(Values(answer.entries)) == Range(|steps|) {
      SortedRangeIsBijection(Values(answer.entries), |steps|);
      PickByRange(steps, Values(answer.entries));
    }
  }

  /** Ordering raises exactly when there are steps to order, sub-intents to order
      them by and a model to ask, and either the sub-intents cannot be read, or the
      answer is a list of the right length that cannot be sorted, or one that
      rearranges the indices and writes one as a float. */
  lemma {:induction false} OrderStepsRaisesExactly(steps: seq<Step>, subIntents: Json, answer: OrderAnswer)
    ensures OrderSteps(steps, subIntents, answer).Raised? <==>
      && |steps| >= 2 && Truthy(subIntents) && !answer.NoModel?
      && (|| !Readable(subIntents)
          || (answer.Listed? && |answer.entries| == |steps|
              && (SortRaises(answer) || (Rearranges(answer, |steps|) && !AllIndices(answer.entries)))))
  {
    if answer.Listed? && |answer.entries| == |steps| {
      if AllIntegral(answer.entries) {
        SortUnique(Values(answer.entries), |steps|);
      }
      RearrangementSorts(answer, |steps|);
    }
  }

  /** Numbers can always be sorted. */
  lemma RearrangementSorts(answer: OrderAnswer, n: nat)
    requires answer.Listed?
    ensures Rearranges(answer, n) ==> !SortRaises(answer)
  {
  }

  /** A list of objects, the likely wrong answer, raises. */
  lemma ObjectsRaise(a: Step, b: Step, nestedSorts: bool)
    ensures OrderSteps([a, b], JList([JObj([])]), Listed([JObj([]), JObj([])], nestedSorts)) == Raised
  {
    assert !Comparable([JObj([]), JObj([])][0], [JObj([]), JObj([])][0]);
  }

  /** So does text among the sub-intents, whatever the model answers. */
  lemma TextSubIntentsRaise(a: Step, b: Step, answer: OrderAnswer)
    ensures OrderSteps([a, b], JList([JStr("s")]), answer) == Raised <==> !answer.NoModel?
  {
    assert JList([JStr("s")]).items[0] == JStr("s");
  }

  /** And so do indices written as floats. */
  lemma {:induction false} FloatsRaise(a: Step, b: Step, nestedSorts: bool)
    ensures OrderSteps([a, b], JList([JObj([])]), Listed([JFloat(1.0), JFloat(0.0)], nestedSorts)).Raised?
  {
    var answer := Listed([JFloat(1.0), JFloat(0.0)], nestedSorts);
    FloatsRearrange(nestedSorts);
    assert answer.entries[0] == JFloat(1.0);
    OrderStepsRaisesExactly([a, b], JList([JObj([])]), answer);
  }

  lemma FloatsRearrange(nestedSorts: bool)
    ensures Rearranges(Listed([JFloat(1.0), JFloat(0.0)], nestedSorts), 2)
  {
    var floats := [JFloat(1.0), JFloat(0.0)];
    FloatIsIntegral(1.0, 1);
    FloatIsIntegral(0.0, 0);
    TwoSwapped(Values(floats));
  }

  lemma FloatIsIntegral(r: real, n: int)
    requires r == n as real
    ensures IsIntegral(JFloat(r)) && IntegerOf(JFloat(r)) == n
  {
  }

  lemma TwoSwapped(xs: seq<int>)
    requires |xs| == 2 && xs[0] == 1 && xs[1] == 0
    ensures multiset(xs) == multiset(Range(2))
  {
    assert xs == [1, 0] && Range(2) == [0, 1];
  }

  predicate Ascending(xs: seq<int>) {
    forall i, j :: 0 <= i < j < |xs| ==> xs[i] <= xs[j]
  }

  lemma {:induction false} InsertAscends(x: int, xs: seq<int>)
    requires Ascending(xs)
    ensures Ascending(Insert(x, xs))
  {
    if xs != [] && x > xs[0] {
      InsertAscends(x, xs[1..]);
      var rest := Insert(x, xs[1..]);
      forall j | 0 <= j < |rest| ensures xs[0] <= rest[j] {
        assert rest[j] in multiset(rest);
      }
    }
  }

  lemma {:induction false} SortedAscends(xs: seq<int>)
    ensures Ascending(Sorted(xs))
  {
    if xs != [] {
      SortedAscends(xs[1..]);
      InsertAscends(xs[0], Sorted(xs[1..]));
    }
  }

  lemma LeastFirst(a: seq<int>, b: seq<int>)
    requires a != [] && b != [] && Ascending(a) && Ascending(b) && multiset(a) == multiset(b)
    ensures a[0] == b[0]
  {
    assert a[0] in multiset(b) && b[0] in multiset(a);
    assert a[0] in b && b[0] in a;
  }

  lemma TailMultiset(a: seq<int>)
    requires a != []
    ensures multiset(a[1..]) == multiset(a) - multiset{a[0]}
  {
    assert a == [a[0]] + a[1..];
  }

  lemma {:induction false} AscendingUnique(a: seq<int>, b: seq<int>)
    requires Ascending(a) && Ascending(b) && multiset(a) == multiset(b)
    ensures a == b
  {
    assert |a| == |multiset(a)| == |multiset(b)| == |b|;
    if a != [] {
      LeastFirst(a, b);
      TailMultiset(a);
      TailMultiset(b);
      AscendingUnique(a[1..], b[1..]);
      assert a == [a[0]] + a[1..] && b == [b[0]] + b[1..];
    }
  }

  /** Sorting to the range is being a rearrangement of it. */
  lemma {:induction false} SortUnique(xs: seq<int>, n: nat)
    ensures Sorted(xs) == Range(n) <==> multiset(xs) == multiset(Range(n))
  {
    if multiset(xs) == multiset(Range(n)) {
      SortedAscends(xs);
      AscendingUnique(Sorted(xs), Range(n));
    }
  }

  // ------------------------------------------------------------------
  // Fallback
  // ------------------------------------------------------------------

  lemma OrderPicks(steps: seq<Step>, subIntents: Json, answer: OrderAnswer)
    requires |steps| >= 2 && Truthy(subIntents) && Rearranges(answer, |steps|) && |answer.entries| == |steps|
    requires OrderSteps(steps, subIntents, answer).Ordered?
    ensures AllIndices(answer.entries) && IndicesOf(Values(answer.entries), |steps|)
    ensures OrderSteps(steps, subIntents, answer).steps == Pick(steps, Values(answer.entries))
  {
    SortUnique(Values(answer.entries), |steps|);
    SortedRangeIsBijection(Values(answer.entries), |steps|);
  }

  /** The index an entry stands for: Python's booleans are numbers. */
  function IndexOf(v: Json): int
    requires v.JInt? || v.JBool?
  {
    if v.JInt? then v.n else if v.b then 1 else 0
  }

  /** An answer that rearranges the indices is followed: the i-th step of the plan is the
      one at the i-th index. */
  lemma {:induction false} OrderFollowsAnswer(steps: seq<Step>, subIntents: Json, answer: OrderAnswer, i: nat)
    requires |steps| >= 2 && Truthy(subIntents) && Rearranges(answer, |steps|) && |answer.entries| == |steps|
    requires OrderSteps(steps, subIntents, answer).Ordered? && i < |steps|
    ensures var r, v := OrderSteps(steps, subIntents, answer).steps, answer.entries[i];
      |r| == |steps| && (v.JInt? || v.JBool?) && 0 <= IndexOf(v) < |steps| && r[i] == steps[IndexOf(v)]
  {
    OrderPicks(steps, subIntents, answer);
    assert IsIndex(answer.entries[i]);
    assert Values(answer.entries)[i] == IndexOf(answer.entries[i]);
  }

  datatype Fallback = RecursiveSimplification | Solidification

  datatype Settings = Settings(ln: Log, tau: real, maxRounds: int)

  type Engine = e: Settings | e.ln(2.0) != 0.0 witness Settings((x: real) => 1.0, 0.5, 5)

  predicate CheckConvergence(e: Engine, offers: seq<NegotiationRecord>, initial: real) {
    Converged(e.ln, e.tau, Statuses(offers), initial)
  }

  function NeedsFallback(e: Engine, round: int, offers: seq<NegotiationRecord>, initial: real): Option<Fallback> {
    if round < e.maxRounds then None
    else if !CheckConvergence(e, offers, initial) then
      Some(if round == e.maxRounds then RecursiveSimplification else Solidification)
    else None
  }
}
