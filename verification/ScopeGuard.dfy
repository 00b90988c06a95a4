/** The grant an execution runs under: the object that records and refuses uses,
    the ledger its checks leave behind, and the coordinator's reading of it. */
module ScopeGuard {
  import opened Options
  import opened Scopes

  /** One check made by the invocation path. */
  datatype Use = Required(scope: string) | Asked(scope: string)

  datatype Ledger = Ledger(used: seq<string>, denied: seq<string>)

  predicate NoRepeats(xs: seq<string>) {
    forall i, j :: 0 <= i < j < |xs| ==> xs[i] != xs[j]
  }

  function AddNew(xs: seq<string>, x: string): (r: seq<string>)
    ensures NoRepeats(xs) ==> NoRepeats(r)
    ensures forall s :: s in r <==> s in xs || s == x
  {
    if x in xs then xs else xs + [x]
  }

  function Record(granted: seq<string>, ledger: Ledger, use: Use): Ledger {
    var scope := Normalise(use.scope);
    match use
    case Required(_) =>
      Ledger(if scope != "" then AddNew(ledger.used, scope) else ledger.used,
             if CoveredByAny(granted, scope) then ledger.denied else AddNew(ledger.denied, scope))
    case Asked(raw) =>
      ledger.(used := if raw != "" then AddNew(ledger.used, scope) else ledger.used)
  }

  /** The ledger after a sequence of checks. */
  function After(granted: seq<string>, uses: seq<Use>): Ledger {
    if uses == [] then Ledger([], [])
    else Record(granted, After(granted, uses[..|uses| - 1]), uses[|uses| - 1])
  }

  /** Raised by a scope that is required and not held. */
  datatype Outcome = Permitted | Denied(scope: string)

  class ScopeGrant {
    const granted: seq<string>
    var used: seq<string>
    var denied: seq<string>

    constructor (granted: seq<string>)
      ensures this.granted == granted && State() == Ledger([], [])
    {
      this.granted := granted;
      used, denied := [], [];
    }

    function State(): Ledger
      reads this
    {
      Ledger(used, denied)
    }

    predicate Permits(scope: string) {
      CoveredByAny(granted, scope)
    }

    /** Records the use, then raises unless it was authorised. */
    method Require(scope: string) returns (outcome: Outcome)
      modifies this
      ensures State() == Record(granted, old(State()), Required(scope))
      ensures outcome == if CoveredByAny(granted, scope) then Permitted else Denied(Normalise(scope))
    {
      NormaliseIdempotent(scope);
      var name := Normalise(scope);
      SameCoverage(granted, name, scope);
      if name != "" && name !in used {
        used := used + [name];
      }
      if Permits(name) {
        return Permitted;
      }
      if name !in denied {
        denied := denied + [name];
      }
      return Denied(name);
    }

    /** The same question without raising; the use is still recorded. */
    method IsHeld(scope: string) returns (held: bool)
      modifies this
      ensures State() == Record(granted, old(State()), Asked(scope))
      ensures held == CoveredByAny(granted, scope)
    {
      if scope != "" && Normalise(scope) !in used {
        used := used + [Normalise(scope)];
      }
      return Permits(scope);
    }
  }

  lemma SameCoverage(granted: seq<string>, a: string, b: string)
    requires Normalise(a) == Normalise(b)
    ensures CoveredByAny(granted, a) == CoveredByAny(granted, b)
  {
  }

  datatype Got<T> = Client(value: T) | Refused | FactoryRaised

  /** A client that exists only once an execution has held its scope. */
  class ScopedResource<T> {
    const scope: string
    var value: Option<T>
    ghost var calls: nat

    constructor (scope: string)
      ensures this.scope == scope && value == None && calls == 0
    {
      this.scope, value, calls := scope, None, 0;
    }

    /** Checks on every call, and builds on the first that passes and whose factory
        does not raise; never again after that. `made` is what the factory gives
        if it is called, None being an exception. Outside an execution there is
        no grant and nothing to check. */
    method Get(grant: ScopeGrant?, made: Option<T>) returns (got: Got<T>)
      modifies this, grant
      ensures got.Refused? <==> grant != null && !CoveredByAny(grant.granted, scope)
      ensures got.FactoryRaised? <==> !got.Refused? && old(value).None? && made.None?
      ensures got.Client? ==> value == Some(got.value)
      ensures value == if got.Client? && old(value).None? then made else old(value)
      ensures calls == if !got.Refused? && old(value).None? then old(calls) + 1 else old(calls)
      ensures grant != null ==> grant.State() == Record(grant.granted, old(grant.State()), Required(scope))
    {
      if grant != null {
        var outcome := grant.Require(scope);
        if outcome.Denied? {
          return Refused;
        }
      }
      if value.None? {
        calls := calls + 1;
        if made.None? {
          return FactoryRaised;
        }
        value := made;
      }
      return Client(value.value);
    }
  }

  // ------------------------------------------------------------------
  // What a ledger says after any run
  // ------------------------------------------------------------------

  /** The name a use puts on the `used` list, if any. A blank name reaches it
      only when it was asked about with white space. */
  predicate Uses(use: Use, scope: string) {
    Normalise(use.scope) == scope && (if use.Required? then scope != "" else use.scope != "")
  }

  predicate Refuses(granted: seq<string>, use: Use, scope: string) {
    use.Required? && Normalise(use.scope) == scope && !CoveredByAny(granted, scope)
  }

  predicate SomeUse(uses: seq<Use>, scope: string) {
    exists i :: 0 <= i < |uses| && Uses(uses[i], scope)
  }

  predicate SomeRefusal(granted: seq<string>, uses: seq<Use>, scope: string) {
    exists i :: 0 <= i < |uses| && Refuses(granted, uses[i], scope)
  }

  lemma SomeUseAppend(init: seq<Use>, last: Use, scope: string)
    ensures SomeUse(init + [last], scope) <==> SomeUse(init, scope) || Uses(last, scope)
  {
    var uses := init + [last];
    assert uses[|init|] == last;
    assert forall i :: 0 <= i < |init| ==> uses[i] == init[i];
  }

  lemma SomeRefusalAppend(granted: seq<string>, init: seq<Use>, last: Use, scope: string)
    ensures SomeRefusal(granted, init + [last], scope) <==>
      SomeRefusal(granted, init, scope) || Refuses(granted, last, scope)
  {
    var uses := init + [last];
    assert uses[|init|] == last;
    assert forall i :: 0 <= i < |init| ==> uses[i] == init[i];
  }

  lemma RecordStep(granted: seq<string>, ledger: Ledger, use: Use)
    requires NoRepeats(ledger.used) && NoRepeats(ledger.denied)
    ensures NoRepeats(Record(granted, ledger, use).used) && NoRepeats(Record(granted, ledger, use).denied)
    ensures forall s :: s in Record(granted, ledger, use).used <==> s in ledger.used || Uses(use, s)
    ensures forall s :: s in Record(granted, ledger, use).denied <==> s in ledger.denied || Refuses(granted, use, s)
  {
  }

  /** After any checks, `used` has no repeats and holds exactly the normalised
      names checked; `denied` has none and holds exactly those refused. */
  lemma {:induction false} LedgerExact(granted: seq<string>, uses: seq<Use>)
    ensures NoRepeats(After(granted, uses).used) && NoRepeats(After(granted, uses).denied)
    ensures forall s :: s in After(granted, uses).used <==> SomeUse(uses, s)
    ensures forall s :: s in After(granted, uses).denied <==> SomeRefusal(granted, uses, s)
  {
    if uses != [] {
      var init, last := uses[..|uses| - 1], uses[|uses| - 1];
      assert uses == init + [last];
      LedgerExact(granted, init);
      RecordStep(granted, After(granted, init), last);
      assert After(granted, uses) == Record(granted, After(granted, init), last);
      forall s ensures s in After(granted, uses).used <==> SomeUse(uses, s) {
        SomeUseAppend(init, last, s);
      }
      forall s ensures s in After(granted, uses).denied <==> SomeRefusal(granted, uses, s) {
        SomeRefusalAppend(granted, init, last, s);
      }
    }
  }

  /** Both lists only grow at their end, by at most one name a check, so they are in the
      order of first use and first refusal. */
  lemma {:induction false} LedgerGrows(granted: seq<string>, uses: seq<Use>, use: Use)
    ensures var before, after := After(granted, uses), After(granted, uses + [use]);
      && before.used <= after.used && |after.used| <= |before.used| + 1
      && before.denied <= after.denied && |after.denied| <= |before.denied| + 1
  {
    assert (uses + [use])[..|uses|] == uses;
  }

  // ------------------------------------------------------------------
  // Reconciliation by the coordinator
  // ------------------------------------------------------------------

  function NonEmpty(xs: seq<string>): (r: seq<string>)
    ensures forall s :: s in r <==> s in xs && s != ""
    ensures "" !in xs ==> r == xs
  {
    if xs == [] then [] else (if xs[0] == "" then [] else [xs[0]]) + NonEmpty(xs[1..])
  }

  /** The uses reported as beyond the issued capability's scopes. */
  function Exceeded(used: seq<string>, capabilityScopes: seq<string>): seq<string> {
    var reported := NonEmpty(used);
    if capabilityScopes == [] then reported else Outside(reported, capabilityScopes)
  }

  predicate OnlyRequired(uses: seq<Use>) {
    forall i :: 0 <= i < |uses| ==> uses[i].Required? && Normalise(uses[i].scope) != ""
  }

  lemma {:induction false} OutsideAppend(xs: seq<string>, x: string, granted: seq<string>)
    ensures Outside(xs + [x], granted) == Outside(xs, granted) + (if CoveredByAny(granted, x) then [] else [x])
  {
    if xs == [] {
      assert xs + [x] == [x];
    } else {
      OutsideAppend(xs[1..], x, granted);
      assert (xs + [x])[1..] == xs[1..] + [x];
    }
  }

  lemma RequiredKeepsOrder(granted: seq<string>, ledger: Ledger, use: Use)
    requires use.Required? && Normalise(use.scope) != ""
    requires ledger.denied == Outside(ledger.used, granted) && "" !in ledger.used
    ensures var r := Record(granted, ledger, use); r.denied == Outside(r.used, granted) && "" !in r.used
  {
    OutsideExact(ledger.used, granted, Normalise(use.scope));
    OutsideAppend(ledger.used, Normalise(use.scope), granted);
  }

  /** When only non-blank scopes are required, `denied` is `used` without the
      names the grant covers, in the same order. */
  lemma {:induction false} DeniedIsUsedOutsideGrant(granted: seq<string>, uses: seq<Use>)
    requires OnlyRequired(uses)
    ensures After(granted, uses).denied == Outside(After(granted, uses).used, granted)
    ensures "" !in After(granted, uses).used
  {
    if uses != [] {
      var init, last := uses[..|uses| - 1], uses[|uses| - 1];
      DeniedIsUsedOutsideGrant(granted, init);
      RequiredKeepsOrder(granted, After(granted, init), last);
    }
  }

  /** An empty grant list reports every use, as filtering by it would. */
  lemma {:induction false} EmptyGrantCoversNothing(xs: seq<string>)
    ensures Outside(xs, []) == xs
  {
    if xs != [] { EmptyGrantCoversNothing(xs[1..]); }
  }

  /** When the grant sent is the capability's own scope list, the coordinator
      reports exactly the refused scopes, in order of first use. */
  lemma {:induction false} ReconciliationReportsDenials(granted: seq<string>, uses: seq<Use>)
    requires OnlyRequired(uses)
    ensures Exceeded(After(granted, uses).used, granted) == After(granted, uses).denied
  {
    DeniedIsUsedOutsideGrant(granted, uses);
    EmptyGrantCoversNothing(After(granted, uses).used);
  }

  /** The coordinator reports exactly the refused scopes after every execution if and
      only if the grant that was sent and the capability's list cover each other. */
  lemma {:induction false} ReconciliationExact(sent: seq<string>, capabilityScopes: seq<string>)
    ensures
      (forall uses: seq<Use> | OnlyRequired(uses) ::
         Exceeded(After(sent, uses).used, capabilityScopes) == After(sent, uses).denied)
      <==> Within(sent, capabilityScopes) && Within(capabilityScopes, sent)
  {
    if Within(sent, capabilityScopes) && Within(capabilityScopes, sent) {
      forall uses: seq<Use> | OnlyRequired(uses)
        ensures Exceeded(After(sent, uses).used, capabilityScopes) == After(sent, uses).denied
      {
        DeniedIsUsedOutsideGrant(sent, uses);
        SameOutside(After(sent, uses).used, sent, capabilityScopes);
        EmptyGrantCoversNothing(After(sent, uses).used);
      }
    } else if !Within(sent, capabilityScopes) {
      var name := Uncovered(sent, capabilityScopes);
      OneUseSeparates(sent, capabilityScopes, name);
    } else {
      var name := Uncovered(capabilityScopes, sent);
      OneUseSeparates(sent, capabilityScopes, name);
    }
  }

  /** A name that the first list covers and the second does not. */
  lemma Uncovered(inner: seq<string>, outer: seq<string>) returns (name: string)
    requires !Within(inner, outer)
    ensures name != "" && Normalise(name) == name && CoveredByAny(inner, name) && !CoveredByAny(outer, name)
  {
    var i :| 0 <= i < |inner| && Normalise(inner[i]) != "" && !CoveredByAny(outer, inner[i]);
    name := Normalise(inner[i]);
    NormaliseIdempotent(inner[i]);
    SameCoverage(outer, name, inner[i]);
    assert Covers(inner[i], name);
  }

  lemma {:induction false} SameOutside(xs: seq<string>, a: seq<string>, b: seq<string>)
    requires Within(a, b) && Within(b, a)
    ensures Outside(xs, a) == Outside(xs, b)
  {
    if xs != [] {
      if CoveredByAny(a, xs[0]) { CoverageCarriesThrough(a, b, xs[0]); }
      if CoveredByAny(b, xs[0]) { CoverageCarriesThrough(b, a, xs[0]); }
      SameOutside(xs[1..], a, b);
    }
  }

  lemma OneUse(granted: seq<string>, name: string)
    requires name != "" && Normalise(name) == name
    ensures After(granted, [Required(name)]) == Ledger([name], if CoveredByAny(granted, name) then [] else [name])
  {
    assert [Required(name)][..0] == [];
    assert After(granted, [Required(name)]) == Record(granted, Ledger([], []), Required(name));
  }

  lemma ExceededOne(name: string, capabilityScopes: seq<string>)
    requires name != ""
    ensures Exceeded([name], capabilityScopes) == if CoveredByAny(capabilityScopes, name) then [] else [name]
  {
    assert [name][1..] == [];
    assert NonEmpty([name]) == [name];
    assert Outside([name], capabilityScopes) == (if CoveredByAny(capabilityScopes, name) then [] else [name]) + [];
  }

  /** One check of a scope that only one of the two covers. */
  lemma OneUseSeparates(sent: seq<string>, capabilityScopes: seq<string>, name: string)
    requires name != "" && Normalise(name) == name
    requires CoveredByAny(sent, name) != CoveredByAny(capabilityScopes, name)
    ensures OnlyRequired([Required(name)])
    ensures var ledger := After(sent, [Required(name)]);
      Exceeded(ledger.used, capabilityScopes) != ledger.denied
  {
    OneUse(sent, name);
    ExceededOne(name, capabilityScopes);
    assert [Required(name)][0] == Required(name);
    assert [name] != [];
  }

  /** A refused scope the capability lists, but no binding does, is not reported
      as exceeding the grant. */
  lemma {:induction false} RefusalUnreportedUnderBinding()
    ensures var uses := [Required("b")];
      && Intersect(["a", "b"], ["a"]) == ["a"]
      && After(["a"], uses).denied == ["b"]
      && Exceeded(After(["a"], uses).used, ["a", "b"]) == []
  {
    LetterCoverage();
    assert ["a", "b"][1..] == ["b"] && ["b"][1..] == [];
    var uses := [Required("b")];
    assert uses[..0] == [];
    assert After(["a"], uses) == Record(["a"], Ledger([], []), Required("b"));
  }

  lemma LetterCoverage()
    ensures Normalise("b") == "b"
    ensures CoveredByAny(["a"], "a") && CoveredByAny(["a", "b"], "b") && !CoveredByAny(["a"], "b")
  {
    CanonicalFixed("a");
    CanonicalFixed("b");
    assert Covers("a", "a") && Covers("b", "b") && !Covers("a", "b");
    assert ["a"][0] == "a" && ["a", "b"][1] == "b";
  }
}
