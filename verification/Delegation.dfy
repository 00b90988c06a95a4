/** Capabilities, and the chain of narrowings from what a requester claims to
    what an agent is sent with a dispatch. Time is an integer instant. */
module Delegation {
  import opened Options
  import opened Scopes

  const DEFAULT_TTL_SECONDS := 3600

  datatype Expiry = Never | Unreadable | At(instant: int)

  datatype Capability = Capability(principals: seq<string>, scopes: seq<string>, expiry: Expiry)

  datatype Violation = Expired | WrongPrincipal | ScopeNotAuthorised(scope: string)

  function Issue(principals: seq<string>, scopes: seq<string>, now: int, ttl: int): Capability {
    Capability(principals, scopes, At(now + ttl))
  }

  predicate IsExpired(c: Capability, now: int) {
    match c.expiry
    case Never => false
    case Unreadable => true
    case At(instant) => now >= instant
  }

  predicate PermitsPrincipal(c: Capability, principal: string) {
    c.principals == [] || principal in c.principals
  }

  predicate PermitsScope(c: Capability, scope: string) {
    c.scopes == [] || scope in c.scopes
  }

  function FirstRefused(c: Capability, scopes: seq<string>): Option<Violation> {
    if scopes == [] then None
    else if !PermitsScope(c, scopes[0]) then Some(ScopeNotAuthorised(scopes[0]))
    else FirstRefused(c, scopes[1..])
  }

  function Check(c: Capability, principal: string, scopes: seq<string>, now: int): Option<Violation> {
    if IsExpired(c, now) then Some(Expired)
    else if principal != "" && !PermitsPrincipal(c, principal) then Some(WrongPrincipal)
    else FirstRefused(c, scopes)
  }

  lemma {:induction false} FirstRefusedExact(c: Capability, scopes: seq<string>)
    ensures FirstRefused(c, scopes).None? <==> forall i :: 0 <= i < |scopes| ==> PermitsScope(c, scopes[i])
    ensures FirstRefused(c, scopes).Some? ==>
      exists i :: 0 <= i < |scopes| && FirstRefused(c, scopes).value == ScopeNotAuthorised(scopes[i])
        && !PermitsScope(c, scopes[i]) && forall j :: 0 <= j < i ==> PermitsScope(c, scopes[j])
  {
    if scopes != [] && PermitsScope(c, scopes[0]) {
      var rest := scopes[1..];
      FirstRefusedExact(c, rest);
      assert forall i :: 0 < i < |scopes| ==> scopes[i] == rest[i - 1];
      if FirstRefused(c, rest).Some? {
        var k :| 0 <= k < |rest| && FirstRefused(c, rest).value == ScopeNotAuthorised(rest[k])
          && !PermitsScope(c, rest[k]) && forall j :: 0 <= j < k ==> PermitsScope(c, rest[j]);
        assert scopes[k + 1] == rest[k];
        forall j | 0 <= j < k + 1 ensures PermitsScope(c, scopes[j]) {
          if j > 0 { assert scopes[j] == rest[j - 1]; }
        }
      }
    }
  }

  /** The early-return check passes exactly when the lifetime, the principal and
      every scope pass, and what it refused it refuses at every later time. */
  lemma CheckExact(c: Capability, principal: string, scopes: seq<string>, now: int)
    ensures Check(c, principal, scopes, now).None? <==>
      && !IsExpired(c, now)
      && (principal == "" || PermitsPrincipal(c, principal))
      && forall i :: 0 <= i < |scopes| ==> PermitsScope(c, scopes[i])
    ensures forall later :: later >= now && Check(c, principal, scopes, now).Some? ==>
      Check(c, principal, scopes, later).Some?
  {
    FirstRefusedExact(c, scopes);
  }

  // ------------------------------------------------------------------
  // The dispatch guard
  // ------------------------------------------------------------------

  /** What is sent with a dispatch. `bound` is None when the binding table could
      not be read. */
  function GrantFor(enforced: bool, capabilityScopes: seq<string>, bound: Option<seq<string>>): seq<string> {
    if !enforced then capabilityScopes
    else if bound.None? then []
    else if capabilityScopes == [] then bound.value
    else Intersect(capabilityScopes, bound.value)
  }

  function Ungranted(capabilityId: string, required: seq<string>, bound: Option<seq<string>>): seq<string> {
    if required == [] || capabilityId == "" then []
    else if bound.None? then required
    else Outside(required, bound.value)
  }

  datatype Dispatch = RefusedByCapability(violation: Violation) | RefusedByBinding(missing: seq<string>)
                    | Sent(authorised: seq<string>)

  /** One dispatch of a plan step: the capability check, the grant check, and
      the scopes sent when both let it through. The bindings are read twice, for
      the check (`bound`) and for what is sent (`rebound`), some time apart. */
  function DispatchStep(enforced: bool, capability: Option<Capability>, agent: string, capabilityId: string,
                        required: seq<string>, bound: Option<seq<string>>, rebound: Option<seq<string>>,
                        now: int): Dispatch {
    var violation := if capability.Some? then Check(capability.value, agent, required, now) else None;
    var missing := Ungranted(capabilityId, required, bound);
    var scopes := if capability.Some? then capability.value.scopes else [];
    if violation.Some? then RefusedByCapability(violation.value)
    else if missing != [] && enforced then RefusedByBinding(missing)
    else Sent(GrantFor(enforced, scopes, rebound))
  }

  /** The delegation chain: with enforcement on and a capability that lists
      scopes, what is sent is a selection of the requester's claims, in claim
      order, inside the stated authority, inside the bindings, and inside any
      outer policy the authority itself is inside of. */
  lemma DelegationChain(claims: seq<string>, authority: seq<string>, bound: seq<string>, policy: seq<string>)
    requires Narrow(claims, authority) != []
    ensures var sent := GrantFor(true, Narrow(claims, authority), Some(bound));
      && SelectionOf(sent, claims)
      && (forall s :: s in sent ==> CoveredByAny(bound, s))
      && (forall s :: s in sent && authority != [] ==> CoveredByAny(authority, s))
      && (forall s :: s in sent && authority != [] && Within(authority, policy) ==> CoveredByAny(policy, s))
  {
    var scopes := Narrow(claims, authority);
    var sent := GrantFor(true, scopes, Some(bound));
    SelectedIsSelection(claims, authority);
    SelectedIsSelection(scopes, bound);
    SelectionReflexive(claims);
    SelectionTransitive(sent, scopes, claims);
    forall s | s in sent && authority != [] && Within(authority, policy) ensures CoveredByAny(policy, s) {
      CoverageCarriesThrough(authority, policy, s);
    }
  }

  lemma {:induction false} SelectionReflexive(xs: seq<string>)
    ensures SelectionOf(xs, xs)
  {
    if xs != [] { SelectionReflexive(xs[1..]); }
  }

  ghost predicate NoBlank(scopes: seq<string>) {
    forall i :: 0 <= i < |scopes| ==> Normalise(scopes[i]) != ""
  }

  ghost predicate AllCovered(scopes: seq<string>, grants: seq<string>) {
    forall s :: s in scopes ==> CoveredByAny(grants, s)
  }

  predicate SomeCovered(scopes: seq<string>, grants: seq<string>) {
    exists i :: 0 <= i < |scopes| && CoveredByAny(grants, scopes[i])
  }

  predicate HasWildcard(scopes: seq<string>) {
    exists i :: 0 <= i < |scopes| && Normalise(scopes[i]) == WILDCARD
  }

  /** What an enforced dispatch sends stays inside a stated authority, for every
      binding table, exactly when some claim survived the authority (or the
      authority is unlimited). When none did the capability lists no scopes, and
      the bindings are sent as they are. */
  lemma AuthorityBoundExactly(claims: seq<string>, authority: seq<string>)
    requires authority != []
    ensures (forall bound: seq<string> | NoBlank(bound) ::
              AllCovered(GrantFor(true, Narrow(claims, authority), Some(bound)), authority))
            <==> SomeCovered(claims, authority) || HasWildcard(authority)
  {
    var scopes := Narrow(claims, authority);
    if SomeCovered(claims, authority) {
      forall bound: seq<string> ensures AllCovered(GrantFor(true, scopes, Some(bound)), authority) {
        SurvivorsStayInside(claims, authority, bound);
      }
    } else {
      NoSurvivors(claims, authority);
      if HasWildcard(authority) {
        forall bound: seq<string> | NoBlank(bound) ensures AllCovered(GrantFor(true, scopes, Some(bound)), authority) {
          WildcardCoversAll(bound, authority);
        }
      } else {
        var bound := SentPastAuthority(authority);
      }
    }
  }

  lemma SurvivorsStayInside(claims: seq<string>, authority: seq<string>, bound: seq<string>)
    requires authority != [] && SomeCovered(claims, authority)
    ensures AllCovered(GrantFor(true, Narrow(claims, authority), Some(bound)), authority)
  {
  }

  lemma {:induction false} NoSurvivors(claims: seq<string>, authority: seq<string>)
    requires authority != [] && !SomeCovered(claims, authority)
    ensures Narrow(claims, authority) == []
  {
    if claims != [] {
      assert !CoveredByAny(authority, claims[0]);
      NoSurvivors(claims[1..], authority);
    }
  }

  /** With no capability scopes, a wildcard binding takes what is sent past an
      authority that has no wildcard. */
  lemma SentPastAuthority(authority: seq<string>) returns (bound: seq<string>)
    requires !HasWildcard(authority)
    ensures NoBlank(bound) && !AllCovered(GrantFor(true, [], Some(bound)), authority)
  {
    bound := [WILDCARD];
    WildcardIsNormal();
    OnlyWildcardCoversWildcard(authority);
    assert GrantFor(true, [], Some(bound)) == bound && WILDCARD in bound;
  }

  lemma WildcardIsNormal()
    ensures Normalise(WILDCARD) == WILDCARD
  {
  }

  lemma WildcardCoversAll(bound: seq<string>, authority: seq<string>)
    requires NoBlank(bound) && HasWildcard(authority)
    ensures AllCovered(bound, authority)
  {
  }

  lemma OnlyWildcardCoversWildcard(authority: seq<string>)
    requires !HasWildcard(authority)
    ensures !CoveredByAny(authority, WILDCARD)
  {
  }

  /** Alive at `now`: no expiry, or one that can be read and has not come. */
  predicate Alive(expiry: Expiry, now: int) {
    expiry == Never || (expiry.At? && now < expiry.instant)
  }

  /** The capability lets this agent do what needs these scopes; an empty list of agents
      or scopes expresses no constraint, and a blank agent is not asked about. */
  ghost predicate Admits(c: Capability, agent: string, required: seq<string>, now: int) {
    && Alive(c.expiry, now)
    && (agent == "" || c.principals == [] || agent in c.principals)
    && (c.scopes == [] || forall s :: s in required ==> s in c.scopes)
  }

  /** The bindings, if they can be read, give the agent everything its capability needs. */
  ghost predicate IsGranted(capabilityId: string, required: seq<string>, bound: Option<seq<string>>) {
    capabilityId == "" || required == [] || (bound.Some? && AllCovered(required, bound.value))
  }

  lemma CheckAdmits(c: Capability, agent: string, required: seq<string>, now: int)
    ensures Check(c, agent, required, now).None? <==> Admits(c, agent, required, now)
  {
    CheckExact(c, agent, required, now);
    forall s | s in required && Check(c, agent, required, now).None? ensures PermitsScope(c, s) {
      var i :| 0 <= i < |required| && required[i] == s;
      assert PermitsScope(c, required[i]);
    }
  }

  lemma UngrantedExact(capabilityId: string, required: seq<string>, bound: Option<seq<string>>)
    ensures Ungranted(capabilityId, required, bound) == [] <==> IsGranted(capabilityId, required, bound)
    ensures forall s :: s in Ungranted(capabilityId, required, bound) <==>
      s in required && capabilityId != "" && (bound.None? || !CoveredByAny(bound.value, s))
  {
    var missing := Ungranted(capabilityId, required, bound);
    if bound.Some? {
      forall s ensures s in Outside(required, bound.value) <==> s in required && !CoveredByAny(bound.value, s) {
        OutsideExact(required, bound.value, s);
      }
    }
    if missing != [] { assert missing[0] in missing; }
    if required != [] { assert required[0] in required; }
  }

  /** A dispatch is sent exactly when the capability, if the session has one, admits this
      very agent, and the bindings as first read give it what it needs, or scopes are
      not enforced. A refusal on account of the bindings names exactly what is missing. */
  lemma {:induction false} DispatchExact(enforced: bool, capability: Option<Capability>, agent: string,
                                         capabilityId: string, required: seq<string>, bound: Option<seq<string>>,
                                         rebound: Option<seq<string>>, now: int)
    ensures var d := DispatchStep(enforced, capability, agent, capabilityId, required, bound, rebound, now);
      var admitted := capability.None? || Admits(capability.value, agent, required, now);
      var granted := !enforced || IsGranted(capabilityId, required, bound);
      && (d.RefusedByCapability? <==> !admitted)
      && (d.RefusedByBinding? <==> admitted && !granted)
      && (d.Sent? <==> admitted && granted)
      && (d.RefusedByBinding? ==> forall s :: s in d.missing <==>
           s in required && (bound.None? || !CoveredByAny(bound.value, s)))
  {
    if capability.Some? { CheckAdmits(capability.value, agent, required, now); }
    UngrantedExact(capabilityId, required, bound);
  }

  predicate FirstOutside(listed: seq<string>, required: seq<string>, i: nat)
    requires i < |required|
  {
    required[i] !in listed && forall j :: 0 <= j < i ==> required[j] in listed
  }

  /** Why the capability refuses: first the lifetime, then the agent, then the first
      scope that is not listed. */
  lemma {:induction false} RefusalExact(c: Capability, agent: string, required: seq<string>, now: int)
    ensures var v := Check(c, agent, required, now);
      if !Alive(c.expiry, now) then v == Some(Expired)
      else if agent != "" && c.principals != [] && agent !in c.principals then v == Some(WrongPrincipal)
      else if v.None? then c.scopes == [] || forall s :: s in required ==> s in c.scopes
      else c.scopes != [] && exists i :: 0 <= i < |required| && FirstOutside(c.scopes, required, i)
                                         && v == Some(ScopeNotAuthorised(required[i]))
  {
    FirstRefusedExact(c, required);
    CheckAdmits(c, agent, required, now);
    if FirstRefused(c, required).Some? {
      var i :| 0 <= i < |required| && FirstRefused(c, required).value == ScopeNotAuthorised(required[i])
        && !PermitsScope(c, required[i]) && forall j :: 0 <= j < i ==> PermitsScope(c, required[j]);
      assert FirstOutside(c.scopes, required, i);
    }
  }

  /** What is sent: the capability's scopes without enforcement; with it nothing when the
      bindings cannot be read, the bindings themselves when the capability lists no
      scopes, and otherwise exactly the listed scopes that some binding covers. */
  lemma GrantExact(enforced: bool, scopes: seq<string>, bound: Option<seq<string>>, s: string)
    ensures s in GrantFor(enforced, scopes, bound) <==>
      if !enforced then s in scopes
      else bound.Some? && (if scopes == [] then s in bound.value else s in scopes && CoveredByAny(bound.value, s))
  {
  }

  /** Whether the bindings cover everything, as they were read. */
  ghost predicate BindingsCover(required: seq<string>, bound: Option<seq<string>>) {
    required == [] || (bound.Some? && AllCovered(required, bound.value))
  }

  /** What a dispatch under enforcement sends covers all its capability requires
      exactly when the bindings it sends by do. */
  lemma {:induction false} DispatchedAgentHoldsItsScopes(capability: Option<Capability>, agent: string,
                                                         capabilityId: string, required: seq<string>,
                                                         bound: Option<seq<string>>, rebound: Option<seq<string>>,
                                                         now: int)
    requires DispatchStep(true, capability, agent, capabilityId, required, bound, rebound, now).Sent?
    ensures AllCovered(required,
                       DispatchStep(true, capability, agent, capabilityId, required, bound, rebound, now).authorised)
            <==> BindingsCover(required, rebound)
  {
    var scopes := if capability.Some? then capability.value.scopes else [];
    if required != [] && scopes != [] {
      CheckExact(capability.value, agent, required, now);
      forall s | s in required ensures s in scopes {
        var i :| 0 <= i < |required| && required[i] == s;
        assert PermitsScope(capability.value, required[i]);
      }
      SentCoversExactly(scopes, required, rebound);
    }
    assert required != [] ==> required[0] in required;
  }

  lemma {:induction false} SentCoversExactly(scopes: seq<string>, required: seq<string>, bound: Option<seq<string>>)
    requires required != [] && scopes != []
    requires forall s :: s in required ==> s in scopes
    ensures AllCovered(required, GrantFor(true, scopes, bound)) <==> BindingsCover(required, bound)
  {
    var sent := GrantFor(true, scopes, bound);
    if bound.None? {
      assert required[0] in required;
    } else {
      forall s | s in required ensures CoveredByAny(sent, s) <==> CoveredByAny(bound.value, s) {
        OneSentExactly(scopes, bound.value, s);
      }
    }
  }

  lemma {:induction false} OneSentExactly(scopes: seq<string>, bound: seq<string>, s: string)
    requires s in scopes
    ensures CoveredByAny(Intersect(scopes, bound), s) <==> CoveredByAny(bound, s)
  {
    var sent := Intersect(scopes, bound);
    if CoveredByAny(bound, s) {
      assert s in sent;
      var j :| 0 <= j < |sent| && sent[j] == s;
      assert Covers(sent[j], s);
    } else if CoveredByAny(sent, s) {
      var j :| 0 <= j < |sent| && Covers(sent[j], s);
      assert sent[j] in sent;
      var k :| 0 <= k < |bound| && Covers(bound[k], sent[j]);
      CoversTransitive(bound[k], sent[j], s);
      assert false;
    }
  }

  /** So with a capability id, and bindings that did not change between the two
      reads, the agent holds every scope it needs. */
  lemma SteadyBindingsSuffice(capability: Option<Capability>, agent: string, capabilityId: string,
                              required: seq<string>, bound: Option<seq<string>>, now: int)
    requires capabilityId != ""
    requires DispatchStep(true, capability, agent, capabilityId, required, bound, bound, now).Sent?
    ensures AllCovered(required,
                       DispatchStep(true, capability, agent, capabilityId, required, bound, bound, now).authorised)
  {
    assert Ungranted(capabilityId, required, bound) == [];
    forall s | s in required ensures bound.Some? && CoveredByAny(bound.value, s) {
      OutsideExact(required, bound.value, s);
    }
    DispatchedAgentHoldsItsScopes(capability, agent, capabilityId, required, bound, bound, now);
  }

  /** Without enforcement the same holds exactly when the step needs nothing, or the
      capability lists scopes and no scope needed is blank. */
  lemma UnenforcedDispatchHoldsScopesExactly(c: Capability, agent: string, capabilityId: string,
                                             required: seq<string>, bound: Option<seq<string>>,
                                             rebound: Option<seq<string>>, now: int)
    requires DispatchStep(false, Some(c), agent, capabilityId, required, bound, rebound, now).Sent?
    ensures AllCovered(required,
                       DispatchStep(false, Some(c), agent, capabilityId, required, bound, rebound, now).authorised)
            <==> required == [] || (c.scopes != [] && NoBlank(required))
  {
    CheckExact(c, agent, required, now);
    if c.scopes == [] && required != [] {
      assert required[0] in required;
    }
    forall i | 0 <= i < |required| && c.scopes != []
      ensures CoveredByAny(c.scopes, required[i]) <==> Normalise(required[i]) != ""
    {
      assert PermitsScope(c, required[i]);
      var j :| 0 <= j < |c.scopes| && c.scopes[j] == required[i];
      assert Normalise(required[i]) != "" ==> Covers(c.scopes[j], required[i]);
    }
  }
}
