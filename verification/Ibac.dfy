/** Intention-based access control: three layers, each able to block, combined by
    taking the strictest. The model, keyword search and regex search are oracles. */
module Ibac {
  import opened Options
  import opened Scopes

  datatype Verdict = Allow | Deny | AllowWithScope | RequireHumanApproval

  predicate Permits(v: Verdict) {
    v == Allow || v == AllowWithScope
  }

  datatype Result = Result(verdict: Verdict, decidedBy: string, reliesOnDeclared: bool,
                           constraints: map<string, bool>, redactions: set<string>,
                           requirements: map<string, string>, reason: string)

  function Plain(verdict: Verdict, decidedBy: string, reliesOnDeclared: bool): Result {
    Result(verdict, decidedBy, reliesOnDeclared, map[], {}, map[], "")
  }

  predicate Allowed(r: Result) {
    Permits(r.verdict)
  }

  datatype Manifest = Manifest(claimedAgent: string, authenticatedAgent: string,
                               destinationExternal: bool, classification: string)

  datatype Request = Request(point: string, agent: string, intentText: string, scopes: seq<string>,
                             capabilities: seq<string>, domains: seq<string>, manifest: Option<Manifest>)

  // ------------------------------------------------------------------
  // Invariants: derived facts only
  // ------------------------------------------------------------------

  function UpperChar(c: char): char {
    if 'a' <= c <= 'z' then (c as int - 32) as char else c
  }

  function Upper(s: string): string {
    if s == "" then "" else [UpperChar(s[0])] + Upper(s[1..])
  }

  const RESTRICTED := {"SECRET", "RESTRICTED", "PII_RESTRICTED"}

  predicate Impersonates(m: Manifest) {
    m.claimedAgent != "" && m.authenticatedAgent != "" && m.claimedAgent != m.authenticatedAgent
  }

  predicate CrossesBoundary(m: Manifest) {
    m.destinationExternal && Upper(m.classification) in RESTRICTED
  }

  function EvaluateInvariants(request: Request): Result {
    if request.manifest.None? then Plain(Allow, "", true)
    else
      var m := request.manifest.value;
      if Impersonates(m) then Plain(Deny, "invariant", false)
      else if CrossesBoundary(m) then Plain(Deny, "invariant", false)
      else Plain(Allow, "", false)
  }

  /** Material of a restricted classification, in whatever case it is written, leaves
      the tenant. */
  predicate LeavesRestricted(m: Manifest) {
    && m.destinationExternal
    && (SameLetters(m.classification, "SECRET") || SameLetters(m.classification, "RESTRICTED")
        || SameLetters(m.classification, "PII_RESTRICTED"))
  }

  predicate NoLowerCase(s: string) {
    forall i :: 0 <= i < |s| ==> !('a' <= s[i] <= 'z')
  }

  lemma {:induction false} UpperExactly(s: string, r: string)
    requires NoLowerCase(r)
    ensures Upper(s) == r <==> SameLetters(s, r)
  {
    if s != "" && r != "" {
      UpperExactly(s[1..], r[1..]);
      assert r == [r[0]] + r[1..];
      assert SameLetters(s, r) <==> SameLetter(s[0], r[0]) && SameLetters(s[1..], r[1..]) by {
        if SameLetter(s[0], r[0]) && SameLetters(s[1..], r[1..]) {
          assert forall i :: 0 < i < |s| ==> s[i] == s[1..][i - 1] && r[i] == r[1..][i - 1];
        }
      }
    }
  }

  lemma CrossingExactly(m: Manifest)
    ensures CrossesBoundary(m) <==> LeavesRestricted(m)
  {
    UpperExactly(m.classification, "SECRET");
    UpperExactly(m.classification, "RESTRICTED");
    UpperExactly(m.classification, "PII_RESTRICTED");
  }

  /** Of what the sender writes, the layer reads the claimed identity alone, and
      that only to compare it with the authenticated one: whatever is claimed, restricted
      material that leaves stays denied, and nothing else is denied but an impersonation. */
  lemma {:induction false} ClaimsCannotOpenABoundary(request: Request, claim: string)
    requires request.manifest.Some?
    ensures var m := request.manifest.value;
      var r := EvaluateInvariants(request.(manifest := Some(m.(claimedAgent := claim))));
      && r.verdict in {Allow, Deny}
      && (r.verdict == Deny <==>
            LeavesRestricted(m) || (claim != "" && m.authenticatedAgent != "" && claim != m.authenticatedAgent))
      && !r.reliesOnDeclared
  {
    CrossingExactly(request.manifest.value);
  }

  /** With nothing verified the layer abstains. */
  lemma NoManifestAbstains(request: Request)
    requires request.manifest.None?
    ensures EvaluateInvariants(request).verdict == Allow && EvaluateInvariants(request).reliesOnDeclared
  {
  }

  // ------------------------------------------------------------------
  // In-memory policies
  // ------------------------------------------------------------------

  datatype Policy = Policy(id: string, points: seq<string>, allowedScopes: seq<string>,
                           deniedScopes: seq<string>, deniedDomains: seq<string>)

  predicate AppliesAt(points: seq<string>, point: string) {
    points == [] || point in points
  }

  predicate SomeIn(xs: seq<string>, ys: seq<string>) {
    exists i :: 0 <= i < |xs| && xs[i] in ys
  }

  predicate SomeOutside(xs: seq<string>, ys: seq<string>) {
    exists i :: 0 <= i < |xs| && xs[i] !in ys
  }

  method AnyIn(xs: seq<string>, ys: seq<string>) returns (found: bool)
    ensures found == SomeIn(xs, ys)
  {
    for i := 0 to |xs|
      invariant forall j :: 0 <= j < i ==> xs[j] !in ys
    {
      if xs[i] in ys {
        return true;
      }
    }
    return false;
  }

  /** When a policy denies. */
  predicate PolicyDenies(p: Policy, request: Request) {
    && AppliesAt(p.points, request.point)
    && (SomeIn(request.scopes, p.deniedScopes)
        || SomeIn(request.domains, p.deniedDomains)
        || (p.allowedScopes != [] && SomeOutside(request.scopes, p.allowedScopes)))
  }

  method EvaluatePolicy(p: Policy, request: Request) returns (r: Option<Verdict>)
    ensures r == if PolicyDenies(p, request) then Some(Deny) else None
  {
    if p.points != [] && request.point !in p.points {
      return None;
    }
    var scopeDenied := AnyIn(request.scopes, p.deniedScopes);
    if scopeDenied {
      return Some(Deny);
    }
    var domainDenied := AnyIn(request.domains, p.deniedDomains);
    if domainDenied {
      return Some(Deny);
    }
    if p.allowedScopes != [] && request.scopes != [] {
      var disallowed := (set s | s in request.scopes) - (set s | s in p.allowedScopes);
      Disallowed(request.scopes, p.allowedScopes);
      if disallowed != {} {
        return Some(Deny);
      }
    }
    return None;
  }

  /** A policy without points applies everywhere; it denies a request for a scope or a
      domain it denies, or for a scope off its list of allowed ones, if it has one. */
  lemma PolicyDeniesExactly(p: Policy, request: Request)
    ensures PolicyDenies(p, request) <==>
      && (p.points == [] || request.point in p.points)
      && (|| (exists s :: s in request.scopes && s in p.deniedScopes)
          || (exists d :: d in request.domains && d in p.deniedDomains)
          || (exists s :: s in request.scopes && p.allowedScopes != [] && s !in p.allowedScopes))
  {
    SomeInExactly(request.scopes, p.deniedScopes);
    SomeInExactly(request.domains, p.deniedDomains);
    SomeOutsideExactly(request.scopes, p.allowedScopes);
  }

  lemma SomeInExactly(xs: seq<string>, ys: seq<string>)
    ensures SomeIn(xs, ys) <==> exists x :: x in xs && x in ys
  {
    if x :| x in xs && x in ys {
      var i :| 0 <= i < |xs| && xs[i] == x;
    }
  }

  lemma SomeOutsideExactly(xs: seq<string>, ys: seq<string>)
    ensures SomeOutside(xs, ys) <==> exists x :: x in xs && x !in ys
  {
    if x :| x in xs && x !in ys {
      var i :| 0 <= i < |xs| && xs[i] == x;
    }
  }

  lemma Disallowed(xs: seq<string>, ys: seq<string>)
    ensures (set s | s in xs) - (set s | s in ys) != {} <==> SomeOutside(xs, ys)
  {
    var extra := (set s | s in xs) - (set s | s in ys);
    if extra != {} {
      var s :| s in extra;
      var i :| 0 <= i < |xs| && xs[i] == s;
    }
    if SomeOutside(xs, ys) {
      var i :| 0 <= i < |xs| && xs[i] !in ys;
      assert xs[i] in extra;
    }
  }

  // ------------------------------------------------------------------
  // Persisted rules
  // ------------------------------------------------------------------

  datatype Conditions = Conditions(requireHuman: bool, keywords: seq<string>, patterns: seq<string>,
    blockedAgents: seq<string>, allowedAgents: seq<string>, blockedScopes: seq<string>, allowedScopes: seq<string>,
    blockedDomains: seq<string>, allowedDomains: seq<string>, maxAgents: Option<int>)

  datatype Rule = Rule(id: string, points: seq<string>, deny: bool, conditions: Conditions)

  /** `contains(keyword, text)` ignores case; `search(pattern, text)` is None for
      a pattern that is not a regular expression. */
  datatype Matcher = Matcher(contains: (string, string) -> bool, search: (string, string) -> Option<bool>)

  predicate KeywordHit(c: Conditions, text: string, m: Matcher) {
    text != "" && exists i :: 0 <= i < |c.keywords| && m.contains(c.keywords[i], text)
  }

  predicate PatternHit(c: Conditions, text: string, m: Matcher) {
    text != "" && exists i :: 0 <= i < |c.patterns| && m.search(c.patterns[i], text) == Some(true)
  }

  /** The filters that do not read the intent text. */
  predicate FilterHit(c: Conditions, request: Request) {
    || (request.agent != "" && request.agent in c.blockedAgents)
    || (request.agent != "" && c.allowedAgents != [] && request.agent !in c.allowedAgents)
    || SomeIn(request.scopes, c.blockedScopes)
    || (c.allowedScopes != [] && SomeOutside(request.scopes, c.allowedScopes))
    || SomeIn(request.domains, c.blockedDomains)
    || (c.allowedDomains != [] && SomeOutside(request.domains, c.allowedDomains))
    || (c.maxAgents.Some? && request.capabilities != [] && |request.capabilities| > c.maxAgents.value)
  }

  /** A denying rule denies on any filter, and on its text conditions unless it
      asks for a person instead. */
  predicate RuleDenies(rule: Rule, request: Request, m: Matcher) {
    && AppliesAt(rule.points, request.point)
    && rule.deny
    && (FilterHit(rule.conditions, request)
        || (!rule.conditions.requireHuman
            && (KeywordHit(rule.conditions, request.intentText, m)
                || PatternHit(rule.conditions, request.intentText, m))))
  }

  /** A rule asks for a person when its text conditions match, or it has none. */
  predicate RuleAsksHuman(rule: Rule, request: Request, m: Matcher) {
    var c := rule.conditions;
    && AppliesAt(rule.points, request.point)
    && c.requireHuman && request.intentText != ""
    && ((c.keywords == [] && c.patterns == [])
        || KeywordHit(c, request.intentText, m) || PatternHit(c, request.intentText, m))
  }

  function RuleEffect(rule: Rule, request: Request, m: Matcher): Option<Verdict> {
    if RuleDenies(rule, request, m) then Some(Deny)
    else if RuleAsksHuman(rule, request, m) then Some(RequireHumanApproval)
    else None
  }

  /** The conditions on which a rule denies whatever the intent says, one by one; an
      empty list of allowed agents, scopes or domains is no condition. */
  lemma FiltersExactly(c: Conditions, request: Request)
    ensures FilterHit(c, request) <==>
      || (request.agent != "" && (request.agent in c.blockedAgents
                                  || (c.allowedAgents != [] && request.agent !in c.allowedAgents)))
      || (exists s :: s in request.scopes && (s in c.blockedScopes
                                              || (c.allowedScopes != [] && s !in c.allowedScopes)))
      || (exists d :: d in request.domains && (d in c.blockedDomains
                                               || (c.allowedDomains != [] && d !in c.allowedDomains)))
      || (|request.capabilities| >= 1 && c.maxAgents.Some? && c.maxAgents.value < |request.capabilities|)
  {
    SomeInExactly(request.scopes, c.blockedScopes);
    SomeInExactly(request.domains, c.blockedDomains);
    SomeOutsideExactly(request.scopes, c.allowedScopes);
    SomeOutsideExactly(request.domains, c.allowedDomains);
  }

  /** The intent is not empty and one of the rule's keywords or patterns is in it. */
  predicate TextHit(c: Conditions, text: string, m: Matcher) {
    && text != ""
    && (|| (exists k | k in c.keywords :: m.contains(k, text))
        || (exists p | p in c.patterns :: m.search(p, text) == Some(true)))
  }

  lemma TextHitExactly(c: Conditions, text: string, m: Matcher)
    ensures TextHit(c, text, m) <==> KeywordHit(c, text, m) || PatternHit(c, text, m)
  {
    if text != "" {
      if k :| k in c.keywords && m.contains(k, text) {
        var i :| 0 <= i < |c.keywords| && c.keywords[i] == k;
      }
      if p :| p in c.patterns && m.search(p, text) == Some(true) {
        var i :| 0 <= i < |c.patterns| && c.patterns[i] == p;
      }
    }
  }

  /** Only a denying rule denies, and then only at its points; only a rule that asks for a
      person gives an approval, and it gives one also where it would not deny, or when it
      names no text at all. */
  lemma RuleEffectExactly(rule: Rule, request: Request, m: Matcher)
    ensures var r, c, text := RuleEffect(rule, request, m), rule.conditions, request.intentText;
      var applies := rule.points == [] || request.point in rule.points;
      var denies := rule.deny && (FilterHit(c, request) || (TextHit(c, text, m) && !c.requireHuman));
      var asks := c.requireHuman && text != "" && (TextHit(c, text, m) || |c.keywords| + |c.patterns| == 0);
      r == if applies && denies then Some(Deny) else if applies && asks then Some(RequireHumanApproval) else None
  {
    TextHitExactly(rule.conditions, request.intentText, m);
  }

  method AnyKeyword(c: Conditions, text: string, m: Matcher) returns (hit: bool)
    requires text != ""
    ensures hit == KeywordHit(c, text, m)
  {
    for i := 0 to |c.keywords|
      invariant forall j :: 0 <= j < i ==> !m.contains(c.keywords[j], text)
    {
      if m.contains(c.keywords[i], text) {
        return true;
      }
    }
    return false;
  }

  method AnyPattern(c: Conditions, text: string, m: Matcher) returns (hit: bool)
    requires text != ""
    ensures hit == PatternHit(c, text, m)
  {
    for i := 0 to |c.patterns|
      invariant forall j :: 0 <= j < i ==> m.search(c.patterns[j], text) != Some(true)
    {
      var found := m.search(c.patterns[i], text);
      if found == Some(true) {
        return true;
      }
    }
    return false;
  }

  /** The early-return evaluator is the declarative effect. */
  method EvaluateRule(rule: Rule, request: Request, m: Matcher) returns (r: Option<Verdict>)
    ensures r == RuleEffect(rule, request, m)
  {
    if rule.points != [] && request.point !in rule.points {
      return None;
    }
    var c := rule.conditions;
    if c.keywords != [] && request.intentText != "" {
      var hit := AnyKeyword(c, request.intentText, m);
      if hit && rule.deny && !c.requireHuman {
        return Some(Deny);
      }
    }
    if c.patterns != [] && request.intentText != "" {
      var hit := AnyPattern(c, request.intentText, m);
      if hit && rule.deny && !c.requireHuman {
        return Some(Deny);
      }
    }
    var filtered := EvaluateFilters(c, request);
    if filtered && rule.deny {
      return Some(Deny);
    }
    if c.requireHuman && request.intentText != "" {
      var flagged := c.keywords == [] && c.patterns == [];
      if !flagged && c.keywords != [] {
        flagged := AnyKeyword(c, request.intentText, m);
      }
      if !flagged && c.patterns != [] {
        flagged := AnyPattern(c, request.intentText, m);
      }
      if flagged {
        return Some(RequireHumanApproval);
      }
    }
    return None;
  }

  method EvaluateFilters(c: Conditions, request: Request) returns (hit: bool)
    ensures hit == FilterHit(c, request)
  {
    if c.blockedAgents != [] && request.agent != "" {
      if request.agent in c.blockedAgents {
        return true;
      }
    }
    if c.allowedAgents != [] && request.agent != "" {
      if request.agent !in c.allowedAgents {
        return true;
      }
    }
    var blocked := AnyIn(request.scopes, c.blockedScopes);
    if blocked {
      return true;
    }
    if c.allowedScopes != [] && request.scopes != [] {
      Disallowed(request.scopes, c.allowedScopes);
      if (set s | s in request.scopes) - (set s | s in c.allowedScopes) != {} {
        return true;
      }
    }
    blocked := AnyIn(request.domains, c.blockedDomains);
    if blocked {
      return true;
    }
    if c.allowedDomains != [] && request.domains != [] {
      Disallowed(request.domains, c.allowedDomains);
      if (set s | s in request.domains) - (set s | s in c.allowedDomains) != {} {
        return true;
      }
    }
    return c.maxAgents.Some? && request.capabilities != [] && |request.capabilities| > c.maxAgents.value;
  }

  // ------------------------------------------------------------------
  // The grounded layer
  // ------------------------------------------------------------------

  function FirstEffect(rules: seq<Rule>, request: Request, m: Matcher): Option<Verdict> {
    if rules == [] then None
    else
      var effect := RuleEffect(rules[0], request, m);
      if effect.Some? then effect else FirstEffect(rules[1..], request, m)
  }

  predicate SomePolicyDenies(policies: seq<Policy>, request: Request) {
    exists i :: 0 <= i < |policies| && PolicyDenies(policies[i], request)
  }

  /** `rules` is what could be loaded; a store that cannot be read gives none. */
  function Grounded(policies: seq<Policy>, rules: seq<Rule>, request: Request, m: Matcher): Verdict {
    if SomePolicyDenies(policies, request) then Deny
    else
      var effect := FirstEffect(rules, request, m);
      if effect.Some? then effect.value else Allow
  }

  method Evaluate(policies: seq<Policy>, rules: seq<Rule>, request: Request, m: Matcher) returns (v: Verdict)
    ensures v == Grounded(policies, rules, request, m)
  {
    for i := 0 to |policies|
      invariant forall j :: 0 <= j < i ==> !PolicyDenies(policies[j], request)
    {
      var r := EvaluatePolicy(policies[i], request);
      if r.Some? {
        return r.value;
      }
    }
    for i := 0 to |rules|
      invariant FirstEffect(rules, request, m) == FirstEffect(rules[i..], request, m)
    {
      var r := EvaluateRule(rules[i], request, m);
      assert rules[i..][1..] == rules[i + 1..];
      if r.Some? {
        return r.value;
      }
    }
    return Allow;
  }

  predicate Blocks(rule: Rule, request: Request, m: Matcher) {
    RuleDenies(rule, request, m) || RuleAsksHuman(rule, request, m)
  }

  lemma {:induction false} FirstEffectBlocks(rules: seq<Rule>, request: Request, m: Matcher)
    ensures FirstEffect(rules, request, m).Some? <==> exists i :: 0 <= i < |rules| && Blocks(rules[i], request, m)
    ensures FirstEffect(rules, request, m).Some? ==> !Permits(FirstEffect(rules, request, m).value)
  {
    if rules != [] {
      FirstEffectBlocks(rules[1..], request, m);
      if exists i :: 0 <= i < |rules[1..]| && Blocks(rules[1..][i], request, m) {
        var i :| 0 <= i < |rules[1..]| && Blocks(rules[1..][i], request, m);
        assert rules[i + 1] == rules[1..][i];
      }
      if exists i :: 0 < i < |rules| && Blocks(rules[i], request, m) {
        var i :| 0 < i < |rules| && Blocks(rules[i], request, m);
        assert rules[1..][i - 1] == rules[i];
      }
    }
  }

  /** The layer permits exactly when no policy denies and no rule denies or asks
      for a person. */
  lemma GroundedExact(policies: seq<Policy>, rules: seq<Rule>, request: Request, m: Matcher)
    ensures Permits(Grounded(policies, rules, request, m)) <==>
      !SomePolicyDenies(policies, request) && forall i :: 0 <= i < |rules| ==> !Blocks(rules[i], request, m)
  {
    FirstEffectBlocks(rules, request, m);
  }

  /** Which verdict: a denying policy denies; otherwise the first rule that blocks
      decides, and without one the request is allowed. */
  lemma {:induction false} GroundedVerdict(policies: seq<Policy>, rules: seq<Rule>, request: Request, m: Matcher)
    ensures var v := Grounded(policies, rules, request, m);
      if exists p :: p in policies && PolicyDenies(p, request) then v == Deny
      else if forall i :: 0 <= i < |rules| ==> !Blocks(rules[i], request, m) then v == Allow
      else exists i :: 0 <= i < |rules| && FirstBlocks(rules, i, request, m)
                       && v == (if RuleDenies(rules[i], request, m) then Deny else RequireHumanApproval)
  {
    if p :| p in policies && PolicyDenies(p, request) {
      var i :| 0 <= i < |policies| && policies[i] == p;
    } else {
      FirstEffectBlocks(rules, request, m);
      if FirstEffect(rules, request, m).Some? {
        var i := FirstBlocking(rules, request, m);
      }
    }
  }

  predicate FirstBlocks(rules: seq<Rule>, i: nat, request: Request, m: Matcher)
    requires i < |rules|
  {
    Blocks(rules[i], request, m) && forall j :: 0 <= j < i ==> !Blocks(rules[j], request, m)
  }

  lemma {:induction false} FirstBlocking(rules: seq<Rule>, request: Request, m: Matcher) returns (i: nat)
    requires FirstEffect(rules, request, m).Some?
    ensures i < |rules| && FirstBlocks(rules, i, request, m)
    ensures FirstEffect(rules, request, m) == RuleEffect(rules[i], request, m)
  {
    i := 0;
    if RuleEffect(rules[0], request, m).None? {
      var k := FirstBlocking(rules[1..], request, m);
      i := k + 1;
      assert forall j :: 1 <= j < |rules| ==> rules[j] == rules[1..][j - 1];
    }
  }

  /** More rules and policies, in any order, never unblock; so two rule stores
      with the same members agree on what is permitted. */
  lemma AddingNeverUnblocks(fewer: seq<Policy>, few: seq<Rule>, more: seq<Policy>, many: seq<Rule>,
                            request: Request, m: Matcher)
    requires forall p :: p in fewer ==> p in more
    requires forall r :: r in few ==> r in many
    ensures Permits(Grounded(more, many, request, m)) ==> Permits(Grounded(fewer, few, request, m))
  {
    GroundedExact(fewer, few, request, m);
    GroundedExact(more, many, request, m);
    if Permits(Grounded(more, many, request, m)) {
      forall i | 0 <= i < |fewer| ensures !PolicyDenies(fewer[i], request) {
        assert fewer[i] in more;
      }
      forall i | 0 <= i < |few| ensures !Blocks(few[i], request, m) {
        assert few[i] in many;
      }
    }
  }

  lemma PermissionIgnoresOrder(policies: seq<Policy>, policies': seq<Policy>, rules: seq<Rule>, rules': seq<Rule>,
                               request: Request, m: Matcher)
    requires multiset(policies) == multiset(policies') && multiset(rules) == multiset(rules')
    ensures Permits(Grounded(policies, rules, request, m)) <==> Permits(Grounded(policies', rules', request, m))
  {
    assert forall p :: p in policies <==> p in multiset(policies);
    assert forall p :: p in policies' <==> p in multiset(policies');
    assert forall r :: r in rules <==> r in multiset(rules);
    assert forall r :: r in rules' <==> r in multiset(rules');
    AddingNeverUnblocks(policies, rules, policies', rules', request, m);
    AddingNeverUnblocks(policies', rules', policies, rules, request, m);
  }

  /** Which blocking verdict is given does depend on the order. */
  lemma VerdictDependsOnOrder(m: Matcher)
    ensures var none := Conditions(false, [], [], ["a"], [], [], [], [], [], None);
      var deny, ask := Rule("deny", [], true, none), Rule("ask", [], false, none.(requireHuman := true));
      var request := Request("p", "a", "go", [], [], [], None);
      && Grounded([], [deny, ask], request, m) == Deny
      && Grounded([], [ask, deny], request, m) == RequireHumanApproval
  {
  }

  // ------------------------------------------------------------------
  // The semantic layer
  // ------------------------------------------------------------------

  /** What came back from the model: nothing, something that is not an object, or
      an object with perhaps a decision text and perhaps an approval flag. */
  datatype Answer = NoModel | CallFailed | NotAnObject
                  | Object(decision: Option<string>, constraints: map<string, bool>, reason: string)

  /** The rule store could not be read, or these rules apply at the point. */
  function Semantic(rulesLoaded: bool, applicable: seq<Rule>, answer: Answer): Result {
    if !rulesLoaded then Plain(Deny, "fail-closed", false)
    else if applicable == [] then Plain(Allow, "", true)
    else match answer
      case NoModel | CallFailed | NotAnObject => Plain(Deny, "fail-closed", false)
      case Object(None, _, _) => Plain(Deny, "fail-closed", false)
      case Object(Some(raw), constraints, reason) =>
        var read := ReadVerdict(Normalise(raw));
        if read.None? then Plain(Deny, "fail-closed", false)
        else
          var asks := "require_human_approval" in constraints && constraints["require_human_approval"];
          Result(if asks && Permits(read.value) then RequireHumanApproval else read.value,
                 "semantic", true, constraints, {}, map[], reason)
  }

  function ReadVerdict(raw: string): Option<Verdict> {
    if raw == "allow" then Some(Allow)
    else if raw == "deny" then Some(Deny)
    else if raw == "allow_with_scope" then Some(AllowWithScope)
    else if raw == "require_human_approval" then Some(RequireHumanApproval)
    else None
  }

  /** The model's decision reads as `text`, in any case and with white space around it. */
  predicate Says(answer: Answer, text: string) {
    answer.Object? && answer.decision.Some? && Normalise(answer.decision.value) == text
  }

  predicate AsksHuman(answer: Answer) {
    && answer.Object? && "require_human_approval" in answer.constraints
    && answer.constraints["require_human_approval"]
  }

  lemma ReadVerdictExact(raw: string)
    ensures ReadVerdict(raw) == Some(Allow) <==> raw == "allow"
    ensures ReadVerdict(raw) == Some(Deny) <==> raw == "deny"
    ensures ReadVerdict(raw) == Some(AllowWithScope) <==> raw == "allow_with_scope"
    ensures ReadVerdict(raw) == Some(RequireHumanApproval) <==> raw == "require_human_approval"
  {
    WordsDiffer();
  }

  /** The verdict for every answer: four words are understood, a wish for a person turns
      either permission into a request for approval and never softens a denial, and
      everything that is not an answer denies. What was answered is passed on. */
  lemma SemanticExact(rulesLoaded: bool, applicable: seq<Rule>, answer: Answer)
    ensures var r := Semantic(rulesLoaded, applicable, answer);
      if !rulesLoaded then r.verdict == Deny
      else if applicable == [] then r.verdict == Allow
      else
        && (r.verdict == Allow <==> Says(answer, "allow") && !AsksHuman(answer))
        && (r.verdict == AllowWithScope <==> Says(answer, "allow_with_scope") && !AsksHuman(answer))
        && (r.verdict == RequireHumanApproval <==>
              || Says(answer, "require_human_approval")
              || (AsksHuman(answer) && (Says(answer, "allow") || Says(answer, "allow_with_scope"))))
        && (r.verdict != Deny || Says(answer, "deny") ==>
              r.decidedBy == "semantic" && r.reliesOnDeclared
              && r.constraints == answer.constraints && r.reason == answer.reason)
        && (r.verdict == Deny && !Says(answer, "deny") ==>
              r.decidedBy == "fail-closed" && !r.reliesOnDeclared && r.constraints == map[])
  {
    if answer.Object? && answer.decision.Some? { ReadVerdictExact(Normalise(answer.decision.value)); }
  }

  /** Whatever the model answers, the layer permits only a completed evaluation:
      nothing applied, or the answer says allow and asks for nobody. */
  lemma SemanticFailsClosed(rulesLoaded: bool, applicable: seq<Rule>, answer: Answer)
    ensures Allowed(Semantic(rulesLoaded, applicable, answer)) <==>
      rulesLoaded &&
      (applicable == [] ||
       (answer.Object? && answer.decision.Some?
        && Normalise(answer.decision.value) in {"allow", "allow_with_scope"}
        && !("require_human_approval" in answer.constraints && answer.constraints["require_human_approval"])))
  {
  }

  // ------------------------------------------------------------------
  // Combination
  // ------------------------------------------------------------------

  datatype Layer = Layer(name: string, result: Result)

  /** Most restrictive first. */
  function Precedence(v: Verdict): nat {
    match v
    case Deny => 0
    case RequireHumanApproval => 1
    case AllowWithScope => 2
    case Allow => 3
  }

  ghost predicate Strictest(layers: seq<Layer>, k: nat) {
    && k < |layers|
    && (forall i :: 0 <= i < |layers| ==>
         Precedence(layers[k].result.verdict) <= Precedence(layers[i].result.verdict))
    && (forall i :: 0 <= i < k ==>
         Precedence(layers[k].result.verdict) < Precedence(layers[i].result.verdict))
  }

  /** The first strictest layer. */
  method StrictestLayer(layers: seq<Layer>) returns (best: nat)
    requires layers != []
    ensures Strictest(layers, best)
  {
    best := 0;
    for i := 0 to |layers|
      invariant 0 <= best < |layers| && best <= i
      invariant forall j :: 0 <= j < i ==>
        Precedence(layers[best].result.verdict) <= Precedence(layers[j].result.verdict)
      invariant forall j :: 0 <= j < best ==>
        Precedence(layers[best].result.verdict) < Precedence(layers[j].result.verdict)
    {
      if Precedence(layers[i].result.verdict) < Precedence(layers[best].result.verdict) {
        best := i;
      }
    }
  }

  /** The extras of every layer, later layers winning. */
  method MergeExtras(layers: seq<Layer>)
    returns (constraints: map<string, bool>, redactions: set<string>, requirements: map<string, string>)
    ensures constraints == Merged(Constraints(layers))
    ensures redactions == MergedRedactions(layers)
    ensures requirements == Merged(Requirements(layers))
  {
    constraints, redactions, requirements := map[], {}, map[];
    for i := 0 to |layers|
      invariant constraints == Merged(Constraints(layers)[..i])
      invariant redactions == MergedRedactions(layers[..i])
      invariant requirements == Merged(Requirements(layers)[..i])
    {
      assert layers[..i + 1][..i] == layers[..i];
      MergedStep(Constraints(layers), i);
      MergedStep(Requirements(layers), i);
      constraints := constraints + layers[i].result.constraints;
      redactions := redactions + layers[i].result.redactions;
      requirements := requirements + layers[i].result.requirements;
    }
    assert layers[..|layers|] == layers;
    assert Constraints(layers)[..|layers|] == Constraints(layers);
    assert Requirements(layers)[..|layers|] == Requirements(layers);
  }

  /** The strictest of some verdicts: a denial before everything, then an approval, then
      a restriction of scope, and a plain permission only when all of them are one. */
  predicate IsMeet(verdicts: seq<Verdict>, v: Verdict) {
    match v
    case Deny => Deny in verdicts
    case RequireHumanApproval => Deny !in verdicts && RequireHumanApproval in verdicts
    case AllowWithScope => Deny !in verdicts && RequireHumanApproval !in verdicts && AllowWithScope in verdicts
    case Allow => forall x :: x in verdicts ==> x == Allow
  }

  function Verdicts(layers: seq<Layer>): (r: seq<Verdict>)
    ensures |r| == |layers| && forall i :: 0 <= i < |r| ==> r[i] == layers[i].result.verdict
  {
    if layers == [] then [] else [layers[0].result.verdict] + Verdicts(layers[1..])
  }

  /** The first layer with this verdict. */
  predicate IsFirst(layers: seq<Layer>, k: nat, v: Verdict) {
    && k < |layers| && layers[k].result.verdict == v
    && forall i :: 0 <= i < k ==> layers[i].result.verdict != v
  }

  lemma StrictestIsMeet(layers: seq<Layer>, k: nat)
    requires Strictest(layers, k)
    ensures IsMeet(Verdicts(layers), layers[k].result.verdict) && IsFirst(layers, k, layers[k].result.verdict)
  {
    forall x | x in Verdicts(layers) ensures Precedence(layers[k].result.verdict) <= Precedence(x) {
      var i :| 0 <= i < |layers| && Verdicts(layers)[i] == x;
    }
    assert Verdicts(layers)[k] in Verdicts(layers);
  }

  predicate Unanimous(layers: seq<Layer>) {
    forall i :: 0 <= i < |layers| ==> layers[i].result.verdict == layers[0].result.verdict
  }

  /** The verdict is the meet of the layers', the first layer that has it decides, and so
      the combination allows exactly what every layer allows. */
  method Combine(layers: seq<Layer>) returns (r: Result, ghost k: nat)
    requires layers != []
    ensures IsMeet(Verdicts(layers), r.verdict)
    ensures IsFirst(layers, k, r.verdict) && r.reliesOnDeclared == layers[k].result.reliesOnDeclared
    ensures r.decidedBy == if Unanimous(layers) then "both" else layers[k].name
    ensures Allowed(r) <==> forall i :: 0 <= i < |layers| ==> Allowed(layers[i].result)
    ensures r.constraints == Merged(Constraints(layers))
    ensures r.redactions == MergedRedactions(layers)
    ensures r.requirements == Merged(Requirements(layers))
    ensures r.reason == BarJoin(Reasons(layers))
  {
    var strictest := StrictestLayer(layers);
    var constraints, redactions, requirements := MergeExtras(layers);
    k := strictest;
    r := Result(layers[strictest].result.verdict, if Unanimous(layers) then "both" else layers[strictest].name,
                layers[strictest].result.reliesOnDeclared, constraints, redactions, requirements,
                BarJoin(Reasons(layers)));
    StrictestDecides(layers, k);
    StrictestIsMeet(layers, k);
  }

  /** Maps laid over one another, the later winning. */
  function Merged<V>(maps: seq<map<string, V>>): map<string, V> {
    if maps == [] then map[] else Merged(maps[..|maps| - 1]) + maps[|maps| - 1]
  }

  lemma MergedStep<V>(maps: seq<map<string, V>>, i: nat)
    requires i < |maps|
    ensures Merged(maps[..i + 1]) == Merged(maps[..i]) + maps[i]
  {
    assert maps[..i + 1][..i] == maps[..i];
  }

  /** The last map with a name gives its value. */
  lemma {:induction false} MergedExact<V>(maps: seq<map<string, V>>, name: string)
    ensures name in Merged(maps) <==> exists i :: 0 <= i < |maps| && name in maps[i]
    ensures forall i :: 0 <= i < |maps| && LastWith(maps, name, i) ==>
      name in Merged(maps) && Merged(maps)[name] == maps[i][name]
  {
    if maps != [] {
      MergedExact(maps[..|maps| - 1], name);
      assert forall i :: 0 <= i < |maps| - 1 && LastWith(maps, name, i) ==> LastWith(maps[..|maps| - 1], name, i);
    }
  }

  predicate LastWith<V>(maps: seq<map<string, V>>, name: string, i: nat)
    requires i < |maps|
  {
    name in maps[i] && forall j :: i < j < |maps| ==> name !in maps[j]
  }

  function Constraints(layers: seq<Layer>): (r: seq<map<string, bool>>)
    ensures |r| == |layers| && forall i :: 0 <= i < |r| ==> r[i] == layers[i].result.constraints
  {
    if layers == [] then [] else [layers[0].result.constraints] + Constraints(layers[1..])
  }

  function Requirements(layers: seq<Layer>): (r: seq<map<string, string>>)
    ensures |r| == |layers| && forall i :: 0 <= i < |r| ==> r[i] == layers[i].result.requirements
  {
    if layers == [] then [] else [layers[0].result.requirements] + Requirements(layers[1..])
  }

  function MergedRedactions(layers: seq<Layer>): (r: set<string>)
    ensures forall x :: x in r <==> exists i :: 0 <= i < |layers| && x in layers[i].result.redactions
  {
    if layers == [] then {}
    else MergedRedactions(layers[..|layers| - 1]) + layers[|layers| - 1].result.redactions
  }

  /** The reasons given, in layer order. */
  function Reasons(layers: seq<Layer>): seq<string> {
    if layers == [] then []
    else
      var reason := layers[|layers| - 1].result.reason;
      Reasons(layers[..|layers| - 1]) + (if reason != "" then [reason] else [])
  }

  function BarJoin(parts: seq<string>): string {
    if parts == [] then ""
    else if |parts| == 1 then parts[0]
    else parts[0] + " | " + BarJoin(parts[1..])
  }

  lemma StrictestDecides(layers: seq<Layer>, k: nat)
    requires Strictest(layers, k)
    ensures Permits(layers[k].result.verdict) <==> forall i :: 0 <= i < |layers| ==> Allowed(layers[i].result)
  {
  }

  /** The verdict is the meet of the three layers', for every policy list and every answer
      of the model, so an intention passes exactly when all three let it; and the
      first layer with that verdict says whether anything declared was relied on. The rule
      store is read twice, by the grounded layer and by the semantic one, and need not
      answer the same. */
  method EvaluateWithLlm(request: Request, policies: seq<Policy>, groundedRead: Option<seq<Rule>>,
                         semanticRead: Option<seq<Rule>>, m: Matcher, answer: Answer) returns (r: Result)
    ensures var invariants := EvaluateInvariants(request);
      var grounded := Grounded(policies, Readable(groundedRead), request, m);
      var semantic := Semantic(semanticRead.Some?, Applicable(Readable(semanticRead), request.point), answer);
      && IsMeet([invariants.verdict, grounded, semantic.verdict], r.verdict)
      && (Allowed(r) <==> Allowed(invariants) && Permits(grounded) && Allowed(semantic))
      && r.reliesOnDeclared == (if invariants.verdict == r.verdict then invariants.reliesOnDeclared
                                else if grounded == r.verdict then true else semantic.reliesOnDeclared)
      && r.constraints == (if grounded == RequireHumanApproval then map["require_human_approval" := true] else map[])
                          + semantic.constraints
    ensures semanticRead.None? ==> r.verdict == Deny
  {
    var invariants := EvaluateInvariants(request);
    var verdict := Evaluate(policies, Readable(groundedRead), request, m);
    var grounded := if verdict == RequireHumanApproval
      then Plain(verdict, "grounded", true).(constraints := map["require_human_approval" := true])
      else Plain(verdict, "", true);
    var semantic := Semantic(semanticRead.Some?, Applicable(Readable(semanticRead), request.point), answer);
    assert invariants.constraints + grounded.constraints == grounded.constraints;
    r := CombineThree(invariants, grounded, semantic);
  }

  /** What becomes of the model's word once the other layers have spoken: a denial denies,
      an approval or a restriction holds unless something stricter does, and a plain
      permission adds nothing. */
  lemma ModelWordCarries(invariants: Verdict, grounded: Verdict, applicable: seq<Rule>, answer: Answer, v: Verdict)
    requires applicable != [] && IsMeet([invariants, grounded, Semantic(true, applicable, answer).verdict], v)
    ensures Says(answer, "deny") ==> v == Deny
    ensures Says(answer, "require_human_approval") ==>
      v == if Deny in {invariants, grounded} then Deny else RequireHumanApproval
    ensures Says(answer, "allow_with_scope") && !AsksHuman(answer) ==>
      if invariants == grounded == Allow then v == AllowWithScope else IsMeet([invariants, grounded, AllowWithScope], v)
    ensures Says(answer, "allow") && !AsksHuman(answer) ==> IsMeet([invariants, grounded], v)
  {
    SemanticExact(true, applicable, answer);
    SaysOneThing(answer);
    MeetOfThree(invariants, grounded, Semantic(true, applicable, answer).verdict, v);
  }

  lemma MeetOfThree(a: Verdict, b: Verdict, c: Verdict, v: Verdict)
    requires IsMeet([a, b, c], v)
    ensures v == Deny <==> a == Deny || b == Deny || c == Deny
    ensures c == RequireHumanApproval ==> v == Deny || v == RequireHumanApproval
    ensures c == AllowWithScope && a == b == Allow ==> v == AllowWithScope
    ensures c == Allow ==> IsMeet([a, b], v)
  {
    assert forall x :: x in [a, b, c] <==> x == a || x == b || x == c;
    assert a in [a, b, c] && b in [a, b, c] && c in [a, b, c];
    assert forall x :: x in [a, b] <==> x == a || x == b;
  }

  lemma SaysOneThing(answer: Answer)
    ensures Says(answer, "deny") ==>
      !Says(answer, "allow") && !Says(answer, "allow_with_scope") && !Says(answer, "require_human_approval")
    ensures Says(answer, "require_human_approval") ==> !Says(answer, "allow") && !Says(answer, "allow_with_scope")
    ensures Says(answer, "allow_with_scope") ==> !Says(answer, "allow")
  {
    WordsDiffer();
  }

  lemma WordsDiffer()
    ensures |"allow"| == 5 && |"deny"| == 4 && |"allow_with_scope"| == 16 && |"require_human_approval"| == 22
  {
  }

  method CombineThree(invariants: Result, grounded: Result, semantic: Result) returns (r: Result)
    ensures IsMeet([invariants.verdict, grounded.verdict, semantic.verdict], r.verdict)
    ensures Allowed(r) <==> Allowed(invariants) && Allowed(grounded) && Allowed(semantic)
    ensures r.reliesOnDeclared ==
      if invariants.verdict == r.verdict then invariants.reliesOnDeclared
      else if grounded.verdict == r.verdict then grounded.reliesOnDeclared
      else semantic.reliesOnDeclared
    ensures r.constraints == invariants.constraints + grounded.constraints + semantic.constraints
  {
    var layers := [Layer("invariant", invariants), Layer("grounded", grounded), Layer("semantic", semantic)];
    assert layers[0].result == invariants && layers[1].result == grounded && layers[2].result == semantic;
    assert Verdicts(layers) == [invariants.verdict, grounded.verdict, semantic.verdict];
    MergedThree(Constraints(layers));
    ghost var k;
    r, k := Combine(layers);
    assert k == 0 || k == 1 || k == 2;
  }

  lemma MergedThree<V>(maps: seq<map<string, V>>)
    requires |maps| == 3
    ensures Merged(maps) == maps[0] + maps[1] + maps[2]
  {
    assert maps[..2][..1] == maps[..1] && maps[..1][..0] == [];
    assert Merged(maps[..1]) == maps[0];
    assert Merged(maps[..2]) == maps[0] + maps[1];
  }

  /** A store that cannot be read gives no rules. */
  function Readable(read: Option<seq<Rule>>): seq<Rule> {
    if read.Some? then read.value else []
  }

  function Applicable(rules: seq<Rule>, point: string): (r: seq<Rule>)
    ensures forall rule :: rule in r <==> rule in rules && (rule.points == [] || point in rule.points)
  {
    if rules == [] then []
    else (if AppliesAt(rules[0].points, point) then [rules[0]] else []) + Applicable(rules[1..], point)
  }
}
