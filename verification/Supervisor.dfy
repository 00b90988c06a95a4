/** The supervisor's loop: run the graph, check each agent's artifact, and run the
    whole graph again with the restrictions so far when one is denied. */
module Supervisor {
  import opened Options
  import opened Json
  import opened GraphBuilder

  type Restrictions = map<string, seq<string>>

  /** One artifact check: whose turn, which run of the graph it looked at, what
      it saw, and the reason when it denied. */
  datatype Check = Check(turn: nat, agent: string, run: nat, payload: Json, denial: Option<string>)

  /** One invocation: how many checks had been made, and the restrictions given. */
  datatype Invocation = Invocation(checked: nat, restrictions: Restrictions)

  datatype Progress = Progress(state: GraphState, invocations: seq<Invocation>, checks: seq<Check>)

  /** The graph and the artifact check, as oracles of what was called before. */
  datatype World = World(invoke: (nat, Restrictions) -> GraphState, judge: (nat, string, Json) -> Option<string>)

  /** An absent result and a null one read the same. */
  function Payload(state: GraphState, agent: string): Option<Json> {
    if agent in state.results && state.results[agent] != JNull then Some(state.results[agent]) else None
  }

  /** The reasons of the denials, by agent, in order. */
  function Denials(checks: seq<Check>): Restrictions {
    if checks == [] then map[]
    else
      var before, last := Denials(checks[..|checks| - 1]), checks[|checks| - 1];
      if last.denial.None? then before
      else before[last.agent := (if last.agent in before then before[last.agent] else []) + [last.denial.value]]
  }

  function Runs(p: Progress): nat {
    |p.invocations|
  }

  function Checked(w: World, p: Progress, turn: nat, agent: string, payload: Json): Progress
    requires p.invocations != []
  {
    p.(checks := p.checks + [Check(turn, agent, Runs(p) - 1, payload, w.judge(|p.checks|, agent, payload))])
  }

  function Exhausted(p: Progress, agent: string): Progress {
    p.(state := GraphState(p.state.results - {agent},
                           p.state.errors + [StepError(agent, "", "rejected after all retries")]))
  }

  function Reinvoked(w: World, p: Progress): Progress {
    var restrictions := Denials(p.checks);
    Progress(w.invoke(Runs(p), restrictions), p.invocations + [Invocation(|p.checks|, restrictions)], p.checks)
  }

  /** The attempts of one turn, from number `attempt` on, over a payload that is there. */
  function Attempts(w: World, p: Progress, turn: nat, agent: string, attempt: nat, maxRetries: nat): (r: Progress)
    requires 1 <= attempt <= maxRetries && Payload(p.state, agent).Some? && p.invocations != []
    ensures r.invocations != []
    decreases maxRetries - attempt
  {
    var p1 := Checked(w, p, turn, agent, Payload(p.state, agent).value);
    if p1.checks[|p.checks|].denial.None? then p1
    else if attempt >= maxRetries then Exhausted(p1, agent)
    else
      var p2 := Reinvoked(w, p1);
      if Payload(p2.state, agent).None? then p2
      else Attempts(w, p2, turn, agent, attempt + 1, maxRetries)
  }

  function Turn(w: World, p: Progress, turn: nat, agent: string, maxRetries: nat): (r: Progress)
    requires p.invocations != []
    ensures r.invocations != []
  {
    if Payload(p.state, agent).None? || maxRetries == 0 then p else Attempts(w, p, turn, agent, 1, maxRetries)
  }

  function Initial(w: World): Progress {
    Progress(w.invoke(0, map[]), [Invocation(0, map[])], [])
  }

  /** After the turns of the first `n` agents. */
  function Turns(w: World, agents: seq<string>, n: nat, maxRetries: nat): (r: Progress)
    requires n <= |agents|
    ensures r.invocations != []
  {
    if n == 0 then Initial(w)
    else Turn(w, Turns(w, agents, n - 1, maxRetries), n - 1, agents[n - 1], maxRetries)
  }

  method ExecuteWithValidation(w: World, agents: seq<string>, maxRetries: nat) returns (p: Progress)
    ensures p == Turns(w, agents, |agents|, maxRetries)
  {
    p := Progress(w.invoke(0, map[]), [Invocation(0, map[])], []);
    for i := 0 to |agents|
      invariant p == Turns(w, agents, i, maxRetries)
    {
      p := ValidateAgent(w, p, i, agents[i], maxRetries);
    }
  }

  /** One agent's turn: check, and on denial withdraw or run the graph again. */
  method ValidateAgent(w: World, p0: Progress, turn: nat, agent: string, maxRetries: nat) returns (p: Progress)
    requires p0.invocations != []
    ensures p == Turn(w, p0, turn, agent, maxRetries)
  {
    p := p0;
    var payload := Payload(p.state, agent);
    if payload.None? {
      return;
    }
    var attempt := 1;
    while attempt <= maxRetries
      invariant 1 <= attempt <= maxRetries + 1
      invariant p.invocations != []
      invariant payload == Payload(p.state, agent) && payload.Some?
      invariant Turn(w, p0, turn, agent, maxRetries) ==
        if attempt > maxRetries then p else Attempts(w, p, turn, agent, attempt, maxRetries)
    {
      var verdict := w.judge(|p.checks|, agent, payload.value);
      p := p.(checks := p.checks + [Check(turn, agent, |p.invocations| - 1, payload.value, verdict)]);
      if verdict.None? {
        return;
      }
      if attempt >= maxRetries {
        p := Exhausted(p, agent);
        return;
      }
      p := Reinvoked(w, p);
      payload := Payload(p.state, agent);
      if payload.None? {
        return;
      }
      attempt := attempt + 1;
    }
  }

  // ------------------------------------------------------------------
  // How much work
  // ------------------------------------------------------------------

  lemma {:induction false} AttemptsBounds(w: World, p: Progress, turn: nat, agent: string, attempt: nat,
                                          maxRetries: nat)
    requires 1 <= attempt <= maxRetries && Payload(p.state, agent).Some? && p.invocations != []
    ensures var r := Attempts(w, p, turn, agent, attempt, maxRetries);
      && |p.checks| < |r.checks| <= |p.checks| + (maxRetries - attempt + 1)
      && Runs(p) <= Runs(r) <= Runs(p) + (maxRetries - attempt)
      && p.checks <= r.checks && p.invocations <= r.invocations
    decreases maxRetries - attempt
  {
    var p1 := Checked(w, p, turn, agent, Payload(p.state, agent).value);
    if p1.checks[|p.checks|].denial.Some? && attempt < maxRetries {
      var p2 := Reinvoked(w, p1);
      if Payload(p2.state, agent).Some? {
        AttemptsBounds(w, p2, turn, agent, attempt + 1, maxRetries);
      }
    }
  }

  lemma TurnWork(w: World, p: Progress, turn: nat, agent: string, maxRetries: nat)
    requires p.invocations != [] && maxRetries >= 1
    ensures var r := Turn(w, p, turn, agent, maxRetries);
      |r.checks| <= |p.checks| + maxRetries && Runs(p) <= Runs(r) <= Runs(p) + (maxRetries - 1)
  {
    if Payload(p.state, agent).Some? {
      AttemptsBounds(w, p, turn, agent, 1, maxRetries);
    }
  }

  lemma OneMore(n: nat, m: int)
    requires n > 0
    ensures (n - 1) * m + m == n * m
  {
  }

  /** For N agents and R >= 1 retries: at most N R checks and 1 + N (R - 1) runs. */
  lemma {:induction false} WorkIsBounded(w: World, agents: seq<string>, n: nat, maxRetries: nat)
    requires n <= |agents| && maxRetries >= 1
    ensures |Turns(w, agents, n, maxRetries).checks| <= n * maxRetries
    ensures 1 <= Runs(Turns(w, agents, n, maxRetries)) <= 1 + n * (maxRetries - 1)
  {
    if n > 0 {
      WorkIsBounded(w, agents, n - 1, maxRetries);
      TurnWork(w, Turns(w, agents, n - 1, maxRetries), n - 1, agents[n - 1], maxRetries);
      OneMore(n, maxRetries);
      OneMore(n, maxRetries - 1);
    }
  }

  /** With no retries configured nothing is ever checked. */
  lemma {:induction false} NoRetriesNoChecks(w: World, agents: seq<string>, n: nat)
    requires n <= |agents|
    ensures Turns(w, agents, n, 0) == Initial(w)
  {
    if n > 0 { NoRetriesNoChecks(w, agents, n - 1); }
  }

  // ------------------------------------------------------------------
  // Restrictions
  // ------------------------------------------------------------------

  /** The reasons given to one agent, read from the first check on. */
  function ReasonsFor(checks: seq<Check>, agent: string): seq<string> {
    if checks == [] then []
    else if checks[0].agent == agent && checks[0].denial.Some?
    then [checks[0].denial.value] + ReasonsFor(checks[1..], agent)
    else ReasonsFor(checks[1..], agent)
  }

  lemma {:induction false} ReasonsForAppend(checks: seq<Check>, last: Check, agent: string)
    ensures ReasonsFor(checks + [last], agent) == ReasonsFor(checks, agent) + ReasonsFor([last], agent)
  {
    if checks == [] {
      assert checks + [last] == [last];
    } else {
      ReasonsForAppend(checks[1..], last, agent);
      assert (checks + [last])[1..] == checks[1..] + [last];
    }
  }

  /** An agent has restrictions exactly when it was denied, and they are the reasons of
      its own denials in the order of the checks. */
  lemma {:induction false} DenialsExact(checks: seq<Check>, agent: string)
    ensures agent in Denials(checks) <==> ReasonsFor(checks, agent) != []
    ensures agent in Denials(checks) ==> Denials(checks)[agent] == ReasonsFor(checks, agent)
  {
    if checks != [] {
      var init, last := checks[..|checks| - 1], checks[|checks| - 1];
      DenialsExact(init, agent);
      ReasonsForAppend(init, last, agent);
      assert init + [last] == checks && [last][1..] == [];
    }
  }

  /** Each run is given exactly the reasons of the denials found on earlier runs. */
  ghost predicate RestrictionsKept(p: Progress) {
    && (forall k :: 0 <= k < Runs(p) ==> p.invocations[k].checked <= |p.checks|)
    && (forall k :: 0 <= k < Runs(p) ==>
         p.invocations[k].restrictions == Denials(p.checks[..p.invocations[k].checked]))
    && (forall k, j :: 0 <= k < Runs(p) && 0 <= j < |p.checks| ==>
         (p.checks[j].run < k <==> j < p.invocations[k].checked))
    && (forall j :: 0 <= j < |p.checks| ==> p.checks[j].run < Runs(p))
  }

  lemma CheckedKeeps(w: World, p: Progress, turn: nat, agent: string, payload: Json)
    requires RestrictionsKept(p) && p.invocations != []
    ensures RestrictionsKept(Checked(w, p, turn, agent, payload))
  {
    var r := Checked(w, p, turn, agent, payload);
    forall k | 0 <= k < Runs(p) ensures r.checks[..p.invocations[k].checked] == p.checks[..p.invocations[k].checked] {}
  }

  lemma ReinvokedKeeps(w: World, p: Progress)
    requires RestrictionsKept(p)
    ensures RestrictionsKept(Reinvoked(w, p))
  {
    assert p.checks[..|p.checks|] == p.checks;
  }

  lemma ExhaustedKeeps(p: Progress, agent: string)
    requires RestrictionsKept(p)
    ensures RestrictionsKept(Exhausted(p, agent))
  {
  }

  lemma {:induction false} AttemptsKeepRestrictions(w: World, p: Progress, turn: nat, agent: string,
                                                    attempt: nat, maxRetries: nat)
    requires 1 <= attempt <= maxRetries && Payload(p.state, agent).Some? && p.invocations != []
    requires RestrictionsKept(p)
    ensures RestrictionsKept(Attempts(w, p, turn, agent, attempt, maxRetries))
    decreases maxRetries - attempt
  {
    var p1 := Checked(w, p, turn, agent, Payload(p.state, agent).value);
    CheckedKeeps(w, p, turn, agent, Payload(p.state, agent).value);
    if p1.checks[|p.checks|].denial.Some? {
      if attempt < maxRetries {
        var p2 := Reinvoked(w, p1);
        ReinvokedKeeps(w, p1);
        if Payload(p2.state, agent).Some? {
          AttemptsKeepRestrictions(w, p2, turn, agent, attempt + 1, maxRetries);
        }
      } else {
        ExhaustedKeeps(p1, agent);
      }
    }
  }

  lemma {:induction false} RunsGetEarlierDenials(w: World, agents: seq<string>, n: nat, maxRetries: nat)
    requires n <= |agents|
    ensures RestrictionsKept(Turns(w, agents, n, maxRetries))
  {
    if n == 0 {
      InitialKeepsRestrictions(w);
    } else {
      RunsGetEarlierDenials(w, agents, n - 1, maxRetries);
      NextTurnKeepsRestrictions(w, agents, n, maxRetries);
    }
  }

  lemma NextTurnKeepsRestrictions(w: World, agents: seq<string>, n: nat, maxRetries: nat)
    requires 0 < n <= |agents| && RestrictionsKept(Turns(w, agents, n - 1, maxRetries))
    ensures RestrictionsKept(Turns(w, agents, n, maxRetries))
  {
    TurnKeepsRestrictions(w, Turns(w, agents, n - 1, maxRetries), n - 1, agents[n - 1], maxRetries);
  }

  lemma InitialKeepsRestrictions(w: World)
    ensures RestrictionsKept(Initial(w))
  {
  }

  lemma TurnKeepsRestrictions(w: World, p: Progress, turn: nat, agent: string, maxRetries: nat)
    requires RestrictionsKept(p) && p.invocations != []
    ensures RestrictionsKept(Turn(w, p, turn, agent, maxRetries))
  {
    if Payload(p.state, agent).Some? && maxRetries > 0 {
      AttemptsKeepRestrictions(w, p, turn, agent, 1, maxRetries);
    }
  }

  lemma ChecksAreOfPastRuns(w: World, agents: seq<string>, n: nat, maxRetries: nat)
    requires n <= |agents|
    ensures var p := Turns(w, agents, n, maxRetries);
      forall k :: 0 <= k < |p.checks| ==> p.checks[k].run < Runs(p)
  {
    RunsGetEarlierDenials(w, agents, n, maxRetries);
  }

  // ------------------------------------------------------------------
  // What a turn does
  // ------------------------------------------------------------------

  /** No result, or a null one. */
  predicate Empty(state: GraphState, agent: string) {
    agent !in state.results || state.results[agent] == JNull
  }

  /** What the given run of the graph returned. */
  function Returned(w: World, p: Progress, run: nat): GraphState
    requires run < Runs(p)
  {
    w.invoke(run, p.invocations[run].restrictions)
  }

  /** The `i`-th check of a turn that began with `p`: of the turn's agent, on the run the
      turn had come to, about what that run returned for the agent, and answered by
      the judge about exactly that. */
  ghost predicate CheckOfTurn(w: World, p: Progress, r: Progress, turn: nat, agent: string, i: nat)
    requires p.invocations != [] && |p.checks| + i < |r.checks| && Runs(p) + i <= Runs(r)
  {
    var c := r.checks[|p.checks| + i];
    var seen := if i == 0 then p.state else Returned(w, r, Runs(p) - 1 + i);
    && c.turn == turn && c.agent == agent && c.run == Runs(p) - 1 + i
    && !Empty(seen, agent) && c.payload == seen.results[agent]
    && c.denial == w.judge(|p.checks| + i, agent, c.payload)
  }

  /** The agent's result is gone, one error of its own is there, and nothing else changed. */
  ghost predicate Withdrawn(before: GraphState, after: GraphState, agent: string) {
    && after.results == (map a | a in before.results && a != agent :: before.results[a])
    && |after.errors| == |before.errors| + 1 && before.errors <= after.errors
    && after.errors[|before.errors|].agent == agent
  }

  /** How a turn of `m` checks, of at most `limit`, ends. */
  ghost predicate TurnEnds(w: World, p: Progress, r: Progress, agent: string, m: nat, limit: nat)
    requires p.invocations != [] && 1 <= m <= limit && |r.checks| == |p.checks| + m && Runs(p) + m - 1 <= Runs(r)
  {
    var checked := if m == 1 then p.state else Returned(w, r, Runs(p) + m - 2);
    if r.checks[|r.checks| - 1].denial.None? then Runs(r) == Runs(p) + m - 1 && r.state == checked
    else if m == limit then Runs(r) == Runs(p) + m - 1 && Withdrawn(checked, r.state, agent)
    else Runs(r) == Runs(p) + m && r.state == Returned(w, r, Runs(r) - 1) && Empty(r.state, agent)
  }

  /** A turn of at most `limit` checks leads from `p` to `r`. */
  ghost predicate IsTurn(w: World, p: Progress, r: Progress, turn: nat, agent: string, limit: nat)
    requires p.invocations != []
  {
    var m := |r.checks| - |p.checks|;
    && 1 <= m <= limit && Runs(p) + m - 1 <= Runs(r)
    && p.checks <= r.checks && p.invocations <= r.invocations
    && (forall i :: 0 <= i < m ==> CheckOfTurn(w, p, r, turn, agent, i))
    && (forall i :: 0 <= i < m - 1 ==> DeniedAt(p, r, i))
    && TurnEnds(w, p, r, agent, m, limit)
  }

  predicate DeniedAt(p: Progress, r: Progress, i: nat)
    requires |p.checks| + i < |r.checks|
  {
    r.checks[|p.checks| + i].denial.Some?
  }

  /** The turn goes on from `p2`: the first check is made and denied, and the graph run
      again. */
  ghost predicate GoesOn(w: World, p: Progress, p2: Progress, r: Progress, turn: nat, agent: string) {
    && p.invocations != [] && Runs(p2) == Runs(p) + 1 && |p2.checks| == |p.checks| + 1
    && p.checks <= p2.checks <= r.checks && p.invocations <= p2.invocations <= r.invocations
    && Returned(w, r, Runs(p)) == p2.state
    && CheckOfTurn(w, p, r, turn, agent, 0) && DeniedAt(p, r, 0)
  }

  lemma TurnGoesOn(w: World, p: Progress, p2: Progress, r: Progress, turn: nat, agent: string)
    requires p.invocations != [] && Payload(p.state, agent).Some?
    requires var p1 := Checked(w, p, turn, agent, Payload(p.state, agent).value);
      p1.checks[|p.checks|].denial.Some? && p2 == Reinvoked(w, p1)
    requires p2.checks <= r.checks && p2.invocations <= r.invocations
    ensures GoesOn(w, p, p2, r, turn, agent)
  {
    assert r.checks[|p.checks|] == p2.checks[|p.checks|];
    assert r.invocations[Runs(p)] == p2.invocations[Runs(p)];
  }

  lemma NextCheckOfTurn(w: World, p: Progress, p2: Progress, r: Progress, turn: nat, agent: string, i: nat)
    requires GoesOn(w, p, p2, r, turn, agent)
    requires |p2.checks| + i < |r.checks| && Runs(p2) + i <= Runs(r) && CheckOfTurn(w, p2, r, turn, agent, i)
    ensures CheckOfTurn(w, p, r, turn, agent, i + 1)
  {
    assert |p2.checks| + i == |p.checks| + (i + 1);
  }

  lemma ChecksOfLongerTurn(w: World, p: Progress, p2: Progress, r: Progress, turn: nat, agent: string, limit: nat)
    requires GoesOn(w, p, p2, r, turn, agent) && IsTurn(w, p2, r, turn, agent, limit)
    ensures forall i :: 0 <= i < |r.checks| - |p.checks| ==> CheckOfTurn(w, p, r, turn, agent, i)
  {
    forall i | 0 <= i < |r.checks| - |p.checks| ensures CheckOfTurn(w, p, r, turn, agent, i) {
      if i > 0 { NextCheckOfTurn(w, p, p2, r, turn, agent, i - 1); }
    }
  }

  lemma DenialsOfLongerTurn(w: World, p: Progress, p2: Progress, r: Progress, turn: nat, agent: string, limit: nat)
    requires GoesOn(w, p, p2, r, turn, agent) && IsTurn(w, p2, r, turn, agent, limit)
    ensures forall i :: 0 <= i < |r.checks| - |p.checks| - 1 ==> DeniedAt(p, r, i)
  {
    forall i | 0 <= i < |r.checks| - |p.checks| - 1 ensures DeniedAt(p, r, i) {
      if i > 0 { assert DeniedAt(p2, r, i - 1); }
    }
  }

  lemma TurnAfterOneMore(w: World, p: Progress, p2: Progress, r: Progress, turn: nat, agent: string, limit: nat)
    requires GoesOn(w, p, p2, r, turn, agent) && IsTurn(w, p2, r, turn, agent, limit)
    ensures IsTurn(w, p, r, turn, agent, limit + 1)
  {
    ChecksOfLongerTurn(w, p, p2, r, turn, agent, limit);
    DenialsOfLongerTurn(w, p, p2, r, turn, agent, limit);
    EndsAfterOneMore(w, p, p2, r, agent, |r.checks| - |p.checks|, limit);
  }

  lemma EndsAfterOneMore(w: World, p: Progress, p2: Progress, r: Progress, agent: string, m: nat, limit: nat)
    requires p.invocations != [] && Runs(p2) == Runs(p) + 1 && |p2.checks| == |p.checks| + 1
    requires 2 <= m <= limit + 1 && |r.checks| == |p.checks| + m && Runs(p) + m - 1 <= Runs(r)
    requires Returned(w, r, Runs(p)) == p2.state && TurnEnds(w, p2, r, agent, m - 1, limit)
    ensures TurnEnds(w, p, r, agent, m, limit + 1)
  {
    assert Runs(p2) + (m - 1) - 2 == Runs(p) + m - 2;
  }

  /** The three ways in which a turn is over after one check. */
  lemma TurnOfOneCheck(w: World, p: Progress, r: Progress, turn: nat, agent: string, limit: nat)
    requires p.invocations != [] && Payload(p.state, agent).Some? && limit >= 1
    requires var p1 := Checked(w, p, turn, agent, Payload(p.state, agent).value);
      if p1.checks[|p.checks|].denial.None? then r == p1
      else if limit == 1 then r == Exhausted(p1, agent)
      else r == Reinvoked(w, p1) && Payload(r.state, agent).None?
    ensures IsTurn(w, p, r, turn, agent, limit)
  {
    assert |r.checks| == |p.checks| + 1;
    assert CheckOfTurn(w, p, r, turn, agent, 0);
  }

  lemma AttemptsUnfold(w: World, p: Progress, turn: nat, agent: string, attempt: nat, maxRetries: nat)
    requires 1 <= attempt <= maxRetries && Payload(p.state, agent).Some? && p.invocations != []
    ensures var r := Attempts(w, p, turn, agent, attempt, maxRetries);
      var p1 := Checked(w, p, turn, agent, Payload(p.state, agent).value);
      var p2 := Reinvoked(w, p1);
      if p1.checks[|p.checks|].denial.None? then r == p1
      else if attempt == maxRetries then r == Exhausted(p1, agent)
      else if Payload(p2.state, agent).None? then r == p2
      else r == Attempts(w, p2, turn, agent, attempt + 1, maxRetries)
  {
  }

  /** The run after a denied check. */
  function NextRun(w: World, p: Progress, turn: nat, agent: string): Progress
    requires p.invocations != [] && Payload(p.state, agent).Some?
  {
    Reinvoked(w, Checked(w, p, turn, agent, Payload(p.state, agent).value))
  }

  predicate IsDenied(w: World, p: Progress, turn: nat, agent: string)
    requires p.invocations != [] && Payload(p.state, agent).Some?
  {
    Checked(w, p, turn, agent, Payload(p.state, agent).value).checks[|p.checks|].denial.Some?
  }

  lemma LongerTurn(w: World, p: Progress, r: Progress, turn: nat, agent: string, limit: nat)
    requires p.invocations != [] && Payload(p.state, agent).Some? && IsDenied(w, p, turn, agent)
    requires IsTurn(w, NextRun(w, p, turn, agent), r, turn, agent, limit)
    ensures IsTurn(w, p, r, turn, agent, limit + 1)
  {
    var p2 := NextRun(w, p, turn, agent);
    TurnGoesOn(w, p, p2, r, turn, agent);
    TurnAfterOneMore(w, p, p2, r, turn, agent, limit);
  }

  /** An attempt that is not followed by another. */
  lemma LastAttempt(w: World, p: Progress, turn: nat, agent: string, attempt: nat, maxRetries: nat)
    requires 1 <= attempt <= maxRetries && Payload(p.state, agent).Some? && p.invocations != []
    requires !IsDenied(w, p, turn, agent) || attempt == maxRetries
             || Payload(NextRun(w, p, turn, agent).state, agent).None?
    ensures IsTurn(w, p, Attempts(w, p, turn, agent, attempt, maxRetries), turn, agent, maxRetries - attempt + 1)
  {
    AttemptsUnfold(w, p, turn, agent, attempt, maxRetries);
    TurnOfOneCheck(w, p, Attempts(w, p, turn, agent, attempt, maxRetries), turn, agent, maxRetries - attempt + 1);
  }

  lemma EarlierAttempt(w: World, p: Progress, turn: nat, agent: string, attempt: nat, maxRetries: nat)
    requires 1 <= attempt < maxRetries && Payload(p.state, agent).Some? && p.invocations != []
    requires IsDenied(w, p, turn, agent) && Payload(NextRun(w, p, turn, agent).state, agent).Some?
    ensures Attempts(w, p, turn, agent, attempt, maxRetries) ==
      Attempts(w, NextRun(w, p, turn, agent), turn, agent, attempt + 1, maxRetries)
  {
    AttemptsUnfold(w, p, turn, agent, attempt, maxRetries);
  }

  /** One attempt, when those after it are a turn. */
  lemma OneMoreAttempt(w: World, p: Progress, r: Progress, turn: nat, agent: string, attempt: nat, maxRetries: nat)
    requires 1 <= attempt < maxRetries && Payload(p.state, agent).Some? && p.invocations != []
    requires IsDenied(w, p, turn, agent) && Payload(NextRun(w, p, turn, agent).state, agent).Some?
    requires r == Attempts(w, NextRun(w, p, turn, agent), turn, agent, attempt + 1, maxRetries)
    requires IsTurn(w, NextRun(w, p, turn, agent), r, turn, agent, maxRetries - attempt)
    ensures IsTurn(w, p, Attempts(w, p, turn, agent, attempt, maxRetries), turn, agent, maxRetries - attempt + 1)
  {
    EarlierAttempt(w, p, turn, agent, attempt, maxRetries);
    LongerTurn(w, p, r, turn, agent, maxRetries - attempt);
  }

  lemma {:induction false} AttemptsAreTurn(w: World, p: Progress, turn: nat, agent: string, attempt: nat,
                                           maxRetries: nat)
    requires 1 <= attempt <= maxRetries && Payload(p.state, agent).Some? && p.invocations != []
    ensures IsTurn(w, p, Attempts(w, p, turn, agent, attempt, maxRetries), turn, agent, maxRetries - attempt + 1)
    decreases maxRetries - attempt
  {
    var p2 := NextRun(w, p, turn, agent);
    if attempt == maxRetries || !IsDenied(w, p, turn, agent) || Payload(p2.state, agent).None? {
      LastAttempt(w, p, turn, agent, attempt, maxRetries);
    } else {
      AttemptsAreTurn(w, p2, turn, agent, attempt + 1, maxRetries);
      OneMoreAttempt(w, p, Attempts(w, p2, turn, agent, attempt + 1, maxRetries), turn, agent, attempt, maxRetries);
    }
  }

  /** A turn over a result checks it, and again on each further run of the graph, until a
      check passes, the run returns none, or the limit is reached, when the result is
      withdrawn; a turn over no result, or without attempts, does nothing. */
  lemma {:induction false} TurnExactly(w: World, p: Progress, turn: nat, agent: string, maxRetries: nat)
    requires p.invocations != []
    ensures var r := Turn(w, p, turn, agent, maxRetries);
      if Empty(p.state, agent) || maxRetries == 0 then r == p
      else IsTurn(w, p, r, turn, agent, maxRetries)
  {
    if Payload(p.state, agent).Some? && maxRetries > 0 {
      AttemptsAreTurn(w, p, turn, agent, 1, maxRetries);
    }
  }

  // ------------------------------------------------------------------
  // What was checked
  // ------------------------------------------------------------------

  /** Every check was about what its run returned for its agent, and its denial is the
      judge's answer about that; and what the agents have now is from the last run. */
  ghost predicate TrueChecks(w: World, p: Progress) {
    && p.invocations != []
    && (forall k :: 0 <= k < |p.checks| ==> TrueCheck(w, p, p.checks[k], k))
    && (forall a :: !Empty(p.state, a) ==> IsResultOf(w, p, Runs(p) - 1, a, p.state.results[a]))
  }

  ghost predicate IsResultOf(w: World, p: Progress, run: nat, agent: string, v: Json)
    requires run < Runs(p)
  {
    !Empty(Returned(w, p, run), agent) && Returned(w, p, run).results[agent] == v
  }

  ghost predicate TrueCheck(w: World, p: Progress, c: Check, k: nat) {
    && c.run < Runs(p) && IsResultOf(w, p, c.run, c.agent, c.payload)
    && c.denial == w.judge(k, c.agent, c.payload)
  }

  lemma TurnKeepsSource(w: World, p: Progress, r: Progress, turn: nat, agent: string, limit: nat)
    requires TrueChecks(w, p) && IsTurn(w, p, r, turn, agent, limit)
    ensures forall a :: !Empty(r.state, a) ==> IsResultOf(w, r, Runs(r) - 1, a, r.state.results[a])
  {
    assert r.invocations[Runs(p) - 1] == p.invocations[Runs(p) - 1];
    var m := |r.checks| - |p.checks|;
    var checked := if m == 1 then p.state else Returned(w, r, Runs(p) + m - 2);
    forall a | !Empty(r.state, a) ensures IsResultOf(w, r, Runs(r) - 1, a, r.state.results[a]) {
      if r.state != Returned(w, r, Runs(r) - 1) {
        assert !Empty(checked, a) && checked.results[a] == r.state.results[a];
        assert m == 1 ==> IsResultOf(w, p, Runs(p) - 1, a, p.state.results[a]);
      }
    }
  }

  lemma {:induction false} TurnKeepsTrueChecks(w: World, p: Progress, turn: nat, agent: string, maxRetries: nat)
    requires TrueChecks(w, p)
    ensures TrueChecks(w, Turn(w, p, turn, agent, maxRetries))
  {
    var r := Turn(w, p, turn, agent, maxRetries);
    TurnExactly(w, p, turn, agent, maxRetries);
    if Payload(p.state, agent).Some? && maxRetries > 0 {
      TurnKeepsSource(w, p, r, turn, agent, maxRetries);
      forall k | 0 <= k < |r.checks| ensures TrueCheck(w, r, r.checks[k], k) {
        if k < |p.checks| {
          assert TrueCheck(w, p, p.checks[k], k) && r.checks[k] == p.checks[k];
        } else {
          assert CheckOfTurn(w, p, r, turn, agent, k - |p.checks|);
        }
      }
    }
  }

  lemma {:induction false} ChecksAreTrue(w: World, agents: seq<string>, n: nat, maxRetries: nat)
    requires n <= |agents|
    ensures TrueChecks(w, Turns(w, agents, n, maxRetries))
  {
    if n > 0 {
      ChecksAreTrue(w, agents, n - 1, maxRetries);
      NextTurnKeepsTrueChecks(w, agents, n, maxRetries);
    }
  }

  lemma NextTurnKeepsTrueChecks(w: World, agents: seq<string>, n: nat, maxRetries: nat)
    requires 0 < n <= |agents| && TrueChecks(w, Turns(w, agents, n - 1, maxRetries))
    ensures TrueChecks(w, Turns(w, agents, n, maxRetries))
  {
    TurnKeepsTrueChecks(w, Turns(w, agents, n - 1, maxRetries), n - 1, agents[n - 1], maxRetries);
  }


  /** The agent has no result, or on this very run the check was asked about the one
      it has and did not deny it. */
  ghost predicate Vetted(w: World, p: Progress, agent: string) {
    Empty(p.state, agent) || exists k :: 0 <= k < |p.checks| && PassedAt(w, p, agent, k)
  }

  ghost predicate PassedAt(w: World, p: Progress, agent: string, k: nat)
    requires k < |p.checks| && !Empty(p.state, agent)
  {
    && p.checks[k].agent == agent && p.checks[k].run == Runs(p) - 1
    && p.checks[k].payload == p.state.results[agent]
    && w.judge(k, agent, p.state.results[agent]).None?
  }

  lemma {:induction false} AttemptsVet(w: World, p: Progress, turn: nat, agent: string, attempt: nat, maxRetries: nat)
    requires 1 <= attempt <= maxRetries && Payload(p.state, agent).Some? && p.invocations != []
    ensures Vetted(w, Attempts(w, p, turn, agent, attempt, maxRetries), agent)
    decreases maxRetries - attempt
  {
    var p1 := Checked(w, p, turn, agent, Payload(p.state, agent).value);
    if p1.checks[|p.checks|].denial.None? {
      assert PassedAt(w, p1, agent, |p.checks|);
    } else if attempt < maxRetries {
      var p2 := Reinvoked(w, p1);
      if Payload(p2.state, agent).Some? {
        AttemptsVet(w, p2, turn, agent, attempt + 1, maxRetries);
      }
    }
  }

  /** A turn that does not run the graph again keeps what was vetted. */
  lemma TurnKeepsVetted(w: World, p: Progress, turn: nat, agent: string, maxRetries: nat, other: string)
    requires p.invocations != [] && Vetted(w, p, other)
    requires Runs(Turn(w, p, turn, agent, maxRetries)) == Runs(p)
    ensures Vetted(w, Turn(w, p, turn, agent, maxRetries), other)
  {
    if Payload(p.state, agent).Some? && maxRetries > 0 {
      var p1 := Checked(w, p, turn, agent, Payload(p.state, agent).value);
      if p1.checks[|p.checks|].denial.Some? && maxRetries > 1 {
        var p2 := Reinvoked(w, p1);
        if Payload(p2.state, agent).Some? {
          AttemptsBounds(w, p2, turn, agent, 2, maxRetries);
        }
        assert false;
      }
      var r := Turn(w, p, turn, agent, maxRetries);
      if !Empty(r.state, other) {
        var k :| 0 <= k < |p.checks| && PassedAt(w, p, other, k);
        assert p1.checks[k] == p.checks[k];
        assert PassedAt(w, r, other, k);
      }
    }
  }

  lemma TurnOnlyExtends(w: World, p: Progress, turn: nat, agent: string, maxRetries: nat)
    requires p.invocations != []
    ensures var r := Turn(w, p, turn, agent, maxRetries);
      p.checks <= r.checks && p.invocations <= r.invocations && Runs(p) <= Runs(r)
  {
    if Payload(p.state, agent).Some? && maxRetries > 0 {
      AttemptsBounds(w, p, turn, agent, 1, maxRetries);
    }
  }

  lemma TurnsUnfold(w: World, agents: seq<string>, n: nat, maxRetries: nat)
    requires 0 < n <= |agents|
    ensures var p := Turns(w, agents, n - 1, maxRetries);
      && Turns(w, agents, n, maxRetries) == Turn(w, p, n - 1, agents[n - 1], maxRetries)
      && Runs(p) <= Runs(Turns(w, agents, n, maxRetries))
  {
    TurnOnlyExtends(w, Turns(w, agents, n - 1, maxRetries), n - 1, agents[n - 1], maxRetries);
  }

  lemma OwnTurnVets(w: World, p: Progress, turn: nat, agent: string, maxRetries: nat)
    requires p.invocations != [] && maxRetries >= 1
    ensures Vetted(w, Turn(w, p, turn, agent, maxRetries), agent)
  {
    if Payload(p.state, agent).Some? {
      AttemptsVet(w, p, turn, agent, 1, maxRetries);
    }
  }

  lemma OwnTurnIsVetted(w: World, agents: seq<string>, n: nat, maxRetries: nat)
    requires 0 < n <= |agents| && maxRetries >= 1
    ensures Vetted(w, Turns(w, agents, n, maxRetries), agents[n - 1])
  {
    TurnsUnfold(w, agents, n, maxRetries);
    OwnTurnVets(w, Turns(w, agents, n - 1, maxRetries), n - 1, agents[n - 1], maxRetries);
  }

  /** Runs are only added, and without another one the agent stays vetted. */
  ghost predicate Extends(w: World, q: Progress, p: Progress, agent: string) {
    Runs(p) <= Runs(q) && (Vetted(w, p, agent) && Runs(q) == Runs(p) ==> Vetted(w, q, agent))
  }

  lemma ExtendsTransitive(w: World, r: Progress, q: Progress, p: Progress, agent: string)
    requires Extends(w, r, q, agent) && Extends(w, q, p, agent)
    ensures Extends(w, r, p, agent)
  {
  }

  lemma NextTurn(w: World, agents: seq<string>, n: nat, maxRetries: nat, other: string)
    requires 0 < n <= |agents|
    ensures Extends(w, Turns(w, agents, n, maxRetries), Turns(w, agents, n - 1, maxRetries), other)
  {
    TurnsUnfold(w, agents, n, maxRetries);
    var p := Turns(w, agents, n - 1, maxRetries);
    if Vetted(w, p, other) && Runs(Turns(w, agents, n, maxRetries)) == Runs(p) {
      TurnKeepsVetted(w, p, n - 1, agents[n - 1], maxRetries, other);
    }
  }

  lemma {:induction false} ExtendsAlong(w: World, at: nat -> Progress, m: nat, n: nat, agent: string)
    requires m <= n && forall k: nat :: m <= k < n ==> Extends(w, at(k + 1), at(k), agent)
    ensures Extends(w, at(n), at(m), agent)
  {
    if m < n {
      ExtendsAlong(w, at, m, n - 1, agent);
      ExtendsTransitive(w, at(n), at(n - 1), at(m), agent);
    }
  }

  lemma {:induction false} LaterTurns(w: World, agents: seq<string>, m: nat, n: nat, maxRetries: nat, agent: string)
    requires m <= n <= |agents|
    ensures Extends(w, Turns(w, agents, n, maxRetries), Turns(w, agents, m, maxRetries), agent)
  {
    var at: nat -> Progress := (k: nat) => if k <= |agents| then Turns(w, agents, k, maxRetries) else Initial(w);
    forall k: nat | m <= k < n ensures Extends(w, at(k + 1), at(k), agent) {
      NextTurn(w, agents, k + 1, maxRetries, agent);
    }
    ExtendsAlong(w, at, m, n, agent);
  }

  /** The agent of a turn after which the graph was not run again has a result that
      passed its check, or no result. */
  lemma {:induction false} UnrepeatedTurnIsVetted(w: World, agents: seq<string>, i: nat, n: nat, maxRetries: nat)
    requires i < n <= |agents| && maxRetries >= 1
    requires Runs(Turns(w, agents, n, maxRetries)) == Runs(Turns(w, agents, i + 1, maxRetries))
    ensures Vetted(w, Turns(w, agents, n, maxRetries), agents[i])
  {
    OwnTurnIsVetted(w, agents, i + 1, maxRetries);
    LaterTurns(w, agents, i + 1, n, maxRetries, agents[i]);
  }

  /** The last agent always, and every agent when one attempt is allowed. */
  lemma LastAgentIsVetted(w: World, agents: seq<string>, maxRetries: nat, i: nat)
    requires i < |agents| && maxRetries >= 1 && (i == |agents| - 1 || maxRetries == 1)
    ensures Vetted(w, Turns(w, agents, |agents|, maxRetries), agents[i])
  {
    if maxRetries == 1 {
      WorkIsBounded(w, agents, |agents|, 1);
      WorkIsBounded(w, agents, i + 1, 1);
    }
    UnrepeatedTurnIsVetted(w, agents, i, |agents|, maxRetries);
  }

  /** The checks of one turn are of its own agent. */
  lemma {:induction false} AttemptsCheckOwnAgent(w: World, p: Progress, turn: nat, agent: string,
                                                 attempt: nat, maxRetries: nat)
    requires 1 <= attempt <= maxRetries && Payload(p.state, agent).Some? && p.invocations != []
    ensures var r := Attempts(w, p, turn, agent, attempt, maxRetries);
      p.checks <= r.checks && forall k :: |p.checks| <= k < |r.checks| ==> r.checks[k].agent == agent
    decreases maxRetries - attempt
  {
    AttemptsBounds(w, p, turn, agent, attempt, maxRetries);
    var p1 := Checked(w, p, turn, agent, Payload(p.state, agent).value);
    if p1.checks[|p.checks|].denial.Some? && attempt < maxRetries {
      var p2 := Reinvoked(w, p1);
      if Payload(p2.state, agent).Some? {
        AttemptsCheckOwnAgent(w, p2, turn, agent, attempt + 1, maxRetries);
      }
    }
  }

  lemma TurnChecksOwnAgent(w: World, p: Progress, turn: nat, agent: string, maxRetries: nat)
    requires p.invocations != []
    ensures var r := Turn(w, p, turn, agent, maxRetries);
      p.checks <= r.checks && forall k :: |p.checks| <= k < |r.checks| ==> r.checks[k].agent == agent
  {
    if Payload(p.state, agent).Some? && maxRetries > 0 {
      AttemptsCheckOwnAgent(w, p, turn, agent, 1, maxRetries);
    }
  }

  /** The agent's checks were all of runs before `bound`. */
  ghost predicate CheckedBefore(checks: seq<Check>, agent: string, bound: nat) {
    forall k :: 0 <= k < |checks| && checks[k].agent == agent ==> checks[k].run < bound
  }

  lemma NextTurnChecksNoOther(w: World, agents: seq<string>, n: nat, maxRetries: nat, other: string, bound: nat)
    requires 0 < n <= |agents| && agents[n - 1] != other
    requires CheckedBefore(Turns(w, agents, n - 1, maxRetries).checks, other, bound)
    ensures CheckedBefore(Turns(w, agents, n, maxRetries).checks, other, bound)
  {
    TurnsUnfold(w, agents, n, maxRetries);
    TurnChecksOwnAgent(w, Turns(w, agents, n - 1, maxRetries), n - 1, agents[n - 1], maxRetries);
  }

  lemma {:induction false} OwnChecksAreEarly(w: World, agents: seq<string>, i: nat, n: nat, maxRetries: nat)
    requires i < n <= |agents| && forall l :: i < l < n ==> agents[l] != agents[i]
    ensures CheckedBefore(Turns(w, agents, n, maxRetries).checks, agents[i], Runs(Turns(w, agents, i + 1, maxRetries)))
  {
    if n == i + 1 {
      ChecksAreOfPastRuns(w, agents, n, maxRetries);
    } else {
      OwnChecksAreEarly(w, agents, i, n - 1, maxRetries);
      NextTurnChecksNoOther(w, agents, n, maxRetries, agents[i], Runs(Turns(w, agents, i + 1, maxRetries)));
    }
  }

  /** For an agent with no later turn the guarantee is exact: a result it has at the
      end passed a check on the run it came from if and only if the graph was
      not run again after its turn. */
  lemma VettedExactly(w: World, agents: seq<string>, i: nat, maxRetries: nat)
    requires i < |agents| && maxRetries >= 1 && forall l :: i < l < |agents| ==> agents[l] != agents[i]
    ensures var p := Turns(w, agents, |agents|, maxRetries);
      !Empty(p.state, agents[i]) ==>
        (Vetted(w, p, agents[i]) <==> Runs(p) == Runs(Turns(w, agents, i + 1, maxRetries)))
  {
    LaterTurns(w, agents, i + 1, |agents|, maxRetries, agents[i]);
    OwnChecksAreEarly(w, agents, i, |agents|, maxRetries);
    if Runs(Turns(w, agents, |agents|, maxRetries)) == Runs(Turns(w, agents, i + 1, maxRetries)) {
      UnrepeatedTurnIsVetted(w, agents, i, |agents|, maxRetries);
    }
  }

  /** A world in which every agent always has a result, and only the check that
      opens the last turn denies. */
  function LateDenial(agents: seq<string>): World {
    World((n: nat, r: Restrictions) => GraphState(map a | a in agents :: JStr("x"), []),
          (n: nat, agent: string, v: Json) => if n == |agents| - 1 then Some("no") else None)
  }

  lemma {:induction false} TurnsBeforeLast(agents: seq<string>, n: nat, maxRetries: nat)
    requires n < |agents| && maxRetries >= 1
    ensures var p := Turns(LateDenial(agents), agents, n, maxRetries);
      && p.state.results == (map a | a in agents :: JStr("x")) && Runs(p) == 1 && |p.checks| == n
      && forall k :: 0 <= k < n ==> p.checks[k].run == 0
  {
    if n > 0 {
      TurnsBeforeLast(agents, n - 1, maxRetries);
    }
  }

  lemma {:induction false} LastTurnRunsAgain(agents: seq<string>, maxRetries: nat)
    requires agents != [] && maxRetries >= 2
    ensures var p := Turns(LateDenial(agents), agents, |agents|, maxRetries);
      && p.state.results == (map a | a in agents :: JStr("x")) && Runs(p) == 2 && |p.checks| == |agents| + 1
      && forall k :: 0 <= k < |p.checks| ==> p.checks[k].run == 0 || p.checks[k].agent == agents[|agents| - 1]
  {
    var n := |agents| - 1;
    TurnsBeforeLast(agents, n, maxRetries);
    LastTurnIsRetried(agents, Turns(LateDenial(agents), agents, n, maxRetries), maxRetries);
  }

  lemma {:induction false} LastTurnIsRetried(agents: seq<string>, p: Progress, maxRetries: nat)
    requires agents != [] && maxRetries >= 2
    requires p.state.results == (map a | a in agents :: JStr("x")) && Runs(p) == 1 && |p.checks| == |agents| - 1
    requires forall k :: 0 <= k < |p.checks| ==> p.checks[k].run == 0
    ensures var n := |agents| - 1;
      var r := Turn(LateDenial(agents), p, n, agents[n], maxRetries);
      && r.state.results == p.state.results && Runs(r) == 2 && |r.checks| == |agents| + 1
      && forall k :: 0 <= k < |r.checks| ==> r.checks[k].run == 0 || r.checks[k].agent == agents[n]
  {
    var n, w := |agents| - 1, LateDenial(agents);
    var p1 := Checked(w, p, n, agents[n], JStr("x"));
    var p2 := Reinvoked(w, p1);
    assert Attempts(w, p2, n, agents[n], 2, maxRetries) == Checked(w, p2, n, agents[n], JStr("x"));
    assert Attempts(w, p, n, agents[n], 1, maxRetries) == Checked(w, p2, n, agents[n], JStr("x"));
  }

  lemma LateDenialUnvets(agents: seq<string>, i: nat, maxRetries: nat)
    requires i < |agents| && agents[i] != agents[|agents| - 1] && maxRetries >= 2
    ensures !Vetted(LateDenial(agents), Turns(LateDenial(agents), agents, |agents|, maxRetries), agents[i])
  {
    LastTurnRunsAgain(agents, maxRetries);
  }

  /** Before anything is executed: in every world an agent ends with no result or with
      one that passed its check, exactly when it is the agent of the last step, or
      there is a single attempt. */
  lemma {:induction false} AlwaysVettedExactly(agents: seq<string>, i: nat, maxRetries: nat)
    requires i < |agents| && maxRetries >= 1
    ensures (forall w :: Vetted(w, Turns(w, agents, |agents|, maxRetries), agents[i]))
            <==> agents[i] == agents[|agents| - 1] || maxRetries == 1
  {
    if agents[i] == agents[|agents| - 1] || maxRetries == 1 {
      forall w ensures Vetted(w, Turns(w, agents, |agents|, maxRetries), agents[i]) {
        LastAgentIsVetted(w, agents, maxRetries, if maxRetries == 1 then i else |agents| - 1);
      }
    } else {
      LateDenialUnvets(agents, i, maxRetries);
    }
  }

  datatype Status = PartialFailure | Success

  function StatusOf(p: Progress): Status {
    if p.state.errors != [] then PartialFailure else Success
  }

  /** A world in which every run gives both agents a result, and the first three
      checks deny. */
  function Revival(): World {
    World((n: nat, r: Restrictions) => GraphState(map["a" := JStr("x"), "b" := JStr("y")], []),
          (n: nat, agent: string, v: Json) => if n < 3 then Some("no") else None)
  }

  const C0 := Check(0, "a", 0, JStr("x"), Some("no"))
  const C1 := Check(0, "a", 1, JStr("x"), Some("no"))
  const C2 := Check(1, "b", 1, JStr("y"), Some("no"))
  const C3 := Check(1, "b", 2, JStr("y"), None)

  lemma RevivalFirstTurn()
    ensures var p := Turns(Revival(), ["a", "b"], 1, 2);
      && p.checks == [C0, C1] && Runs(p) == 2 && "a" !in p.state.results && |p.state.errors| == 1
      && Payload(p.state, "b") == Some(JStr("y"))
  {
  }

  lemma RevivalSecondTurn(p: Progress)
    requires p.checks == [C0, C1] && Runs(p) == 2 && Payload(p.state, "b") == Some(JStr("y"))
    ensures var r := Turn(Revival(), p, 1, "b", 2);
      && r.checks == [C0, C1, C2, C3] && Runs(r) == 3
      && Payload(r.state, "a") == Some(JStr("x")) && r.state.errors == []
  {
  }

  /** The first agent is rejected on every attempt and its result withdrawn; one
      denial of the second agent then runs the whole graph again, which brings
      the first agent's result back unchecked and loses its error. */
  lemma {:induction false} RetryRevivesRejectedResult()
    ensures var p := Turns(Revival(), ["a", "b"], 2, 2);
      && p.checks == [C0, C1, C2, C3] && C0.denial.Some? && C1.denial.Some?
      && !Empty(p.state, "a") && !Vetted(Revival(), p, "a") && StatusOf(p) == Success
  {
    RevivalFirstTurn();
    RevivalSecondTurn(Turns(Revival(), ["a", "b"], 1, 2));
    TurnsUnfold(Revival(), ["a", "b"], 2, 2);
  }
}
