/** From an approved proposal to the status its execution ends with: the session, the
    supervisor's loop and the chain it invokes, together. */
module Execution {
  import opened Options
  import opened Json
  import Negotiation
  import Session
  import SessionRuns
  import SessionGuarantees
  import opened GraphBuilder
  import opened Supervisor

  function PlanSteps(steps: seq<Negotiation.Step>): (r: seq<PlanStep>)
    ensures |r| == |steps|
    ensures forall i :: 0 <= i < |r| ==> r[i] == PlanStep(steps[i].agent, steps[i].offer.capability)
  {
    if steps == [] then []
    else [PlanStep(steps[0].agent, steps[0].offer.capability)] + PlanSteps(steps[1..])
  }

  function AgentsOf(steps: seq<PlanStep>): (r: seq<string>)
    ensures |r| == |steps| && forall i :: 0 <= i < |r| ==> r[i] == steps[i].agent
  {
    if steps == [] then [] else [steps[0].agent] + AgentsOf(steps[1..])
  }

  const BLANK := GraphState(map[], [])

  /** How the agents behave, by invocation and the restrictions it carries, and how
      the artifact checks answer. */
  datatype Crew = Crew(executors: (nat, Restrictions) -> map<string, Executor>,
                       judge: (nat, string, Json) -> Option<string>)

  /** The world the supervisor works in: every invocation runs the whole chain, from
      a blank state. */
  function ChainWorld(steps: seq<PlanStep>, crew: Crew): World {
    World((n: nat, r: Restrictions) => After(crew.executors(n, r), steps, |steps|, BLANK), crew.judge)
  }

  function Final(steps: seq<PlanStep>, crew: Crew, maxRetries: nat): Progress {
    Turns(ChainWorld(steps, crew), AgentsOf(steps), |steps|, maxRetries)
  }

  /** The status of an execution. `raised` says the graph itself did, and `readable` that
      the scoring and the synthesis model answer with objects, if they answer. */
  function Supervised(authorised: bool, raised: bool, readable: bool, steps: seq<PlanStep>, crew: Crew, maxRetries: nat)
    : Session.ExecutionStatus
  {
    if !authorised then Session.Denied
    else if raised then Session.Failed
    else if !readable then Session.Broken
    else if StatusOf(Final(steps, crew, maxRetries)) == Success then Session.Success
    else Session.PartialFailure
  }

  /** Each status for its own reason: a refusal before anything runs, the graph itself, an
      answer that cannot be read, and then whether any error is left. */
  lemma SupervisedExactly(authorised: bool, raised: bool, readable: bool, steps: seq<PlanStep>, crew: Crew,
                          maxRetries: nat)
    ensures var status := Supervised(authorised, raised, readable, steps, crew, maxRetries);
      var clean := Final(steps, crew, maxRetries).state.errors == [];
      && (status == Session.Denied <==> !authorised)
      && (status == Session.Failed <==> authorised && raised)
      && (status == Session.Broken <==> authorised && !raised && !readable)
      && (status == Session.Success <==> authorised && !raised && readable && clean)
      && (status == Session.PartialFailure <==> authorised && !raised && readable && !clean)
  {
  }

  // ------------------------------------------------------------------
  // The final state and the last invocation
  // ------------------------------------------------------------------

  function LastRun(w: World, p: Progress): GraphState
    requires p.invocations != []
  {
    w.invoke(Runs(p) - 1, p.invocations[Runs(p) - 1].restrictions)
  }

  /** The state is what the last invocation returned, but for results withdrawn with
      an error each. */
  ghost predicate FromLastRun(w: World, p: Progress) {
    && p.invocations != []
    && LastRun(w, p).errors <= p.state.errors
    && (p.state.errors == LastRun(w, p).errors ==> p.state == LastRun(w, p))
  }

  lemma {:induction false} AttemptsFromLastRun(w: World, p: Progress, turn: nat, agent: string, attempt: nat,
                                               maxRetries: nat)
    requires 1 <= attempt <= maxRetries && Payload(p.state, agent).Some? && FromLastRun(w, p)
    ensures FromLastRun(w, Attempts(w, p, turn, agent, attempt, maxRetries))
    decreases maxRetries - attempt
  {
    var p1 := Checked(w, p, turn, agent, Payload(p.state, agent).value);
    if p1.checks[|p.checks|].denial.Some? && attempt < maxRetries {
      var p2 := Reinvoked(w, p1);
      if Payload(p2.state, agent).Some? {
        AttemptsFromLastRun(w, p2, turn, agent, attempt + 1, maxRetries);
      }
    }
  }

  lemma TurnFromLastRun(w: World, p: Progress, turn: nat, agent: string, maxRetries: nat)
    requires FromLastRun(w, p)
    ensures FromLastRun(w, Turn(w, p, turn, agent, maxRetries))
  {
    if Payload(p.state, agent).Some? && maxRetries > 0 {
      AttemptsFromLastRun(w, p, turn, agent, 1, maxRetries);
    }
  }

  lemma NextTurnFromLastRun(w: World, agents: seq<string>, n: nat, maxRetries: nat)
    requires 0 < n <= |agents| && FromLastRun(w, Turns(w, agents, n - 1, maxRetries))
    ensures FromLastRun(w, Turns(w, agents, n, maxRetries))
  {
    TurnFromLastRun(w, Turns(w, agents, n - 1, maxRetries), n - 1, agents[n - 1], maxRetries);
  }

  lemma {:induction false} TurnsFromLastRun(w: World, agents: seq<string>, n: nat, maxRetries: nat)
    requires n <= |agents|
    ensures FromLastRun(w, Turns(w, agents, n, maxRetries))
  {
    if n > 0 {
      TurnsFromLastRun(w, agents, n - 1, maxRetries);
      NextTurnFromLastRun(w, agents, n, maxRetries);
    }
  }

  // ------------------------------------------------------------------
  // What success means
  // ------------------------------------------------------------------

  ghost predicate EveryStepSucceeded(executors: map<string, Executor>, steps: seq<PlanStep>) {
    forall k :: 0 <= k < |steps| ==> Succeeded(executors, steps, k, BLANK)
  }

  lemma {:induction false} AllSucceed(executors: map<string, Executor>, steps: seq<PlanStep>, n: nat)
    requires n <= |steps|
    ensures Successes(executors, steps, n, BLANK) <= n
    ensures Successes(executors, steps, n, BLANK) == n ==>
      forall k :: 0 <= k < n ==> Succeeded(executors, steps, k, BLANK)
  {
    if n > 0 {
      AllSucceed(executors, steps, n - 1);
    }
  }

  lemma {:induction false} EveryAgentHasResult(executors: map<string, Executor>, steps: seq<PlanStep>, n: nat)
    requires n <= |steps| && EveryStepSucceeded(executors, steps)
    ensures forall k :: 0 <= k < n ==> steps[k].agent in After(executors, steps, n, BLANK).results
  {
    if n > 0 {
      EveryAgentHasResult(executors, steps, n - 1);
      assert Succeeded(executors, steps, n - 1, BLANK);
    }
  }

  /** The executors of the last invocation. */
  function LastExecutors(crew: Crew, p: Progress): map<string, Executor>
    requires p.invocations != []
  {
    crew.executors(Runs(p) - 1, p.invocations[Runs(p) - 1].restrictions)
  }

  /** An execution succeeds only if every step of the plan succeeded in the last
      invocation, no result was withdrawn since, and the last step's agent has a
      result that passed its check, or a null one. */
  lemma {:induction false} SuccessMeansEveryStep(steps: seq<PlanStep>, crew: Crew, maxRetries: nat)
    requires StatusOf(Final(steps, crew, maxRetries)) == Success
    ensures var p := Final(steps, crew, maxRetries);
      && EveryStepSucceeded(LastExecutors(crew, p), steps)
      && p.state == After(LastExecutors(crew, p), steps, |steps|, BLANK)
      && (forall k :: 0 <= k < |steps| ==> steps[k].agent in p.state.results)
      && (steps != [] && maxRetries >= 1 ==> Vetted(ChainWorld(steps, crew), p, steps[|steps| - 1].agent))
  {
    var w, agents, p := ChainWorld(steps, crew), AgentsOf(steps), Final(steps, crew, maxRetries);
    var executors := LastExecutors(crew, p);
    TurnsFromLastRun(w, agents, |steps|, maxRetries);
    assert LastRun(w, p) == After(executors, steps, |steps|, BLANK);
    ErrorsAndSuccessesMakeThePlan(executors, steps, |steps|, BLANK);
    AllSucceed(executors, steps, |steps|);
    EveryAgentHasResult(executors, steps, |steps|);
    if steps != [] && maxRetries >= 1 {
      LastAgentIsVetted(w, agents, maxRetries, |steps| - 1);
    }
  }

  /** On every run, a proposal whose approval ends in success leaves a result for the
      agent of every accepted offer. */
  lemma {:induction false} SuccessServesEveryAcceptedOffer(s: Session.State, e: Negotiation.Engine,
                                                           events: seq<Session.Event>, authorised: bool, raised: bool,
                                                           readable: bool, crew: Crew, maxRetries: nat, agent: string)
    requires SessionRuns.Opened(s) && Session.Run(s, e, events).phase == Session.AwaitingApproval
    requires var steps := PlanSteps(Session.Run(s, e, events).plan.steps);
      Supervised(authorised, raised, readable, steps, crew, maxRetries) == Session.Success
    requires agent in Session.Run(s, e, events).accepted
    ensures agent in Final(PlanSteps(Session.Run(s, e, events).plan.steps), crew, maxRetries).state.results
  {
    var t := Session.Run(s, e, events);
    var steps := PlanSteps(t.plan.steps);
    SessionGuarantees.ProposalMatchesAcceptedOffers(s, e, events);
    SuccessMeansEveryStep(steps, crew, maxRetries);
    var step := AcceptedHasStep(t.offers, agent);
    assert step in multiset(t.plan.steps);
    var k :| 0 <= k < |t.plan.steps| && t.plan.steps[k] == step;
    assert steps[k].agent == agent;
  }

  lemma {:induction false} AcceptedHasStep(offers: seq<Negotiation.NegotiationRecord>, agent: string)
    returns (step: Negotiation.Step)
    requires agent in Negotiation.AcceptedAgents(offers)
    ensures step in Negotiation.ComposeOffers(offers) && step.agent == agent
  {
    var last := offers[|offers| - 1];
    if last.status == Negotiation.Accepted && last.agent == agent {
      step := Negotiation.Step(last.agent, last.offer);
    } else {
      step := AcceptedHasStep(offers[..|offers| - 1], agent);
    }
  }
}
