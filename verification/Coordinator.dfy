/** The session handlers as the runtime has them: an object whose fields each
    handler updates. Every handler takes the session exactly where the transition
    system of `Session` says, also where it breaks off. */
module Coordinator {
  import opened Options
  import opened Json
  import opened Entropy
  import opened Negotiation
  import opened Session
  import SessionRuns
  import Scopes
  import Delegation

  class SessionHandler {
    const engine: Engine
    const claims: seq<string>
    const authority: seq<string>
    const validated: bool
    const maxRounds: int

    var phase: Phase
    var discovered: seq<string>
    var solicited: seq<string>
    var offers: seq<NegotiationRecord>
    var accepted: seq<string>
    var plan: Plan
    var capability: Option<Delegation.Capability>
    var rounds: nat
    var history: seq<Round>
    var notes: seq<Note>

    ghost function State(): State
      reads this
    {
      Session.State(phase, claims, authority, validated, maxRounds, discovered, solicited, offers, accepted, plan,
                    capability, rounds, history, notes)
    }

    /** Session creation and intent admission. */
    constructor HandleIntent(engine: Engine, claims: seq<string>, authority: seq<string>, validated: bool,
                             maxRounds: int, admitted: Option<bool>, subIntents: Option<Json>,
                             candidates: Option<seq<Candidate>>, sent: bool)
      ensures this.engine == engine
      ensures State() == Session.Open(claims, authority, validated, maxRounds, admitted, subIntents, candidates, sent)
    {
      this.engine, this.claims, this.authority := engine, claims, authority;
      this.validated, this.maxRounds := validated, maxRounds;
      phase, discovered, solicited, offers, accepted := Created, [], [], [], [];
      plan, capability, rounds, history, notes := EMPTY_PLAN, None, 0, [], [Asked];
      new;
      if admitted.None? {
        return;
      }
      if !admitted.value {
        DissolveSession(sent);
        return;
      }
      phase := IntentReceived;
      if subIntents.None? {
        return;
      }
      plan := plan.(subIntents := subIntents.value);
      Discover(candidates, sent);
    }

    /** The notices of the dissolution come first; without them nothing is dissolved. */
    method DissolveSession(sent: bool)
      modifies this`phase, this`notes
      ensures State() == Close(old(State()), sent)
    {
      if phase != Dissolved && sent {
        phase := Dissolved;
        notes := notes + [Ended];
      }
    }

    /** Discovery, and the request for offers when it finds anyone. */
    method Discover(candidates: Option<seq<Candidate>>, sent: bool)
      modifies this
      ensures State() == Solicit(old(State()), candidates, sent)
    {
      phase := Discovery;
      notes := notes + [Solicited];
      if candidates.None? {
        return;
      }
      discovered := Names(candidates.value);
      if candidates.value == [] {
        DissolveSession(sent);
        return;
      }
      phase := Negotiating;
      RequestOffers(candidates.value);
    }

    /** Only candidates with a live connection are contacted, up to a send that raises. */
    method RequestOffers(candidates: seq<Candidate>)
      modifies this`solicited
      ensures solicited == old(solicited) + Contacted(candidates)
    {
      for i := 0 to |candidates|
        invariant solicited + Contacted(candidates[i..]) == old(solicited) + Contacted(candidates)
      {
        assert candidates[i..][1..] == candidates[i + 1..];
        if !candidates[i].contact.Absent? {
          solicited := solicited + [candidates[i].agent];
          if candidates[i].contact.SendRaises? {
            return;
          }
        }
      }
    }

    method HandleOffer(heard: bool, agent: string, offer: Offer, eligible: bool, gate: nat -> Option<bool>,
                       order: OrderAnswer, sent: bool)
      modifies this
      ensures State() ==
        Session.Step(old(State()), engine, OfferMade(heard, agent, offer, eligible, gate, order, sent))
    {
      if phase == Dissolved || !heard {
        return;
      }
      offers := offers + [NegotiationRecord(agent, offer, if eligible then Pending else Rejected)];
      TryConverge(gate, order, sent);
    }

    /** The acceptance gate, deciding the pending records in place. */
    method DecidePending(gate: nat -> Option<bool>) returns (raised: bool)
      modifies this`offers, this`accepted
      ensures raised <==> GateRaises(old(offers), gate)
      ensures offers == Gated(old(offers), gate)
      ensures accepted == old(accepted) + LetIn(old(offers), gate)
    {
      ghost var was := offers;
      for i := 0 to |offers|
        invariant Stop(was, gate) == StopFrom(was, i, gate)
        invariant offers == DecidedTo(was, i, gate)
        invariant accepted == old(accepted) + LetInTo(was, i, gate)
      {
        if offers[i].status == Pending && gate(i).None? {
          return true;
        }
        Decide(i, gate(i));
        SessionRuns.DecidedStep(was, i, gate);
        SessionRuns.LetInStep(old(accepted), was, i, gate);
      }
      return false;
    }

    method Decide(i: nat, allowed: Option<bool>)
      requires i < |offers| && (offers[i].status == Pending ==> allowed.Some?)
      modifies this`offers, this`accepted
      ensures offers == old(offers)[i := Decided(old(offers[i]), allowed)]
      ensures accepted == old(accepted) + OneLetIn(old(offers[i]), allowed)
    {
      var record := offers[i];
      if record.status == Pending {
        if allowed.value {
          offers := offers[i := record.(status := Accepted)];
          accepted := accepted + [record.agent];
        } else {
          offers := offers[i := record.(status := Rejected)];
        }
      }
    }

    method TryConverge(gate: nat -> Option<bool>, order: OrderAnswer, sent: bool)
      modifies this
      ensures State() == Session.TryConverge(old(State()), engine, gate, order, sent)
    {
      var passed := PassBarrier();
      if !passed {
        return;
      }
      var initial, raised := EvaluateOffers(gate);
      if raised {
        return;
      }
      SettleNegotiation(initial, order, sent);
    }

    /** The guard, and the wait for everyone who was asked. */
    method PassBarrier() returns (passed: bool)
      ensures passed == BarrierPasses(old(State()))
    {
      if phase == AwaitingApproval || phase == Dissolved {
        return false;
      }
      var expected := if solicited != [] then set a | a in solicited else set a | a in discovered;
      return expected <= Responded(offers);
    }

    method EvaluateOffers(gate: nat -> Option<bool>) returns (initial: real, raised: bool)
      modifies this
      ensures State() == Evaluate(old(State()), engine, gate)
      ensures initial == InitialEntropy(old(State()), engine)
      ensures raised <==> GateRaises(old(offers), gate)
    {
      notes := notes + [Evaluated];
      initial := FixEntropy();
      raised := DecidePending(gate);
    }

    /** The first evaluation of a cycle fixes the initial entropy. */
    method FixEntropy() returns (initial: real)
      modifies this`plan
      ensures initial == InitialEntropy(old(State()), engine)
      ensures plan == old(plan).(initialEntropy := Some(initial))
    {
      if plan.initialEntropy.None? {
        var h := ComputeSemanticEntropy(engine.ln, Statuses(offers));
        plan := plan.(initialEntropy := Some(h));
      }
      initial := plan.initialEntropy.value;
    }

    /** The convergence test and the fallbacks. */
    method SettleNegotiation(initial: real, order: OrderAnswer, sent: bool)
      modifies this
      ensures State() == Settle(old(State()), engine, initial, order, sent)
    {
      if CheckConvergence(engine, offers, initial) {
        ProposePlan(order, sent);
        return;
      }
      var round := plan.round + 1;
      plan := plan.(round := round);
      assert State() == NextRound(old(State()));
      FallBack(NeedsFallback(engine, round, offers, initial), order, sent);
    }

    method FallBack(fallback: Option<Fallback>, order: OrderAnswer, sent: bool)
      modifies this
      ensures State() == Session.FallBack(old(State()), fallback, order, sent)
    {
      if fallback == Some(Solidification) {
        DissolveSession(sent);
      } else if fallback == Some(RecursiveSimplification) {
        ProposeFromAccepted(order, sent);
      } else if AcceptedAgents(offers) != [] {
        ProposePlan(order, sent);
      } else {
        DissolveSession(sent);
      }
    }

    method ProposeFromAccepted(order: OrderAnswer, sent: bool)
      modifies this
      ensures State() ==
        if AcceptedAgents(old(State()).offers) != [] then Propose(old(State()), order, sent)
        else Close(old(State()), sent)
    {
      if AcceptedAgents(offers) != [] {
        ProposePlan(order, sent);
      } else {
        DissolveSession(sent);
      }
    }

    method ProposePlan(order: OrderAnswer, sent: bool)
      modifies this
      ensures State() == Propose(old(State()), order, sent)
    {
      var steps := ComposeOffers(offers);
      var ordering := OrderSteps(steps, plan.subIntents, order);
      if ordering.Raised? {
        return;
      }
      plan := plan.(steps := ordering.steps, viable := steps != []);
      if !plan.viable {
        DissolveSession(sent);
        return;
      }
      if !sent {
        return;
      }
      notes := notes + [Proposed(ordering.steps)];
      phase := AwaitingApproval;
    }

    method HandleAccept(heard: bool, status: ExecutionStatus, review: Review, now: int,
                        candidates: Option<seq<Candidate>>, sent: bool)
      modifies this
      ensures State() ==
        Session.Step(old(State()), engine, AcceptSent(heard, status, review, now, candidates, sent))
    {
      if phase != AwaitingApproval || !heard {
        return;
      }
      FinalizeNegotiation(status, review, now, candidates, sent);
    }

    /** Only a viable plan is executed. */
    method FinalizeNegotiation(status: ExecutionStatus, review: Review, now: int, candidates: Option<seq<Candidate>>,
                               sent: bool)
      modifies this
      ensures State() == Session.HandleAccept(old(State()), status, review, now, candidates, sent)
    {
      if !plan.viable {
        DissolveSession(sent);
      } else {
        BuildAndExecute(status, review, now, candidates, sent);
      }
    }

    method BuildAndExecute(status: ExecutionStatus, review: Review, now: int, candidates: Option<seq<Candidate>>,
                           sent: bool)
      modifies this
      ensures State() == Finish(Execute(old(State()), status, now), status, review, candidates, sent)
    {
      Supervise(status, now);
      if status == Broken {
        return;
      }
      if validated && (status == Success || status == PartialFailure) {
        var handled := RunValidationLoop(review, candidates, sent);
        if handled {
          return;
        }
      }
      DissolveSession(sent);
    }

    /** The supervisor's entry: a denied plan gets no capability and no execution. */
    method Supervise(status: ExecutionStatus, now: int)
      modifies this`notes, this`capability, this`phase
      ensures State() == Execute(old(State()), status, now)
    {
      if status == Denied {
        notes := notes + [Declined(plan.steps)];
        return;
      }
      notes := notes + [Started(plan.steps)];
      capability := Some(Delegation.Issue(AcceptedAgents(offers), Scopes.Narrow(claims, authority), now,
                                          Delegation.DEFAULT_TTL_SECONDS));
      phase := Execution;
    }

    /** False when the completion should proceed: no validator, or it approved. An answer
        that cannot be read breaks the handler off before the round is counted. */
    method RunValidationLoop(review: Review, candidates: Option<seq<Candidate>>, sent: bool) returns (handled: bool)
      requires validated
      modifies this
      ensures handled <==> review.Refuses? || review.Unreadable?
      ensures review.NoValidator? ==> State() == old(State())
      ensures review.Approves? ==> State() == Reviewed(old(State()), true)
      ensures handled ==> State() == Finish(old(State()), Success, review, candidates, sent)
    {
      if review.NoValidator? {
        return false;
      }
      if review.Unreadable? {
        return true;
      }
      Validate(review.Approves?);
      if review.Approves? {
        return false;
      }
      if rounds >= maxRounds {
        DissolveSession(sent);
        return true;
      }
      ValidationRenegotiate(candidates, sent);
      return true;
    }

    /** One validation round, counted and recorded. */
    method Validate(approved: bool)
      modifies this`rounds, this`history
      ensures State() == Reviewed(old(State()), approved)
    {
      var round := rounds + 1;
      rounds := round;
      history := history + [Round(round, approved)];
    }

    method ValidationRenegotiate(candidates: Option<seq<Candidate>>, sent: bool)
      modifies this
      ensures State() == Solicit(ClearNegotiation(old(State()), EMPTY_PLAN), candidates, sent)
    {
      ClearForNextCycle(EMPTY_PLAN);
      Discover(candidates, sent);
    }

    method ClearForNextCycle(next: Plan)
      modifies this`offers, this`accepted, this`solicited, this`plan
      ensures State() == ClearNegotiation(old(State()), next)
    {
      offers, accepted, solicited := [], [], [];
      plan := next;
    }

    method HandleReject(heard: bool, byRequester: bool, renegotiate: bool, candidates: Option<seq<Candidate>>,
                        sent: bool)
      modifies this
      ensures State() ==
        Session.Step(old(State()), engine, RejectSent(heard, byRequester, renegotiate, candidates, sent))
    {
      if phase == Dissolved || !heard {
        return;
      }
      if byRequester && renegotiate {
        HandleRenegotiation(candidates, sent);
      } else {
        DissolveSession(sent);
      }
    }

    method HandleRenegotiation(candidates: Option<seq<Candidate>>, sent: bool)
      modifies this
      ensures State() == Renegotiate(old(State()), candidates, sent)
    {
      var round := plan.renegotiationRound + 1;
      if round > MAX_RENEGOTIATIONS {
        DissolveSession(sent);
        return;
      }
      ClearForNextCycle(EMPTY_PLAN.(renegotiationRound := round));
      Discover(candidates, sent);
    }
  }
}
