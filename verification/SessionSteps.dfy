/** What one message does to a session, message by message, as an observer would say it:
    which offers count, who is waited for, what is proposed, executed and authorised. */
module SessionSteps {
  import opened Options
  import opened Json
  import opened Negotiation
  import opened Session
  import opened SessionRuns
  import opened Provenance
  import opened SessionGuarantees
  import Scopes
  import Delegation

  /** What was asked for, and within what limits. */
  ghost predicate SameRequest(s: State, t: State) {
    t.claims == s.claims && t.authority == s.authority && t.validated == s.validated && t.maxRounds == s.maxRounds
  }

  // ------------------------------------------------------------------
  // Discovery and solicitation
  // ------------------------------------------------------------------

  /** The `i`-th candidate is asked: it is connected, and no earlier send raised. */
  predicate IsAsked(candidates: seq<Candidate>, i: nat)
    requires i < |candidates|
  {
    !candidates[i].contact.Absent? && forall j :: 0 <= j < i ==> !candidates[j].contact.SendRaises?
  }

  lemma {:induction false} ContactedExact(candidates: seq<Candidate>, agent: string)
    ensures agent in Contacted(candidates) <==>
      exists i :: 0 <= i < |candidates| && candidates[i].agent == agent && IsAsked(candidates, i)
    ensures agent in Names(candidates) <==> exists i :: 0 <= i < |candidates| && candidates[i].agent == agent
  {
    if candidates != [] {
      var rest := candidates[1..];
      ContactedExact(rest, agent);
      forall i | 0 <= i < |rest| ensures candidates[i + 1] == rest[i] {}
      if i :| 0 <= i < |rest| && rest[i].agent == agent && IsAsked(rest, i) {
        assert !candidates[0].contact.SendRaises? ==> IsAsked(candidates, i + 1);
      }
      if i :| 0 <= i < |candidates| && candidates[i].agent == agent && IsAsked(candidates, i) {
        if i > 0 { assert IsAsked(rest, i - 1) && rest[i - 1].agent == agent; }
      }
    }
  }

  /** Those asked are some of those found, in the same order. */
  lemma {:induction false} ContactedInOrder(candidates: seq<Candidate>)
    ensures Scopes.SelectionOf(Contacted(candidates), Names(candidates)) && |Names(candidates)| == |candidates|
  {
    if candidates != [] {
      ContactedInOrder(candidates[1..]);
      var asked, names := Contacted(candidates[1..]), Names(candidates[1..]);
      assert Names(candidates) == [candidates[0].agent] + names && Names(candidates)[1..] == names;
      Scopes.SelectionSkip(asked, names, candidates[0].agent);
    }
  }

  /** A solicitation that raises in discovery stays in DISCOVERY; one that finds nobody ends
      the session; and otherwise everyone found is remembered, those asked are waited
      for, and nothing else of the session changes. */
  lemma SolicitExactly(s: State, candidates: Option<seq<Candidate>>, sent: bool)
    requires s.phase != Dissolved
    ensures var t := Solicit(s, candidates, sent);
      && s.notes + [Solicited] <= t.notes
      && t.(phase := s.phase, notes := s.notes, discovered := s.discovered, solicited := s.solicited) == s
      && (candidates.None? ==> t.phase == Discovery && t.discovered == s.discovered && t.solicited == s.solicited)
      && (candidates.Some? ==> t.discovered == Names(candidates.value))
      && (candidates == Some([]) ==> t.phase == if sent then Dissolved else Discovery)
      && (candidates.Some? && candidates.value != [] ==>
            t.phase == Negotiating && t.solicited == s.solicited + Contacted(candidates.value))
  {
  }

  /** How a session begins: asked to admit the intent, then to decompose it; whatever raises
      leaves it where it got to, and a refusal ends it. */
  lemma OpenStopsExactly(claims: seq<string>, authority: seq<string>, validated: bool, maxRounds: int,
                         admitted: Option<bool>, subIntents: Option<Json>, candidates: Option<seq<Candidate>>,
                         sent: bool)
    requires admitted != Some(true) || subIntents.None?
    ensures var s := Session.Open(claims, authority, validated, maxRounds, admitted, subIntents, candidates, sent);
      && (admitted.None? ==> s.phase == Created && s.notes == [Asked])
      && (admitted == Some(false) && sent ==> s.phase == Dissolved && s.notes == [Asked, Ended])
      && (admitted == Some(false) && !sent ==> s.phase == Created && s.notes == [Asked])
      && (admitted == Some(true) ==> s.phase == IntentReceived && s.notes == [Asked])
  {
  }

  /** Admitted and decomposed, it is solicited for the first time, with nothing decided,
      authorised or reviewed yet. */
  lemma OpenSolicitsExactly(claims: seq<string>, authority: seq<string>, validated: bool, maxRounds: int,
                            subIntents: Json, candidates: Option<seq<Candidate>>, sent: bool) returns (s: State)
    ensures Session.Open(claims, authority, validated, maxRounds, Some(true), Some(subIntents), candidates, sent) ==
      Solicit(s, candidates, sent)
    ensures s.claims == claims && s.authority == authority && s.validated == validated && s.maxRounds == maxRounds
    ensures s.notes == [Asked] && s.plan == EMPTY_PLAN.(subIntents := subIntents) && s.phase != Dissolved
    ensures s.offers == [] && s.accepted == [] && s.solicited == [] && s.capability.None? && s.rounds == 0
    ensures s.history == []
  {
    s := Admitted(NewSession(claims, authority, validated, maxRounds), subIntents);
  }

  // ------------------------------------------------------------------
  // Offers
  // ------------------------------------------------------------------

  /** Everyone who was asked has offered; without anyone asked, everyone found. */
  ghost predicate AllHaveOffered(agents: seq<string>, offers: seq<NegotiationRecord>) {
    forall a :: a in agents ==> exists k :: 0 <= k < |offers| && offers[k].agent == a
  }

  function WaitedFor(s: State): seq<string> {
    if s.solicited != [] then s.solicited else s.discovered
  }

  lemma BarrierExactly(s: State)
    ensures BarrierPasses(s) <==>
      s.phase != AwaitingApproval && s.phase != Dissolved && AllHaveOffered(WaitedFor(s), s.offers)
  {
    assert forall a :: a in Expected(s) <==> a in WaitedFor(s);
    forall a | a in Responded(s.offers) ensures exists k :: 0 <= k < |s.offers| && s.offers[k].agent == a {}
    forall k | 0 <= k < |s.offers| ensures s.offers[k].agent in Responded(s.offers) {}
  }

  /** An offer that is heard is recorded, pending when it is eligible and rejected when it is
      not. It is evaluated, once, exactly when no proposal is out and with it everyone
      has offered. */
  lemma {:induction false} OfferExactly(s: State, e: Engine, event: Event)
    requires s.phase != Dissolved && IsOffer(event)
    ensures var t := Session.Step(s, e, event);
      var all := s.offers + [NegotiationRecord(event.agent, event.offer, if event.eligible then Pending else Rejected)];
      var evaluates := s.phase != AwaitingApproval && AllHaveOffered(WaitedFor(s), all);
      && |t.offers| == |s.offers| + 1
      && (!evaluates ==> t == s.(offers := all))
      && (evaluates ==> s.notes + [Evaluated] <= t.notes
                        && t.offers == Gated(all, event.gate)
                        && (GateRaises(all, event.gate) ==> t.notes == s.notes + [Evaluated] && t.phase == s.phase))
  {
    var r := ReceiveOffer(s, event.agent, event.offer, event.eligible);
    BarrierExactly(r);
    ConvergeEffect(r, e, event.gate, event.order, event.sent);
    if BarrierPasses(r) { EvaluationIsLogged(r, e, event.gate, event.order, event.sent); }
  }

  lemma EvaluationIsLogged(s: State, e: Engine, gate: nat -> Option<bool>, order: OrderAnswer, sent: bool)
    requires BarrierPasses(s)
    ensures var t := TryConverge(s, e, gate, order, sent);
      && s.notes + [Evaluated] <= t.notes
      && (GateRaises(s.offers, gate) ==> t.notes == s.notes + [Evaluated] && t.phase == s.phase)
  {
    var more := OfferShape(s, e, gate, order, sent);
  }

  /** What is settled, after these notes, in this phase and with this many rounds counted.
      Without agreement a round is counted; past the last one the session gives up; otherwise
      the steps are proposed in the order the model gives them, and with none the session
      ends. What cannot be ordered or sent changes nothing more. */
  ghost predicate ComesTo(notes: seq<Note>, phase: Phase, round: nat, t: State, agreed: bool,
                          steps: seq<Negotiation.Step>, ordering: Ordering, maxRounds: int, sent: bool)
  {
    var counted := if agreed then round else round + 1;
    var givesUp := !agreed && counted > maxRounds;
    && t.plan.round == counted
    && (t.phase == Dissolved <==> sent && (givesUp || steps == []))
    && (t.phase == AwaitingApproval <==> sent && !givesUp && steps != [] && ordering.Ordered?)
    && (t.phase == AwaitingApproval ==>
          t.plan.viable && t.plan.steps == ordering.steps && t.notes == notes + [Proposed(ordering.steps)])
    && (t.phase == Dissolved ==> t.notes == notes + [Ended])
    && (t.phase != Dissolved && t.phase != AwaitingApproval ==> t.phase == phase && t.notes == notes)
  }

  /** What an evaluation comes to, the entropy test and both fallbacks included. */
  lemma {:induction false} EvaluationExactly(s: State, e: Engine, gate: nat -> Option<bool>, order: OrderAnswer,
                                             sent: bool)
    requires BarrierPasses(s) && !GateRaises(s.offers, gate)
    ensures var offers := Gated(s.offers, gate);
      var steps := ComposeOffers(offers);
      ComesTo(s.notes + [Evaluated], s.phase, s.plan.round, TryConverge(s, e, gate, order, sent),
              CheckConvergence(e, offers, InitialEntropy(s, e)), steps,
              OrderSteps(steps, s.plan.subIntents, order), e.maxRounds, sent)
  {
    SettleExactly(Evaluate(s, e, gate), e, InitialEntropy(s, e), order, sent);
  }

  lemma {:induction false} SettleExactly(s: State, e: Engine, initial: real, order: OrderAnswer, sent: bool)
    requires s.phase != AwaitingApproval && s.phase != Dissolved
    ensures var steps := ComposeOffers(s.offers);
      ComesTo(s.notes, s.phase, s.plan.round, Settle(s, e, initial, order, sent),
              CheckConvergence(e, s.offers, initial), steps, OrderSteps(steps, s.plan.subIntents, order),
              e.maxRounds, sent)
  {
    AcceptedIffComposed(s.offers);
    SettleCases(s, e, initial, order, sent);
    ProposeExactly(s, order, sent, e.maxRounds);
    ProposeExactly(NextRound(s), order, sent, e.maxRounds);
  }

  lemma ProposeExactly(s: State, order: OrderAnswer, sent: bool, maxRounds: int)
    requires s.phase != AwaitingApproval && s.phase != Dissolved
    ensures var steps := ComposeOffers(s.offers);
      ComesTo(s.notes, s.phase, s.plan.round, Propose(s, order, sent), true, steps,
              OrderSteps(steps, s.plan.subIntents, order), maxRounds, sent)
  {
  }

  /** `at` lists the accepted offers, and the steps and agents composed are theirs. */
  ghost predicate ListsAccepted(offers: seq<NegotiationRecord>, at: seq<nat>, steps: seq<Negotiation.Step>,
                                agents: seq<string>)
  {
    && Increasing(at) && |steps| == |at| == |agents|
    && (forall k: nat :: k < |offers| && offers[k].status == Accepted ==> k in at)
    && (forall j :: 0 <= j < |at| ==> at[j] < |offers| && IsStepOf(offers[at[j]], steps[j], agents[j]))
  }

  predicate IsStepOf(record: NegotiationRecord, step: Negotiation.Step, agent: string) {
    record.status == Accepted && step.agent == record.agent && step.offer == record.offer && agent == record.agent
  }

  /** One more record, accepted or not. */
  lemma ListsOneMore(offers: seq<NegotiationRecord>, at: seq<nat>, steps: seq<Negotiation.Step>, agents: seq<string>,
                     record: NegotiationRecord)
    requires ListsAccepted(offers, at, steps, agents)
    ensures record.status != Accepted ==> ListsAccepted(offers + [record], at, steps, agents)
    ensures record.status == Accepted ==>
      ListsAccepted(offers + [record], at + [|offers|], steps + [Negotiation.Step(record.agent, record.offer)],
                    agents + [record.agent])
  {
    var more := offers + [record];
    assert forall k :: 0 <= k < |offers| ==> more[k] == offers[k];
    assert (at + [|offers|])[|at|] == |offers|;
    forall k: nat | k < |more| && more[k].status == Accepted ensures k in at || k == |offers| {
      if k < |offers| { assert offers[k].status == Accepted; }
    }
    forall j | 0 <= j < |at| ensures IsStepOf(more[at[j]], steps[j], agents[j]) {
      assert IsStepOf(offers[at[j]], steps[j], agents[j]);
    }
  }

  /** The steps composed are one for each accepted offer, in the order the offers arrived,
      each with that offer's agent and content; so are the agents. */
  lemma {:induction false} ComposedExactly(offers: seq<NegotiationRecord>) returns (at: seq<nat>)
    ensures ListsAccepted(offers, at, ComposeOffers(offers), AcceptedAgents(offers))
  {
    at := [];
    if offers != [] {
      var init, last := offers[..|offers| - 1], offers[|offers| - 1];
      at := ComposedExactly(init);
      ListsOneMore(init, at, ComposeOffers(init), AcceptedAgents(init), last);
      assert init + [last] == offers;
      if last.status == Accepted { at := at + [|init|]; }
    }
  }

  /** The initial entropy is that of the offers before the gate at the first evaluation, and
      stays what it is afterwards. */
  lemma {:induction false} InitialEntropyIsKept(s: State, e: Engine, gate: nat -> Option<bool>, order: OrderAnswer,
                                                sent: bool)
    ensures var before, after := s.plan.initialEntropy, TryConverge(s, e, gate, order, sent).plan.initialEntropy;
      var measured := Some(Entropy.SemanticEntropy(e.ln, Statuses(s.offers)));
      after == if BarrierPasses(s) && before.None? then measured else before
  {
    if BarrierPasses(s) {
      SettleKeepsFrame(Evaluate(s, e, gate), e, InitialEntropy(s, e), order, sent);
    }
  }

  /** What settling leaves alone. */
  ghost predicate SameEvaluation(s: State, t: State) {
    t.plan.initialEntropy == s.plan.initialEntropy && t.capability == s.capability && SameRequest(s, t)
  }

  lemma ProposeKeepsFrame(s: State, order: OrderAnswer, sent: bool)
    ensures SameEvaluation(s, Propose(s, order, sent)) && SameEvaluation(s, Close(s, sent))
  {
  }

  lemma SettleKeepsFrame(s: State, e: Engine, initial: real, order: OrderAnswer, sent: bool)
    ensures SameEvaluation(s, Settle(s, e, initial, order, sent))
  {
    SettleCases(s, e, initial, order, sent);
    ProposeKeepsFrame(s, order, sent);
    ProposeKeepsFrame(NextRound(s), order, sent);
  }

  lemma ConvergeKeepsRequest(s: State, e: Engine, gate: nat -> Option<bool>, order: OrderAnswer, sent: bool)
    ensures var t := TryConverge(s, e, gate, order, sent); SameRequest(s, t) && t.capability == s.capability
  {
    SettleKeepsFrame(Evaluate(s, e, gate), e, InitialEntropy(s, e), order, sent);
  }

  // ------------------------------------------------------------------
  // Accepting
  // ------------------------------------------------------------------

  /** The validator is asked about an execution that ended well, or partly. */
  predicate IsReviewed(s: State, event: Event)
    requires event.AcceptSent?
  {
    s.validated && (event.status == Success || event.status == PartialFailure) && event.review != NoValidator
  }

  /** What comes of an execution. An exception leaves the session as it is; a refusal by the
      validator with rounds left starts another cycle from an empty plan; everything else
      ends the session, if that can be sent. Each answer that could be read counts one
      round. */
  ghost predicate ExecutionEnds(s: State, t: State, event: Event)
    requires event.AcceptSent?
  {
    var reviewed := IsReviewed(s, event);
    var breaks := event.status == Broken || (reviewed && event.review == Unreadable);
    var again := !breaks && reviewed && event.review == Refuses && s.rounds + 1 < s.maxRounds;
    && (breaks ==> t == s)
    && (again ==> t.offers == [] && t.accepted == [] && t.plan == EMPTY_PLAN && s.notes <= t.notes
                  && Cycles(t.notes) == Cycles(s.notes) + 1)
    && (!breaks && !again && event.sent ==>
          t == s.(phase := Dissolved, notes := s.notes + [Ended], rounds := t.rounds, history := t.history))
    && (!breaks && !again && !event.sent ==> t == s.(rounds := t.rounds, history := t.history))
    && (reviewed && !breaks ==>
          t.rounds == s.rounds + 1 && t.history == s.history + [Round(s.rounds + 1, event.review == Approves)])
    && (!reviewed || breaks ==> t.rounds == s.rounds && t.history == s.history)
  }

  lemma ExecutionExactly(s: State, event: Event)
    requires s.phase != Dissolved && event.AcceptSent?
    ensures ExecutionEnds(s, Finish(s, event.status, event.review, event.candidates, event.sent), event)
  {
    var s1 := Reviewed(s, event.review.Approves?);
    FinishCases(s, event.status, event.review, event.candidates, event.sent);
    CloseExactly(s, event.sent);
    CloseExactly(s1, event.sent);
    AgainExactly(s1, event.candidates, event.sent);
  }

  /** The supervisor starts, or is refused. */
  ghost predicate Starts(s: State, t: State, refused: bool) {
    && t.notes == s.notes + [if refused then Declined(s.plan.steps) else Started(s.plan.steps)]
    && t.phase == (if refused then AwaitingApproval else Execution)
    && t.(notes := s.notes, phase := s.phase, capability := s.capability) == s
  }

  /** An accept of a viable proposal starts the supervisor, which moves the session to
      EXECUTION and authorises it, unless the supervisor refuses. */
  lemma {:induction false} AcceptExactly(s: State, e: Engine, event: Event) returns (started: State)
    requires s.phase == AwaitingApproval && s.plan.viable && event.AcceptSent? && event.heard
    ensures Starts(s, started, event.status == Denied)
    ensures ExecutionEnds(started, Session.Step(s, e, event), event)
  {
    started := Execute(s, event.status, event.now);
    ExecutionExactly(started, event);
    assert Session.Step(s, e, event) == Finish(started, event.status, event.review, event.candidates, event.sent);
  }

  /** The four ends of an execution. */
  lemma FinishCases(s: State, status: ExecutionStatus, review: Review, candidates: Option<seq<Candidate>>, sent: bool)
    ensures var t, s1 := Finish(s, status, review, candidates, sent), Reviewed(s, review.Approves?);
      var reviewed := s.validated && (status == Success || status == PartialFailure) && review != NoValidator;
      if status == Broken || (reviewed && review == Unreadable) then t == s
      else if !reviewed then t == Close(s, sent)
      else if review == Refuses && s.rounds + 1 < s.maxRounds
      then t == Solicit(ClearNegotiation(s1, EMPTY_PLAN), candidates, sent)
      else t == Close(s1, sent)
  {
  }

  lemma CloseExactly(s: State, sent: bool)
    requires s.phase != Dissolved
    ensures Close(s, sent) == if sent then s.(phase := Dissolved, notes := s.notes + [Ended]) else s
    ensures Cycles(Close(s, sent).notes) == Cycles(s.notes)
  {
    CyclesAppend(s.notes, Ended);
  }

  lemma AgainExactly(s: State, candidates: Option<seq<Candidate>>, sent: bool)
    ensures var t := Solicit(ClearNegotiation(s, EMPTY_PLAN), candidates, sent);
      && s.notes <= t.notes && Cycles(t.notes) == Cycles(s.notes) + 1
      && t.offers == [] && t.accepted == [] && t.plan == EMPTY_PLAN
      && t.rounds == s.rounds && t.history == s.history
  {
    SolicitClears(ClearNegotiation(s, EMPTY_PLAN), candidates, sent);
  }

  /** A plan that is not viable is not executed: accepting it ends the session. */
  lemma NotViableExactly(s: State, e: Engine, event: Event)
    requires s.phase == AwaitingApproval && !s.plan.viable && event.AcceptSent? && event.heard
    ensures Session.Step(s, e, event) ==
      if event.sent then s.(phase := Dissolved, notes := s.notes + [Ended]) else s
  {
  }

  predicate ViableExactly(plan: Plan) {
    plan.viable <==> plan.steps != []
  }

  lemma ProposeIsViable(s: State, order: OrderAnswer, sent: bool)
    requires ViableExactly(s.plan)
    ensures ViableExactly(Propose(s, order, sent).plan)
  {
    var steps := ComposeOffers(s.offers);
    if OrderSteps(steps, s.plan.subIntents, order).Ordered? {
      OrderStepsPermutes(steps, s.plan.subIntents, order);
      if steps != [] { SameSize(OrderSteps(steps, s.plan.subIntents, order).steps, steps); }
    }
  }

  lemma ConvergeIsViable(s: State, e: Engine, gate: nat -> Option<bool>, order: OrderAnswer, sent: bool)
    requires ViableExactly(s.plan)
    ensures ViableExactly(TryConverge(s, e, gate, order, sent).plan)
  {
    var s1 := Evaluate(s, e, gate);
    SettleCases(s1, e, InitialEntropy(s, e), order, sent);
    ProposeIsViable(s1, order, sent);
    ProposeIsViable(NextRound(s1), order, sent);
  }

  lemma StepIsViable(s: State, e: Engine, event: Event)
    requires ViableExactly(s.plan)
    ensures ViableExactly(Session.Step(s, e, event).plan)
  {
    match event
    case OfferMade(_, agent, offer, eligible, gate, order, sent) =>
      ConvergeIsViable(ReceiveOffer(s, agent, offer, eligible), e, gate, order, sent);
    case AcceptSent(_, status, review, now, candidates, sent) =>
      FinishIsViable(Execute(s, status, now), status, review, candidates, sent);
    case RejectSent(_, _, _, candidates, sent) => RenegotiateIsViable(s, candidates, sent);
  }

  lemma RenegotiateIsViable(s: State, candidates: Option<seq<Candidate>>, sent: bool)
    requires ViableExactly(s.plan)
    ensures ViableExactly(Renegotiate(s, candidates, sent).plan)
  {
  }

  lemma FinishIsViable(s: State, status: ExecutionStatus, review: Review, candidates: Option<seq<Candidate>>,
                       sent: bool)
    requires ViableExactly(s.plan)
    ensures ViableExactly(Finish(s, status, review, candidates, sent).plan)
  {
  }

  /** On every run a stored plan is viable exactly when it has steps. */
  lemma {:induction false} PlanIsViableExactly(s: State, e: Engine, events: seq<Event>)
    requires Opened(s)
    ensures ViableExactly(Run(s, e, events).plan)
  {
    if events != [] {
      PlanIsViableExactly(s, e, events[..|events| - 1]);
      StepIsViable(Run(s, e, events[..|events| - 1]), e, events[|events| - 1]);
    }
  }

  /** What an accepted proposal authorises: the agents of the accepted offers, those of the
      requester's claims that its authority covers, for an hour. */
  lemma {:induction false} CapabilityExactly(s: State, e: Engine, event: Event)
    requires Inv(s, false) && s.phase == AwaitingApproval && event.AcceptSent? && event.heard && event.status != Denied
    ensures var t := Session.Step(s, e, event);
      && t.capability.Some?
      && var c := t.capability.value;
         && c.principals == s.accepted
         && c.expiry == Delegation.At(event.now + 3600)
         && Scopes.SelectionOf(c.scopes, s.claims)
         && forall x :: x in c.scopes <==>
              x in s.claims && (s.authority == [] || Scopes.CoveredByAny(s.authority, x))
  {
    var s1 := Execute(s, event.status, event.now);
    FinishKeepsCapability(s1, event.status, event.review, event.candidates, event.sent);
    Scopes.SelectedIsSelection(s.claims, s.authority);
    Delegation.SelectionReflexive(s.claims);
  }

  lemma FinishKeepsCapability(s: State, status: ExecutionStatus, review: Review, candidates: Option<seq<Candidate>>,
                              sent: bool)
    ensures Finish(s, status, review, candidates, sent).capability == s.capability
  {
  }

  /** Nothing else issues one. */
  lemma {:induction false} OnlyStartsAuthorise(s: State, e: Engine, event: Event)
    requires !(event.AcceptSent? && event.heard && s.phase == AwaitingApproval && s.plan.viable
               && event.status != Denied)
    ensures Session.Step(s, e, event).capability == s.capability
  {
    if s.phase != Dissolved && event.heard {
      if event.OfferMade? {
        ConvergeKeepsRequest(ReceiveOffer(s, event.agent, event.offer, event.eligible), e, event.gate, event.order,
                             event.sent);
      } else if event.AcceptSent? && s.phase == AwaitingApproval {
        var s1 := Execute(s, event.status, event.now);
        FinishKeepsCapability(s1, event.status, event.review, event.candidates, event.sent);
      }
    }
  }

  // ------------------------------------------------------------------
  // Rejecting, and what nothing changes
  // ------------------------------------------------------------------

  /** A reject by the requester that asks to renegotiate starts another cycle the first three
      times; any other reject ends the session. */
  lemma {:induction false} RejectExactly(s: State, e: Engine, event: Event)
    requires s.phase != Dissolved && event.RejectSent? && event.heard
    ensures var t := Session.Step(s, e, event);
      var again := event.byRequester && event.renegotiate && s.plan.renegotiationRound < 3;
      && t.rounds == s.rounds && t.history == s.history && t.capability == s.capability
      && (again ==> t.offers == [] && t.accepted == []
                    && t.plan == EMPTY_PLAN.(renegotiationRound := s.plan.renegotiationRound + 1)
                    && Cycles(t.notes) == Cycles(s.notes) + 1)
      && (!again ==> t == if event.sent then s.(phase := Dissolved, notes := s.notes + [Ended]) else s)
  {
    SolicitClears(Renewed(s), event.candidates, event.sent);
  }

  /** A message that is not heard, or comes after the end, and an accept while nothing
      awaits approval, change nothing. */
  lemma IgnoredExactly(s: State, e: Engine, event: Event)
    requires !event.heard || s.phase == Dissolved || (event.AcceptSent? && s.phase != AwaitingApproval)
    ensures Session.Step(s, e, event) == s
  {
  }

  lemma FinishKeepsRequest(s: State, status: ExecutionStatus, review: Review, candidates: Option<seq<Candidate>>,
                           sent: bool)
    ensures SameRequest(s, Finish(s, status, review, candidates, sent))
  {
  }

  lemma RejectKeepsRequest(s: State, candidates: Option<seq<Candidate>>, sent: bool)
    ensures SameRequest(s, Renegotiate(s, candidates, sent)) && SameRequest(s, Close(s, sent))
  {
  }

  lemma StepKeepsRequest(s: State, e: Engine, event: Event)
    ensures SameRequest(s, Session.Step(s, e, event))
  {
    match event
    case OfferMade(_, agent, offer, eligible, gate, order, sent) =>
      ConvergeKeepsRequest(ReceiveOffer(s, agent, offer, eligible), e, gate, order, sent);
    case AcceptSent(_, status, review, now, candidates, sent) =>
      FinishKeepsRequest(Execute(s, status, now), status, review, candidates, sent);
    case RejectSent(_, _, _, candidates, sent) => RejectKeepsRequest(s, candidates, sent);
  }

  /** What was claimed, the authority behind it and the limits are the same on every run. */
  lemma {:induction false} RequestIsFixed(s: State, e: Engine, events: seq<Event>)
    ensures SameRequest(s, Run(s, e, events))
  {
    if events != [] {
      RequestIsFixed(s, e, events[..|events| - 1]);
      StepKeepsRequest(Run(s, e, events[..|events| - 1]), e, events[|events| - 1]);
    }
  }
}
