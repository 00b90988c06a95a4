/** What the protocol promises of a whole session, for every sequence of messages
    and every answer of a model, an access decision or an agent. */
module SessionGuarantees {
  import opened Options
  import opened Json
  import opened Negotiation
  import opened Session
  import opened SessionRuns
  import Delegation

  // ------------------------------------------------------------------
  // Execution happens on approval of the latest proposal, once
  // ------------------------------------------------------------------

  /** The log of every run is a path of the protocol; when no handler breaks off it
      is a path of the strict protocol. */
  lemma {:induction false} LogIsWellOrdered(s: State, e: Engine, events: seq<Event>)
    requires Opened(s)
    ensures WellOrdered(Run(s, e, events).notes, false)
    ensures Unbroken(s, e, events) ==> WellOrdered(Run(s, e, events).notes, true)
  {
    RunKeeps(s, e, events, false);
    if Unbroken(s, e, events) {
      RunKeeps(s, e, events, true);
    }
  }

  /** The note at `j` proposes these steps, and all that happened from then to `i` is
      that the supervisor was not authorised. */
  ghost predicate ProposedBefore(notes: seq<Note>, steps: seq<Negotiation.Step>, j: nat, i: nat) {
    j < i <= |notes| && notes[j] == Proposed(steps) && forall k :: j < k < i ==> notes[k] == Declined(steps)
  }

  lemma {:induction false} ProposalBehind(notes: seq<Note>, i: nat) returns (j: nat)
    requires WellOrdered(notes, false) && i < |notes| && (notes[i].Started? || notes[i].Declined?)
    ensures ProposedBefore(notes, notes[i].steps, j, i)
  {
    assert Follows(notes[i - 1], notes[i - 1 + 1], false);
    j := i - 1;
    if notes[i - 1].Declined? {
      j := ProposalBehind(notes, i - 1);
    }
  }

  /** On every run the supervisor's starts pair up with the proposals: between a start
      and the proposal of the very steps it runs there are only refused starts of
      it, so no proposal is executed twice and none but the latest is. */
  lemma {:induction false} EveryStartFollowsItsProposal(s: State, e: Engine, events: seq<Event>, i: nat)
      returns (j: nat)
    requires Opened(s) && i < |Run(s, e, events).notes| && Run(s, e, events).notes[i].Started?
    ensures ProposedBefore(Run(s, e, events).notes, Run(s, e, events).notes[i].steps, j, i)
  {
    LogIsWellOrdered(s, e, events);
    j := ProposalBehind(Run(s, e, events).notes, i);
  }

  /** What handling an offer leaves alone. */
  ghost predicate SameFrame(s: State, t: State) {
    && t.rounds == s.rounds && t.maxRounds == s.maxRounds && t.validated == s.validated
    && t.plan.renegotiationRound == s.plan.renegotiationRound && t.plan.subIntents == s.plan.subIntents
  }

  /** Notes an offer can add after an evaluation. */
  ghost predicate ProposesOrEnds(more: seq<Note>) {
    |more| <= 1 && (more != [] ==> more[0].Proposed? || more[0] == Ended)
  }

  lemma ProposeShape(s: State, order: OrderAnswer, sent: bool) returns (more: seq<Note>)
    ensures Propose(s, order, sent).notes == s.notes + more && ProposesOrEnds(more)
    ensures SameFrame(s, Propose(s, order, sent))
  {
    var steps := ComposeOffers(s.offers);
    var ordering := OrderSteps(steps, s.plan.subIntents, order);
    if ordering.Raised? || !sent || (steps == [] && s.phase == Dissolved) {
      more := [];
    } else if steps == [] {
      more := [Ended];
    } else {
      more := [Proposed(ordering.steps)];
    }
  }

  lemma CloseShape(s: State, sent: bool) returns (more: seq<Note>)
    ensures Close(s, sent).notes == s.notes + more && ProposesOrEnds(more) && SameFrame(s, Close(s, sent))
  {
    more := if s.phase == Dissolved || !sent then [] else [Ended];
  }

  lemma SettleShape(s: State, e: Engine, initial: real, order: OrderAnswer, sent: bool) returns (more: seq<Note>)
    ensures Settle(s, e, initial, order, sent).notes == s.notes + more && ProposesOrEnds(more)
    ensures SameFrame(s, Settle(s, e, initial, order, sent))
  {
    var s1 := NextRound(s);
    SettleCases(s, e, initial, order, sent);
    if !ComesToPropose(s, e, initial) {
      more := CloseShape(s1, sent);
    } else if Settle(s, e, initial, order, sent) == Propose(s, order, sent) {
      more := ProposeShape(s, order, sent);
    } else {
      more := ProposeShape(s1, order, sent);
    }
  }

  /** An offer adds to the log nothing, or one evaluation and what it leads to. */
  lemma OfferShape(s: State, e: Engine, gate: nat -> Option<bool>, order: OrderAnswer, sent: bool)
      returns (more: seq<Note>)
    ensures SameFrame(s, TryConverge(s, e, gate, order, sent)) && ProposesOrEnds(more)
    ensures TryConverge(s, e, gate, order, sent).notes ==
      if BarrierPasses(s) then s.notes + [Evaluated] + more else s.notes
  {
    more := [];
    if BarrierPasses(s) && !GateRaises(s.offers, gate) {
      more := SettleShape(Evaluate(s, e, gate), e, InitialEntropy(s, e), order, sent);
    }
  }

  /** Handling `event` logs a start of the supervisor. */
  ghost predicate LogsStart(s: State, e: Engine, event: Event) {
    StartsAfter(Session.Step(s, e, event).notes, |s.notes|)
  }

  ghost predicate StartsAfter(notes: seq<Note>, from: nat) {
    exists i :: from <= i < |notes| && notes[i].Started?
  }

  lemma NoStartAppended(notes: seq<Note>, more: seq<Note>)
    requires ProposesOrEnds(more)
    ensures !StartsAfter(notes + [Evaluated] + more, |notes|) && !StartsAfter(notes, |notes|)
  {
  }

  lemma ConvergingLogsNoStart(s: State, e: Engine, gate: nat -> Option<bool>, order: OrderAnswer, sent: bool)
    ensures !StartsAfter(TryConverge(s, e, gate, order, sent).notes, |s.notes|)
  {
    var more := OfferShape(s, e, gate, order, sent);
    NoStartAppended(s.notes, more);
  }

  lemma OfferLogsNoStart(s: State, e: Engine, event: Event)
    requires s.phase != Dissolved && event.heard && event.OfferMade?
    ensures !LogsStart(s, e, event)
  {
    ConvergingLogsNoStart(ReceiveOffer(s, event.agent, event.offer, event.eligible), e, event.gate, event.order,
                          event.sent);
  }

  lemma RejectLogsNoStart(s: State, e: Engine, event: Event)
    requires s.phase != Dissolved && event.heard && event.RejectSent?
    ensures !LogsStart(s, e, event)
  {
  }

  lemma FinishExtends(s: State, status: ExecutionStatus, review: Review, candidates: Option<seq<Candidate>>, sent: bool)
    ensures s.notes <= Finish(s, status, review, candidates, sent).notes
    ensures !StartsAfter(Finish(s, status, review, candidates, sent).notes, |s.notes|)
  {
  }

  /** One step starts the supervisor only as the handling of an accept heard while a
      viable proposal awaits approval, and it starts that proposal's steps, once. */
  lemma {:induction false} StartsOnlyOnAccept(s: State, e: Engine, event: Event)
    requires Inv(s, false) && LogsStart(s, e, event)
    ensures event.AcceptSent? && event.heard && s.phase == AwaitingApproval && s.plan.viable
    ensures Last(s.notes) == Proposed(s.plan.steps) || Last(s.notes) == Declined(s.plan.steps)
    ensures |s.notes| < |Session.Step(s, e, event).notes|
    ensures Session.Step(s, e, event).notes[|s.notes|] == Started(s.plan.steps)
    ensures !StartsAfter(Session.Step(s, e, event).notes, |s.notes| + 1)
  {
    assert s.phase != Dissolved && event.heard;
    if event.OfferMade? {
      OfferLogsNoStart(s, e, event);
    } else if event.RejectSent? {
      RejectLogsNoStart(s, e, event);
    } else {
      var s1 := Execute(s, event.status, event.now);
      FinishExtends(s1, event.status, event.review, event.candidates, event.sent);
      assert s1.notes == s.notes + [s1.notes[|s.notes|]];
      assert Session.Step(s, e, event).notes[|s.notes|] == s1.notes[|s.notes|];
    }
  }

  // ------------------------------------------------------------------
  // How long a session can go on
  // ------------------------------------------------------------------

  /** At most four cycles for each validation round the session may have. */
  lemma {:induction false} CycleBound(s: State, e: Engine, events: seq<Event>)
    requires Opened(s)
    ensures Cycles(Run(s, e, events).notes) <= CycleLimit(Run(s, e, events).maxRounds)
  {
    RunKeeps(s, e, events, false);
  }

  /** Validation rounds left, then requester renegotiations left: one more refusal
      counted and the renegotiations reset, or one more renegotiation. */
  ghost predicate MeasureDrops(s: State, t: State) {
    || (t.rounds == s.rounds + 1 < t.maxRounds && t.plan.renegotiationRound == 0)
    || (t.rounds == s.rounds && s.plan.renegotiationRound + 1 == t.plan.renegotiationRound <= MAX_RENEGOTIATIONS)
  }

  /** One more cycle, paid for, with both parts of the measure in bounds. */
  ghost predicate Spends(s: State, t: State) {
    Cycles(t.notes) == Cycles(s.notes) + 1 && t.maxRounds == s.maxRounds && MeasureDrops(s, t)
  }

  /** No new cycle, and nothing given back. */
  ghost predicate Idles(s: State, t: State) {
    && Cycles(t.notes) == Cycles(s.notes) && t.maxRounds == s.maxRounds
    && t.rounds >= s.rounds && t.plan.renegotiationRound == s.plan.renegotiationRound
  }

  lemma CloseIdles(s: State, sent: bool)
    ensures Idles(s, Close(s, sent))
  {
    CyclesAppend(s.notes, Ended);
  }

  lemma {:induction false} RejectSpends(s: State, e: Engine, event: Event)
    requires Inv(s, false) && s.phase != Dissolved && event.heard && event.RejectSent?
    ensures var t := Session.Step(s, e, event); Idles(s, t) || Spends(s, t)
  {
    CloseIdles(s, event.sent);
    if event.byRequester && event.renegotiate && s.plan.renegotiationRound < MAX_RENEGOTIATIONS {
      RenegotiationSpends(s, event.candidates, event.sent);
    }
  }

  lemma RenegotiationSpends(s: State, candidates: Option<seq<Candidate>>, sent: bool)
    requires Inv(s, false) && s.phase != Dissolved && s.plan.renegotiationRound < MAX_RENEGOTIATIONS
    ensures Spends(s, Renegotiate(s, candidates, sent))
  {
    SolicitCycles(Renewed(s), candidates, sent);
  }

  lemma {:induction false} AcceptSpends(s: State, e: Engine, event: Event)
    requires Inv(s, false) && s.phase == AwaitingApproval && event.heard && event.AcceptSent?
    ensures var t := Session.Step(s, e, event); Idles(s, t) || Spends(s, t)
  {
    CyclesAppend(s.notes, Started(s.plan.steps));
    CyclesAppend(s.notes, Declined(s.plan.steps));
    FinishSpends(Execute(s, event.status, event.now), event.status, event.review, event.candidates, event.sent);
  }

  lemma {:induction false} OfferIdles(s: State, e: Engine, gate: nat -> Option<bool>, order: OrderAnswer, sent: bool)
    ensures Idles(s, TryConverge(s, e, gate, order, sent))
  {
    var more := OfferShape(s, e, gate, order, sent);
    CyclesAppend(s.notes, Evaluated);
    if more != [] {
      CyclesAppend(s.notes + [Evaluated], more[0]);
      assert more == [more[0]];
    } else {
      assert s.notes + [Evaluated] + more == s.notes + [Evaluated];
    }
  }

  /** Each new cycle spends from the lexicographic measure, whose parts stay bounded: a
      refused validation refills the second only by spending the first. No other
      message gives anything back. */
  lemma {:induction false} EachCycleSpendsTheMeasure(s: State, e: Engine, event: Event)
    requires Inv(s, false)
    ensures var t := Session.Step(s, e, event); Idles(s, t) || Spends(s, t)
  {
    if s.phase != Dissolved && event.heard {
      if event.OfferMade? {
        OfferIdles(ReceiveOffer(s, event.agent, event.offer, event.eligible), e, event.gate, event.order, event.sent);
      } else if event.RejectSent? {
        RejectSpends(s, e, event);
      } else if s.phase == AwaitingApproval {
        AcceptSpends(s, e, event);
      }
    }
  }

  lemma SolicitCycles(s: State, candidates: Option<seq<Candidate>>, sent: bool)
    ensures var t := Solicit(s, candidates, sent);
      && Cycles(t.notes) == Cycles(s.notes) + 1
      && t.rounds == s.rounds && t.maxRounds == s.maxRounds && t.plan == s.plan
  {
    CyclesAppend(s.notes, Solicited);
    if candidates.Some? && candidates.value == [] {
      CloseCycles(Note1(s, Solicited).(phase := Discovery, discovered := []), sent);
    }
  }

  lemma CloseCycles(s: State, sent: bool)
    ensures var t := Close(s, sent);
      && Cycles(t.notes) == Cycles(s.notes)
      && t.rounds == s.rounds && t.maxRounds == s.maxRounds && t.plan == s.plan
  {
    CyclesAppend(s.notes, Ended);
  }

  lemma {:induction false} FinishSpends(s: State, status: ExecutionStatus, review: Review,
                                        candidates: Option<seq<Candidate>>, sent: bool)
    requires s.phase != Dissolved
    ensures var t := Finish(s, status, review, candidates, sent); Idles(s, t) || Spends(s, t)
  {
    var s1 := Reviewed(s, review.Approves?);
    CloseIdles(s, sent);
    CloseIdles(s1, sent);
    SolicitCycles(ClearNegotiation(s1, EMPTY_PLAN), candidates, sent);
  }

  // ------------------------------------------------------------------
  // The bound is reached
  // ------------------------------------------------------------------

  const SOLE := Some([Candidate("a", Reached)])

  /** Gathering offers from one agent, after `r` refusals and `k` renegotiations. */
  ghost predicate At(s: State, r: nat, k: nat, maxRounds: int) {
    && s.phase == Negotiating && s.validated && s.maxRounds == maxRounds && s.rounds == r
    && s.solicited == ["a"] && s.offers == [] && s.accepted == []
    && s.plan == EMPTY_PLAN.(renegotiationRound := k)
  }

  function RejectEvent(): Event {
    RejectSent(true, true, true, SOLE, true)
  }

  function OfferEvent(): Event {
    OfferMade(true, "a", Offer("c", "", []), true, (i: nat) => Some(true), Unusable, true)
  }

  function AcceptEvent(): Event {
    AcceptSent(true, Success, Refuses, 0, SOLE, true)
  }

  lemma SoleSolicited(s: State)
    requires s.solicited == []
    ensures Solicit(s, SOLE, true).solicited == ["a"] && Solicit(s, SOLE, true).phase == Negotiating
  {
  }

  lemma RestartsAlone(s: State, k: nat, m: int)
    requires s.validated && s.maxRounds == m
    ensures var t := Solicit(ClearNegotiation(s, EMPTY_PLAN.(renegotiationRound := k)), SOLE, true);
      At(t, s.rounds, k, m) && Cycles(t.notes) == Cycles(s.notes) + 1
  {
    var s1 := ClearNegotiation(s, EMPTY_PLAN.(renegotiationRound := k));
    SoleSolicited(s1);
    SolicitCycles(s1, SOLE, true);
  }

  lemma RejectRestarts(s: State, e: Engine)
    requires s.phase != Dissolved && s.plan.renegotiationRound < MAX_RENEGOTIATIONS
    ensures Session.Step(s, e, RejectEvent()) ==
      Solicit(Renewed(s), SOLE, true)
  {
  }

  lemma AnotherRenegotiation(s: State, e: Engine, r: nat, k: nat, m: int)
    requires At(s, r, k, m) && k < MAX_RENEGOTIATIONS
    ensures At(Session.Step(s, e, RejectEvent()), r, k + 1, m)
    ensures Cycles(Session.Step(s, e, RejectEvent()).notes) == Cycles(s.notes) + 1
  {
    RejectRestarts(s, e);
    RestartsAlone(s, k + 1, m);
  }

  lemma OneAccepted(r: NegotiationRecord)
    requires r.status == Accepted
    ensures ComposeOffers([r]) == [Negotiation.Step(r.agent, r.offer)]
  {
  }

  lemma SoleOfferIsDecided(r: NegotiationRecord, gate: nat -> Option<bool>)
    requires r.status == Pending && gate(0) == Some(true)
    ensures !GateRaises([r], gate) && Gated([r], gate) == [r.(status := Accepted)]
  {
    assert [r][..0] == [];
  }

  lemma SoleOfferPassesBarrier(s: State, r: nat, k: nat, m: int)
    requires At(s, r, k, m)
    ensures var ev := OfferEvent();
      var s1 := ReceiveOffer(s, ev.agent, ev.offer, ev.eligible);
      BarrierPasses(s1) && !GateRaises(s1.offers, ev.gate) && |ComposeOffers(Gated(s1.offers, ev.gate))| == 1
  {
    var ev := OfferEvent();
    var s1 := ReceiveOffer(s, ev.agent, ev.offer, ev.eligible);
    var r := NegotiationRecord("a", ev.offer, Pending);
    assert s1.offers == [r];
    assert s1.offers[0].agent in Responded(s1.offers);
    SoleOfferIsDecided(r, ev.gate);
    OneAccepted(r.(status := Accepted));
  }

  lemma {:induction false} SoleStepIsProposed(s: State, e: Engine, gate: nat -> Option<bool>, order: OrderAnswer)
    requires BarrierPasses(s) && s.plan.round < e.maxRounds
    requires !GateRaises(s.offers, gate) && |ComposeOffers(Gated(s.offers, gate))| == 1
    ensures var t := TryConverge(s, e, gate, order, true);
      t.phase == AwaitingApproval && t.plan.viable && SameFrame(s, t) && Cycles(t.notes) == Cycles(s.notes)
  {
    OutcomeIgnoresEntropy(s, e, gate, order, true);
    OfferIdles(s, e, gate, order, true);
    var more := OfferShape(s, e, gate, order, true);
  }

  lemma {:induction false} SoleOfferProposes(s: State, e: Engine, r: nat, k: nat, m: int)
    requires At(s, r, k, m) && e.maxRounds >= 1
    ensures var t := Session.Step(s, e, OfferEvent());
      t.phase == AwaitingApproval && t.plan.viable && SameFrame(s, t) && Cycles(t.notes) == Cycles(s.notes)
  {
    var ev := OfferEvent();
    SoleOfferPassesBarrier(s, r, k, m);
    SoleStepIsProposed(ReceiveOffer(s, ev.agent, ev.offer, ev.eligible), e, ev.gate, ev.order);
  }

  lemma RefusalOf(s: State)
    requires s.validated && s.rounds + 1 < s.maxRounds
    ensures Finish(s, Success, Refuses, SOLE, true) ==
      Solicit(ClearNegotiation(Reviewed(s, false), EMPTY_PLAN), SOLE, true)
  {
  }

  lemma RefusalStartsAgain(s: State, e: Engine, m: int)
    requires s.phase == AwaitingApproval && s.plan.viable && s.validated && s.maxRounds == m && s.rounds + 1 < m
    requires s.plan.renegotiationRound <= MAX_RENEGOTIATIONS
    ensures At(Session.Step(s, e, AcceptEvent()), s.rounds + 1, 0, m)
    ensures Cycles(Session.Step(s, e, AcceptEvent()).notes) == Cycles(s.notes) + 1
  {
    var s1 := Execute(s, Success, 0);
    CyclesAppend(s.notes, Started(s.plan.steps));
    RefusalOf(s1);
    RestartsAlone(Reviewed(s1, false), 0, m);
  }

  lemma RunAppend(s: State, e: Engine, events: seq<Event>, event: Event)
    ensures Run(s, e, events + [event]) == Session.Step(Run(s, e, events), e, event)
  {
  }

  lemma {:induction false} Renegotiated(s: State, e: Engine, events: seq<Event>, r: nat, k: nat, m: int)
      returns (longer: seq<Event>)
    requires At(Run(s, e, events), r, 0, m) && k <= MAX_RENEGOTIATIONS
    ensures At(Run(s, e, longer), r, k, m)
    ensures Cycles(Run(s, e, longer).notes) == Cycles(Run(s, e, events).notes) + k
  {
    if k == 0 {
      longer := events;
    } else {
      var shorter := Renegotiated(s, e, events, r, k - 1, m);
      AnotherRenegotiation(Run(s, e, shorter), e, r, k - 1, m);
      RunAppend(s, e, shorter, RejectEvent());
      longer := shorter + [RejectEvent()];
    }
  }

  /** An offer and a refused execution, after the third renegotiation. */
  lemma {:induction false} AnotherRound(s: State, e: Engine, events: seq<Event>, r: nat, m: int)
    returns (longer: seq<Event>)
    requires At(Run(s, e, events), r, MAX_RENEGOTIATIONS, m) && r + 1 < m && e.maxRounds >= 1
    ensures At(Run(s, e, longer), r + 1, 0, m)
    ensures Cycles(Run(s, e, longer).notes) == Cycles(Run(s, e, events).notes) + 1
  {
    SoleOfferProposes(Run(s, e, events), e, r, MAX_RENEGOTIATIONS, m);
    var offered := events + [OfferEvent()];
    RunAppend(s, e, events, OfferEvent());
    RefusalStartsAgain(Run(s, e, offered), e, m);
    RunAppend(s, e, offered, AcceptEvent());
    longer := offered + [AcceptEvent()];
  }

  lemma {:induction false} Longest(s: State, e: Engine, r: nat, m: int) returns (events: seq<Event>)
    requires At(s, 0, 0, m) && Cycles(s.notes) == 1 && r < m && e.maxRounds >= 1
    ensures At(Run(s, e, events), r, MAX_RENEGOTIATIONS, m)
    ensures Cycles(Run(s, e, events).notes) == 4 * (r + 1)
  {
    if r == 0 {
      events := Renegotiated(s, e, [], 0, MAX_RENEGOTIATIONS, m);
    } else {
      var earlier := Longest(s, e, r - 1, m);
      var next := AnotherRound(s, e, earlier, r - 1, m);
      events := Renegotiated(s, e, next, r, MAX_RENEGOTIATIONS, m);
    }
  }

  /** The bound is exact: for every number of validation rounds some session goes
      through that many cycles. */
  lemma CycleBoundIsReached(e: Engine, m: int) returns (s: State, events: seq<Event>)
    requires m >= 1 && e.maxRounds >= 1
    ensures Opened(s) && s.maxRounds == m && Cycles(Run(s, e, events).notes) == CycleLimit(m)
  {
    s := Session.Open([], [], true, m, Some(true), Some(JNull), SOLE, true);
    var s0 := Admitted(NewSession([], [], true, m), JNull);
    SoleSolicited(s0);
    SolicitCycles(s0, SOLE, true);
    assert s0.notes[..0] == [];
    assert Cycles(s0.notes) == 0;
    events := Longest(s, e, m - 1, m);
  }

  // ------------------------------------------------------------------
  // The proposal awaiting approval
  // ------------------------------------------------------------------

  /** Whenever a proposal awaits approval its steps are the accepted offers,
      rearranged; the accepted list names their agents in offer order; and after
      the first cycle the steps are in offer order. */
  lemma {:induction false} ProposalMatchesAcceptedOffers(s: State, e: Engine, events: seq<Event>)
    requires Opened(s) && Run(s, e, events).phase == AwaitingApproval
    ensures var t := Run(s, e, events);
      && multiset(t.plan.steps) == multiset(ComposeOffers(t.offers))
      && t.accepted == AcceptedAgents(t.offers)
      && (forall x :: x in t.plan.steps ==> x.agent in t.accepted)
      && (Cycles(t.notes) > 1 ==> t.plan.steps == ComposeOffers(t.offers))
  {
    RunKeeps(s, e, events, false);
    var t := Run(s, e, events);
    AcceptedIffComposed(t.offers);
    forall x | x in t.plan.steps ensures x.agent in t.accepted {
      assert x in multiset(t.plan.steps);
      assert x in ComposeOffers(t.offers);
    }
  }

  /** The capability that approving it issues lets every agent of the plan through,
      at any time in its life, for exactly the scopes it permits: no refusal is
      for the agent's identity. */
  lemma {:induction false} PlanAgentsPassTheirCapability(s: State, e: Engine, events: seq<Event>, issued: int, now: int,
                                                         step: Negotiation.Step, scopes: seq<string>)
    requires Opened(s) && Run(s, e, events).phase == AwaitingApproval && step in Run(s, e, events).plan.steps
    requires now < issued + Delegation.DEFAULT_TTL_SECONDS
    ensures var capability := IssuedCapability(Run(s, e, events), issued);
      Delegation.Check(capability, step.agent, scopes, now).None? <==>
        forall i :: 0 <= i < |scopes| ==> Delegation.PermitsScope(capability, scopes[i])
  {
    ProposalMatchesAcceptedOffers(s, e, events);
    Delegation.CheckExact(IssuedCapability(Run(s, e, events), issued), step.agent, scopes, now);
  }

  /** An offer that arrives while a proposal awaits approval is recorded and
      changes nothing else: not the plan, not the accepted offers. */
  lemma LateOfferOnlyRecorded(s: State, e: Engine, event: Event)
    requires s.phase == AwaitingApproval && event.OfferMade? && event.heard
    ensures var t := Session.Step(s, e, event);
      && t == s.(offers := t.offers) && |t.offers| == |s.offers| + 1 && s.offers <= t.offers
      && ComposeOffers(t.offers) == ComposeOffers(s.offers)
  {
  }

  /** While a session lives, its history has one entry per validation round. */
  lemma {:induction false} HistoryNumbersRounds(s: State, e: Engine, events: seq<Event>)
    requires Opened(s) && Run(s, e, events).phase != Dissolved
    ensures var t := Run(s, e, events);
      |t.history| == t.rounds && forall i :: 0 <= i < |t.history| ==> t.history[i].number == i + 1
  {
    RunKeeps(s, e, events, false);
  }

  /** An approved answer whose delivery, or the dissolution after it, fails. */
  predicate LosesApproval(event: Event) {
    event.AcceptSent? && event.review.Approves? && !event.sent
  }

  ghost predicate OnlyRefusals(s: State) {
    s.phase != Dissolved ==> forall i :: 0 <= i < |s.history| ==> !s.history[i].approved
  }

  lemma FinishKeepsRefusals(s: State, status: ExecutionStatus, review: Review, candidates: Option<seq<Candidate>>,
                            sent: bool)
    requires OnlyRefusals(s) && s.phase != Dissolved && !(review.Approves? && !sent)
    ensures OnlyRefusals(Finish(s, status, review, candidates, sent))
  {
  }

  lemma RenegotiateKeepsHistory(s: State, candidates: Option<seq<Candidate>>, sent: bool)
    ensures Renegotiate(s, candidates, sent).history == s.history
  {
  }

  lemma StepKeepsRefusals(s: State, e: Engine, event: Event)
    requires OnlyRefusals(s) && !LosesApproval(event)
    ensures OnlyRefusals(Session.Step(s, e, event))
  {
    if s.phase != Dissolved && event.heard {
      match event
      case OfferMade(_, agent, offer, eligible, gate, order, sent) =>
        ConvergingKeepsHistory(ReceiveOffer(s, agent, offer, eligible), e, gate, order, sent);
      case AcceptSent(_, status, review, now, candidates, sent) =>
        FinishKeepsRefusals(Execute(s, status, now), status, review, candidates, sent);
      case RejectSent(_, _, _, candidates, sent) => RenegotiateKeepsHistory(s, candidates, sent);
    }
  }

  lemma SettlingKeepsHistory(s: State, e: Engine, initial: real, order: OrderAnswer, sent: bool)
    ensures Settle(s, e, initial, order, sent).history == s.history
  {
    SettleCases(s, e, initial, order, sent);
  }

  lemma ConvergingKeepsHistory(s: State, e: Engine, gate: nat -> Option<bool>, order: OrderAnswer, sent: bool)
    ensures TryConverge(s, e, gate, order, sent).history == s.history
  {
    SettlingKeepsHistory(Evaluate(s, e, gate), e, InitialEntropy(s, e), order, sent);
  }

  /** So a live session's history is its refusals, one a round, unless an approved
      answer was lost on its way. */
  lemma {:induction false} HistoryCountsRefusals(s: State, e: Engine, events: seq<Event>)
    requires Opened(s) && Run(s, e, events).phase != Dissolved
    requires forall i :: 0 <= i < |events| ==> !LosesApproval(events[i])
    ensures var t := Run(s, e, events);
      |t.history| == t.rounds && forall i :: 0 <= i < |t.history| ==> t.history[i] == Round(i + 1, false)
  {
    HistoryNumbersRounds(s, e, events);
    RunKeepsRefusals(s, e, events);
  }

  lemma {:induction false} RunKeepsRefusals(s: State, e: Engine, events: seq<Event>)
    requires Opened(s) && forall i :: 0 <= i < |events| ==> !LosesApproval(events[i])
    ensures OnlyRefusals(Run(s, e, events))
  {
    if events == [] {
      OpenHasNoHistory(s);
    } else {
      RunKeepsRefusals(s, e, events[..|events| - 1]);
      StepKeepsRefusals(Run(s, e, events[..|events| - 1]), e, events[|events| - 1]);
    }
  }

  lemma OpenHasNoHistory(s: State)
    requires Opened(s)
    ensures s.history == []
  {
  }

  // ------------------------------------------------------------------
  // The barrier
  // ------------------------------------------------------------------

  /** Once every solicited agent has answered and the gate has decided, what happens
      next does not depend on the entropy test: a proposal goes out exactly when
      the gate let some offer in, it can be ordered and it can be sent; with none
      let in the session ends, if that can be sent. */
  lemma {:induction false} OutcomeIgnoresEntropy(s: State, e: Engine, gate: nat -> Option<bool>, order: OrderAnswer,
                                                 sent: bool)
    requires BarrierPasses(s) && s.plan.round < e.maxRounds && !GateRaises(s.offers, gate)
    ensures var t := TryConverge(s, e, gate, order, sent);
      var steps := ComposeOffers(Gated(s.offers, gate));
      var ordering := OrderSteps(steps, s.plan.subIntents, order);
      if !sent || ordering.Raised? then t == Evaluate(s, e, gate).(plan := t.plan)
      else if steps == [] then t.phase == Dissolved
      else t.phase == AwaitingApproval && t.plan.steps == ordering.steps && t.plan.viable
  {
    SettleOutcome(Evaluate(s, e, gate), e, InitialEntropy(s, e), order, sent);
  }

  lemma {:induction false} SettleOutcome(s: State, e: Engine, initial: real, order: OrderAnswer, sent: bool)
    requires s.phase !in {AwaitingApproval, Dissolved} && s.plan.round < e.maxRounds
    ensures var t := Settle(s, e, initial, order, sent);
      var steps := ComposeOffers(s.offers);
      var ordering := OrderSteps(steps, s.plan.subIntents, order);
      if !sent || ordering.Raised? then t == s.(plan := t.plan)
      else if steps == [] then t.phase == Dissolved
      else t.phase == AwaitingApproval && t.plan.steps == ordering.steps && t.plan.viable
  {
    AcceptedIffComposed(s.offers);
    var s1 := NextRound(s);
    SettleCases(s, e, initial, order, sent);
    assert NeedsFallback(e, s1.plan.round, s.offers, initial) != Some(Solidification);
    ProposeOutcome(s, order, sent);
    ProposeOutcome(s1, order, sent);
  }

  lemma ProposeOutcome(s: State, order: OrderAnswer, sent: bool)
    requires s.phase !in {AwaitingApproval, Dissolved}
    ensures var t := Propose(s, order, sent);
      var steps := ComposeOffers(s.offers);
      var ordering := OrderSteps(steps, s.plan.subIntents, order);
      if !sent || ordering.Raised? then t == s.(plan := t.plan)
      else if steps == [] then t.phase == Dissolved
      else t.phase == AwaitingApproval && t.plan.steps == ordering.steps && t.plan.viable
  {
  }

  lemma StrictLogMovesOn(s: State)
    requires Inv(s, true)
    ensures s.notes != [] && WellOrdered(s.notes, true) && Last(s.notes) != Evaluated
  {
  }

  /** What a strict log says of an evaluation: the next note proposes or ends, and
      another evaluation needs another solicitation first. */
  ghost predicate EvaluatesOnce(notes: seq<Note>, i: nat, j: nat) {
    i < |notes| && notes[i] == Evaluated ==>
      && i + 1 < |notes| && (notes[i + 1].Proposed? || notes[i + 1] == Ended)
      && (i < j < |notes| && notes[j] == Evaluated ==> exists k :: i < k < j && notes[k] == Solicited)
  }

  lemma StrictLogEvaluatesOnce(notes: seq<Note>, i: nat, j: nat)
    requires notes != [] && WellOrdered(notes, true) && Last(notes) != Evaluated
    ensures EvaluatesOnce(notes, i, j)
  {
    if i < |notes| && notes[i] == Evaluated {
      assert Follows(notes[i], notes[i + 1], true);
      if i < j < |notes| && notes[j] == Evaluated {
        BetweenEvaluations(notes, i, j);
      }
    }
  }

  /** In runs where no handler breaks off, each cycle evaluates its offers at most once
      and the evaluation is directly followed by a proposal or the end. */
  lemma {:induction false} OneEvaluationPerCycle(s: State, e: Engine, events: seq<Event>, i: nat, j: nat)
    requires Opened(s) && Unbroken(s, e, events)
    ensures EvaluatesOnce(Run(s, e, events).notes, i, j)
  {
    RunKeeps(s, e, events, true);
    StrictLogMovesOn(Run(s, e, events));
    StrictLogEvaluatesOnce(Run(s, e, events).notes, i, j);
  }

  lemma {:induction false} BetweenEvaluations(notes: seq<Note>, i: nat, j: nat)
    requires WellOrdered(notes, true) && i < j < |notes| && notes[i] == Evaluated
    ensures
      (exists k :: i < k <= j && notes[k] == Solicited)
      || !(notes[j].Evaluated? || notes[j].Solicited? || notes[j].Asked?)
    ensures notes[j] == Evaluated ==> exists k :: i < k < j && notes[k] == Solicited
  {
    assert Follows(notes[j - 1], notes[j - 1 + 1], true);
    if j > i + 1 {
      BetweenEvaluations(notes, i, j - 1);
    }
  }

  /** In such runs the stored round never exceeds one. */
  lemma {:induction false} RoundStaysAtMostOne(s: State, e: Engine, events: seq<Event>)
    requires Opened(s) && Unbroken(s, e, events)
    ensures Run(s, e, events).plan.round <= 1
  {
    RunKeeps(s, e, events, true);
  }

  /** And whatever offer arrives then: if it completes the responses, the fallback
      question that follows a failed convergence test is asked for round one, so a
      fallback is chosen exactly when at most one round is allowed. */
  lemma {:induction false} FallbackExactly(s: State, e: Engine, events: seq<Event>, agent: string, offer: Offer,
                                           eligible: bool, gate: nat -> Option<bool>)
    requires Opened(s) && Unbroken(s, e, events)
    ensures var t := ReceiveOffer(Run(s, e, events), agent, offer, eligible);
      var evaluated, initial := Evaluate(t, e, gate), InitialEntropy(t, e);
      BarrierPasses(t) && !CheckConvergence(e, evaluated.offers, initial) ==>
        (NeedsFallback(e, NextRound(evaluated).plan.round, evaluated.offers, initial).Some? <==> e.maxRounds <= 1)
  {
    RunKeeps(s, e, events, true);
  }

  // ------------------------------------------------------------------
  // Handlers that break off
  // ------------------------------------------------------------------

  lemma {:induction false} BrokenEvaluation(s: State, e: Engine, gate: nat -> Option<bool>, order: OrderAnswer,
                                            sent: bool)
    requires EvaluationBreaks(s, e, gate, order, sent)
    ensures var t := TryConverge(s, e, gate, order, sent);
      t == Evaluate(s, e, gate).(plan := t.plan) && t.plan.round <= s.plan.round + 1
  {
    if !GateRaises(s.offers, gate) {
      BrokenSettling(Evaluate(s, e, gate), e, InitialEntropy(s, e), order, sent);
    }
  }

  lemma {:induction false} BrokenSettling(s: State, e: Engine, initial: real, order: OrderAnswer, sent: bool)
    requires !sent || (ComesToPropose(s, e, initial)
                       && OrderSteps(ComposeOffers(s.offers), s.plan.subIntents, order).Raised?)
    ensures var t := Settle(s, e, initial, order, sent);
      t == s.(plan := t.plan) && t.plan.round <= s.plan.round + 1
  {
    SettleCases(s, e, initial, order, sent);
    BrokenProposing(s, order, sent);
    BrokenProposing(NextRound(s), order, sent);
  }

  lemma BrokenProposing(s: State, order: OrderAnswer, sent: bool)
    requires !sent || OrderSteps(ComposeOffers(s.offers), s.plan.subIntents, order).Raised?
    ensures var t := Propose(s, order, sent); t == s.(plan := t.plan) && t.plan.round == s.plan.round
  {
  }

  /** An evaluation that breaks off, for whatever reason, leaves the session gathering
      and the barrier open for the next offer, with the round counted at most once:
      the restriction to runs without one is needed. */
  lemma {:induction false} BreakReopensBarrier(s: State, e: Engine, gate: nat -> Option<bool>, order: OrderAnswer,
                                               sent: bool)
    requires EvaluationBreaks(s, e, gate, order, sent)
    ensures var t := TryConverge(s, e, gate, order, sent);
      && BarrierPasses(t) && t.notes == s.notes + [Evaluated]
      && t.offers == Gated(s.offers, gate) && t.accepted == s.accepted + LetIn(s.offers, gate)
      && t.plan.round <= s.plan.round + 1
  {
    BrokenEvaluation(s, e, gate, order, sent);
    GateKeepsResponders(s.offers, gate);
  }

  /** So does an approved proposal whose handling breaks off after the start: the session
      stays in its execution phase, which the guard on late offers does not name, and
      the next offer evaluates the same cycle again. */
  lemma {:induction false} BrokenAcceptReopensBarrier(s: State, e: Engine, accept: Event, agent: string, offer: Offer,
                                                      eligible: bool)
    requires Inv(s, false) && s.phase == AwaitingApproval && accept.AcceptSent? && accept.heard
    requires accept.status != Denied && AcceptBreaks(s, accept.status, accept.review, accept.sent)
    ensures var t := Session.Step(s, e, accept);
      && t.phase == Execution && t.plan == s.plan && t.notes == s.notes + [Started(s.plan.steps)]
      && BarrierPasses(ReceiveOffer(t, agent, offer, eligible))
  {
    RespondedGrows(s.offers, NegotiationRecord(agent, offer, if eligible then Pending else Rejected));
  }

  /** With two rounds allowed, a proposal of round one whose supervisor breaks, and then an
      offer that fails the convergence test, come to the fallback that runs without a
      break never choose. */
  lemma {:induction false} BrokenAcceptReachesFallback(s: State, e: Engine, accept: Event, agent: string, offer: Offer,
                                                       eligible: bool, gate: nat -> Option<bool>)
    requires Inv(s, false) && s.phase == AwaitingApproval && s.plan.round == 1 && e.maxRounds == 2
    requires accept.AcceptSent? && accept.heard && accept.status == Broken
    ensures var t := ReceiveOffer(Session.Step(s, e, accept), agent, offer, eligible);
      var evaluated, initial := Evaluate(t, e, gate), InitialEntropy(t, e);
      BarrierPasses(t) && (!CheckConvergence(e, evaluated.offers, initial) ==>
        NeedsFallback(e, NextRound(evaluated).plan.round, evaluated.offers, initial) == Some(RecursiveSimplification))
  {
    BrokenAcceptReopensBarrier(s, e, accept, agent, offer, eligible);
  }

  /** In general an offer handled in the execution phase, with all responses in, sends out
      another proposal, if the gate lets some offer in and it can be ordered and sent. */
  lemma {:induction false} GuardOmitsExecution(s: State, e: Engine, gate: nat -> Option<bool>, order: OrderAnswer)
    requires s.phase == Execution && Expected(s) <= Responded(s.offers) && s.plan.round < e.maxRounds
    requires !GateRaises(s.offers, gate) && ComposeOffers(Gated(s.offers, gate)) != []
    requires OrderSteps(ComposeOffers(Gated(s.offers, gate)), s.plan.subIntents, order).Ordered?
    ensures TryConverge(s, e, gate, order, true).phase == AwaitingApproval
  {
    OutcomeIgnoresEntropy(s, e, gate, order, true);
  }
}
