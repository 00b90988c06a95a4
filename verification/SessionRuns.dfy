/** What holds of every run of a session. */
module SessionRuns {
  import opened Options
  import opened Json
  import opened Entropy
  import opened Negotiation
  import opened Session

  // ------------------------------------------------------------------
  // The order of notes
  // ------------------------------------------------------------------

  /** Which note may come directly after which. A strict log, of a session in which no
      handler breaks off, brings each evaluation to a proposal or the end, and each
      start and refusal to another cycle or the end. */
  predicate Follows(a: Note, b: Note, strict: bool) {
    match a
    case Asked => b.Solicited? || b.Evaluated? || b.Ended?
    case Solicited => b.Solicited? || b.Evaluated? || b.Ended?
    case Evaluated => b.Proposed? || b.Ended? || (!strict && (b.Evaluated? || b.Solicited?))
    case Proposed(steps) => b == Started(steps) || b == Declined(steps) || b.Solicited? || b.Ended?
    case Declined(steps) => b.Ended? || (!strict && (b == Started(steps) || b == Declined(steps) || b.Solicited?))
    case Started(_) => b.Solicited? || b.Ended? || (!strict && b.Evaluated?)
    case Ended => false
  }

  predicate WellOrdered(notes: seq<Note>, strict: bool) {
    && notes != [] && notes[0] == Asked
    && forall i :: 0 <= i < |notes| - 1 ==> Follows(notes[i], notes[i + 1], strict)
  }

  function Last(notes: seq<Note>): Note
    requires notes != []
  {
    notes[|notes| - 1]
  }

  lemma AppendOrdered(notes: seq<Note>, note: Note, strict: bool)
    requires WellOrdered(notes, strict)
    requires Follows(Last(notes), note, strict)
    ensures WellOrdered(notes + [note], strict)
  {
  }

  /** Discovery and solicitation cycles so far. */
  function Cycles(notes: seq<Note>): nat {
    if notes == [] then 0
    else Cycles(notes[..|notes| - 1]) + (if Last(notes).Solicited? then 1 else 0)
  }

  lemma CyclesAppend(notes: seq<Note>, note: Note)
    ensures Cycles(notes + [note]) == Cycles(notes) + (if note.Solicited? then 1 else 0)
  {
  }

  function CycleLimit(maxRounds: int): int {
    4 * (if maxRounds < 1 then 1 else maxRounds)
  }

  // ------------------------------------------------------------------
  // The invariant
  // ------------------------------------------------------------------

  /** Offers are decided from the front: nothing pending comes before an accepted one. */
  ghost predicate DecidedInOrder(offers: seq<NegotiationRecord>) {
    forall i, j :: 0 <= i < j < |offers| && offers[j].status == Accepted ==> offers[i].status != Pending
  }

  /** The refusals that can have started a cycle: only those before the last round. */
  function Spent(s: State): int {
    if s.maxRounds < 1 then 0 else if s.rounds < s.maxRounds then s.rounds else s.maxRounds - 1
  }

  ghost predicate Counted(s: State, slack: nat) {
    && s.plan.renegotiationRound <= MAX_RENEGOTIATIONS
    && Cycles(s.notes) + slack <= 4 * Spent(s) + s.plan.renegotiationRound + 1
  }

  ghost predicate Reviews(s: State) {
    && |s.history| == s.rounds
    && forall i :: 0 <= i < |s.history| ==> s.history[i].number == i + 1
  }

  /** What every live state has, whatever its phase. */
  ghost predicate Core(s: State, strict: bool) {
    && WellOrdered(s.notes, strict)
    && Counted(s, 0)
    && Reviews(s)
    && s.accepted == AcceptedAgents(s.offers)
    && DecidedInOrder(s.offers)
    && (Cycles(s.notes) > 1 ==> !Truthy(s.plan.subIntents))
  }

  /** A proposal is out for exactly the accepted offers, of agents who all answered. */
  ghost predicate ProposalOut(s: State, strict: bool) {
    && s.notes != []
    && (Last(s.notes) == Proposed(s.plan.steps) || (!strict && Last(s.notes) == Declined(s.plan.steps)))
    && s.plan.viable && s.plan.steps != []
    && multiset(s.plan.steps) == multiset(ComposeOffers(s.offers))
    && (!Truthy(s.plan.subIntents) ==> s.plan.steps == ComposeOffers(s.offers))
    && Expected(s) <= Responded(s.offers)
  }

  ghost predicate Inv(s: State, strict: bool) {
    if s.phase == Dissolved then
      s.notes != [] && Last(s.notes) == Ended && WellOrdered(s.notes, strict)
      && Cycles(s.notes) <= CycleLimit(s.maxRounds) && (strict ==> s.plan.round <= 1)
    else if s.phase == AwaitingApproval then
      Core(s, strict) && ProposalOut(s, strict) && (strict ==> s.plan.round <= 1)
    else
      Core(s, strict) && Gathering(s, strict)
  }

  /** Offers are being gathered, or a handler broke off; in a strict run nothing of
      the current cycle has been evaluated yet. */
  ghost predicate Gathering(s: State, strict: bool) {
    && s.notes != []
    && (Last(s.notes).Asked? || Last(s.notes).Solicited? || Last(s.notes).Evaluated? || Last(s.notes).Started?)
    && (strict ==> Fresh(s))
  }

  ghost predicate Fresh(s: State) {
    && s.notes != [] && (Last(s.notes).Asked? || Last(s.notes).Solicited?)
    && s.phase != Execution
    && s.plan.round == 0 && s.plan.initialEntropy.None?
    && s.accepted == []
  }

  // ------------------------------------------------------------------
  // Offers
  // ------------------------------------------------------------------

  /** Accepting one offer, with none accepted after it, appends its agent. */
  lemma {:induction false} AcceptOne(offers: seq<NegotiationRecord>, k: nat, record: NegotiationRecord)
    requires k < |offers| && offers[k].status != Accepted && record.agent == offers[k].agent
    requires record.status == Accepted ==> forall i :: k < i < |offers| ==> offers[i].status != Accepted
    ensures AcceptedAgents(offers[k := record]) ==
      AcceptedAgents(offers) + (if record.status == Accepted then [record.agent] else [])
    decreases |offers|
  {
    var last := |offers| - 1;
    if k == last {
      assert offers[k := record][..last] == offers[..last];
    } else {
      assert offers[k := record][..last] == offers[..last][k := record];
      AcceptOne(offers[..last], k, record);
    }
  }

  /** Deciding one more offer. */
  lemma DecidedStep(offers: seq<NegotiationRecord>, n: nat, gate: nat -> Option<bool>)
    requires n < |offers|
    ensures DecidedTo(offers, n, gate)[n] == offers[n]
    ensures DecidedTo(offers, n + 1, gate) == DecidedTo(offers, n, gate)[n := Decided(offers[n], gate(n))]
    ensures offers[n].status != Pending ==> DecidedTo(offers, n + 1, gate) == DecidedTo(offers, n, gate)
  {
  }

  /** Deciding an offer after which, if it is pending, nothing is accepted. */
  lemma {:induction false} DecideKeepsOrder(offers: seq<NegotiationRecord>, n: nat, gate: nat -> Option<bool>)
    requires DecidedInOrder(offers) && n < |offers|
    ensures AcceptedAgents(DecidedTo(offers, n + 1, gate)) ==
      AcceptedAgents(DecidedTo(offers, n, gate)) + OneLetIn(offers[n], gate(n))
  {
    var before := DecidedTo(offers, n, gate);
    DecidedStep(offers, n, gate);
    if offers[n].status == Pending {
      forall i | n < i < |before| ensures before[i].status != Accepted {
        assert before[i] == offers[i];
      }
      AcceptOne(before, n, Decided(offers[n], gate(n)));
    }
  }

  lemma NothingDecided(offers: seq<NegotiationRecord>, gate: nat -> Option<bool>)
    ensures DecidedTo(offers, 0, gate) == offers
  {
  }

  /** Letting one more agent in, after those of before. */
  lemma LetInStep(before: seq<string>, offers: seq<NegotiationRecord>, n: nat, gate: nat -> Option<bool>)
    requires n < |offers|
    ensures before + LetInTo(offers, n + 1, gate) == before + LetInTo(offers, n, gate) + OneLetIn(offers[n], gate(n))
  {
  }

  /** A list that grows by the agent let in at each decision grows by all of them. */
  lemma {:induction false} LetInAccumulates(at: nat -> seq<string>, offers: seq<NegotiationRecord>, n: nat,
                                            gate: nat -> Option<bool>)
    requires n <= |offers|
    requires forall k: nat :: k < n ==> at(k + 1) == at(k) + OneLetIn(offers[k], gate(k))
    ensures at(n) == at(0) + LetInTo(offers, n, gate)
  {
    if n == 0 {
      assert at(0) + [] == at(0);
    } else {
      LetInAccumulates(at, offers, n - 1, gate);
      LetInStep(at(0), offers, n - 1, gate);
    }
  }

  lemma GatedIsDecided(offers: seq<NegotiationRecord>, gate: nat -> Option<bool>)
    requires DecidedInOrder(offers)
    ensures DecidedInOrder(Gated(offers, gate))
  {
    var stop, r := Stop(offers, gate), Gated(offers, gate);
    forall i, j | 0 <= i < j < |r| && r[j].status == Accepted ensures r[i].status != Pending {
      assert i < stop ==> !RaisesAt(offers, i, gate);
    }
  }

  lemma {:induction false} GateKeepsOrder(offers: seq<NegotiationRecord>, gate: nat -> Option<bool>)
    requires DecidedInOrder(offers)
    ensures AcceptedAgents(Gated(offers, gate)) == AcceptedAgents(offers) + LetIn(offers, gate)
    ensures DecidedInOrder(Gated(offers, gate))
  {
    var at: nat -> seq<string> := (k: nat) => AcceptedAgents(DecidedTo(offers, k, gate));
    forall k: nat | k < Stop(offers, gate) ensures at(k + 1) == at(k) + OneLetIn(offers[k], gate(k)) {
      DecideKeepsOrder(offers, k, gate);
    }
    LetInAccumulates(at, offers, Stop(offers, gate), gate);
    NothingDecided(offers, gate);
    GatedIsDecided(offers, gate);
  }

  lemma {:induction false} AcceptedIffComposed(offers: seq<NegotiationRecord>)
    ensures AcceptedAgents(offers) == [] <==> ComposeOffers(offers) == []
    ensures forall x :: x in ComposeOffers(offers) ==> x.agent in AcceptedAgents(offers)
  {
    if offers != [] { AcceptedIffComposed(offers[..|offers| - 1]); }
  }

  // ------------------------------------------------------------------
  // Each piece keeps the invariant
  // ------------------------------------------------------------------

  lemma DissolveKeeps(s: State, strict: bool)
    requires WellOrdered(s.notes, strict) && Last(s.notes) != Ended
    requires Cycles(s.notes) <= CycleLimit(s.maxRounds) && s.phase != Dissolved
    requires strict ==> s.plan.round <= 1
    ensures Inv(Dissolve(s), strict)
  {
    AppendOrdered(s.notes, Ended, strict);
    CyclesAppend(s.notes, Ended);
  }

  lemma CountedWithinLimit(s: State)
    requires Counted(s, 0)
    ensures Cycles(s.notes) <= CycleLimit(s.maxRounds)
  {
  }

  /** A state ready for another solicitation. */
  ghost predicate Cleared(s: State, strict: bool) {
    && WellOrdered(s.notes, strict)
    && Follows(Last(s.notes), Solicited, strict)
    && Counted(s, 1) && Reviews(s)
    && s.offers == [] && s.accepted == [] && s.plan.round == 0 && s.plan.initialEntropy.None?
    && (Cycles(s.notes) > 0 ==> !Truthy(s.plan.subIntents))
  }

  lemma SolicitCore(s: State, phase: Phase, discovered: seq<string>, solicited: seq<string>, strict: bool)
    requires Cleared(s, strict) && phase != Execution
    ensures var t := Note1(s, Solicited).(phase := phase, discovered := discovered, solicited := solicited);
      Core(t, strict) && Fresh(t)
  {
    AppendOrdered(s.notes, Solicited, strict);
    CyclesAppend(s.notes, Solicited);
  }

  lemma {:induction false} SolicitKeeps(s: State, candidates: Option<seq<Candidate>>, sent: bool, strict: bool)
    requires Cleared(s, strict) && s.phase != Dissolved
    ensures Inv(Solicit(s, candidates, sent), strict)
  {
    if candidates.None? {
      SolicitCore(s, Discovery, s.discovered, s.solicited, strict);
    } else if candidates.value == [] {
      SolicitCore(s, Discovery, [], s.solicited, strict);
      var s2 := Note1(s, Solicited).(phase := Discovery, discovered := []);
      CountedWithinLimit(s2);
      DissolveKeeps(s2, strict);
    } else {
      SolicitCore(s, Negotiating, Names(candidates.value), s.solicited + Contacted(candidates.value), strict);
    }
  }

  /** An evaluation that broke off. */
  ghost predicate Evaluating(s: State, strict: bool) {
    && Core(s, strict) && s.notes != [] && Last(s.notes) == Evaluated
    && s.phase != AwaitingApproval && s.phase != Dissolved
    && Expected(s) <= Responded(s.offers)
  }

  /** The core does not read what the plan holds of its steps or its round. */
  lemma PlanStored(s: State, plan: Plan, strict: bool)
    requires Evaluating(s, strict)
    requires plan.renegotiationRound == s.plan.renegotiationRound && plan.subIntents == s.plan.subIntents
    ensures Evaluating(s.(plan := plan), strict)
  {
  }

  lemma CloseKeeps(s: State, sent: bool, strict: bool)
    requires Evaluating(s, strict) && (strict ==> sent && s.plan.round <= 1)
    ensures Inv(Close(s, sent), strict)
  {
    CountedWithinLimit(s);
    DissolveKeeps(s, strict);
  }

  lemma {:induction false} SentKeeps(s: State, sent: bool, strict: bool)
    requires Evaluating(s, strict) && (strict ==> sent && s.plan.round <= 1)
    requires s.plan.viable && s.plan.steps != [] && multiset(s.plan.steps) == multiset(ComposeOffers(s.offers))
    requires !Truthy(s.plan.subIntents) ==> s.plan.steps == ComposeOffers(s.offers)
    ensures Inv(SendPlan(s, sent), strict)
  {
    AppendOrdered(s.notes, Proposed(s.plan.steps), strict);
    CyclesAppend(s.notes, Proposed(s.plan.steps));
  }

  lemma {:induction false} ProposeKeeps(s: State, order: OrderAnswer, sent: bool, strict: bool)
    requires Evaluating(s, strict)
    requires strict ==>
      sent && OrderSteps(ComposeOffers(s.offers), s.plan.subIntents, order).Ordered? && s.plan.round <= 1
    ensures Inv(Propose(s, order, sent), strict)
  {
    var steps := ComposeOffers(s.offers);
    var ordering := OrderSteps(steps, s.plan.subIntents, order);
    if ordering.Ordered? {
      OrderStepsPermutes(steps, s.plan.subIntents, order);
      var s1 := s.(plan := s.plan.(steps := ordering.steps, viable := steps != []));
      PlanStored(s, s1.plan, strict);
      if steps == [] {
        CloseKeeps(s1, sent, strict);
      } else {
        SameSize(ordering.steps, steps);
        SentKeeps(s1, sent, strict);
      }
    }
  }

  lemma SameSize(a: seq<Negotiation.Step>, b: seq<Negotiation.Step>)
    requires multiset(a) == multiset(b) && b != []
    ensures a != []
  {
    assert b[0] in multiset(a);
  }

  lemma {:induction false} EvaluateKeeps(s: State, e: Engine, gate: nat -> Option<bool>, strict: bool)
    requires Core(s, strict) && BarrierPasses(s) && Follows(Last(s.notes), Evaluated, strict)
    ensures Evaluating(Evaluate(s, e, gate), strict)
  {
    AppendOrdered(s.notes, Evaluated, strict);
    CyclesAppend(s.notes, Evaluated);
    GateKeepsOrder(s.offers, gate);
    GateKeepsResponders(s.offers, gate);
  }

  lemma GateKeepsResponders(offers: seq<NegotiationRecord>, gate: nat -> Option<bool>)
    ensures Responded(offers) <= Responded(Gated(offers, gate))
  {
    forall a | a in Responded(offers) ensures a in Responded(Gated(offers, gate)) {
      var i :| 0 <= i < |offers| && offers[i].agent == a;
      assert Gated(offers, gate)[i].agent == a;
    }
  }

  /** Settling is one of three things: propose, propose after counting a round, or
      give up after counting it. */
  lemma SettleCases(s: State, e: Engine, initial: real, order: OrderAnswer, sent: bool)
    ensures var s1 := NextRound(s);
      if ComesToPropose(s, e, initial)
      then Settle(s, e, initial, order, sent) == Propose(s, order, sent)
           || Settle(s, e, initial, order, sent) == Propose(s1, order, sent)
      else Settle(s, e, initial, order, sent) == Close(s1, sent)
  {
  }

  lemma {:induction false} SettleKeeps(s: State, e: Engine, initial: real, order: OrderAnswer, sent: bool, strict: bool)
    requires Evaluating(s, strict)
    requires strict ==> sent && s.plan.round == 0
    requires strict && ComesToPropose(s, e, initial) ==>
      OrderSteps(ComposeOffers(s.offers), s.plan.subIntents, order).Ordered?
    ensures Inv(Settle(s, e, initial, order, sent), strict)
  {
    var s1 := NextRound(s);
    PlanStored(s, s1.plan, strict);
    SettleCases(s, e, initial, order, sent);
    if ComesToPropose(s, e, initial) {
      ProposeKeeps(s, order, sent, strict);
      ProposeKeeps(s1, order, sent, strict);
    } else {
      CloseKeeps(s1, sent, strict);
    }
  }

  lemma ReceiveKeeps(s: State, agent: string, offer: Offer, eligible: bool, strict: bool)
    requires Inv(s, strict) && s.phase != Dissolved
    ensures Inv(ReceiveOffer(s, agent, offer, eligible), strict)
  {
    var r := NegotiationRecord(agent, offer, if eligible then Pending else Rejected);
    assert (s.offers + [r])[..|s.offers|] == s.offers;
    RespondedGrows(s.offers, r);
  }

  lemma RespondedGrows(offers: seq<NegotiationRecord>, r: NegotiationRecord)
    ensures Responded(offers) <= Responded(offers + [r])
  {
    forall a | a in Responded(offers) ensures a in Responded(offers + [r]) {
      var i :| 0 <= i < |offers| && offers[i].agent == a;
      assert (offers + [r])[i].agent == a;
    }
  }

  lemma {:induction false} ConvergeKeeps(s: State, e: Engine, gate: nat -> Option<bool>, order: OrderAnswer, sent: bool,
                                         strict: bool)
    requires Inv(s, strict) && s.phase != Dissolved && (strict ==> !EvaluationBreaks(s, e, gate, order, sent))
    ensures Inv(TryConverge(s, e, gate, order, sent), strict)
  {
    if BarrierPasses(s) {
      EvaluateKeeps(s, e, gate, strict);
      if !GateRaises(s.offers, gate) {
        SettleKeeps(Evaluate(s, e, gate), e, InitialEntropy(s, e), order, sent, strict);
      }
    }
  }

  lemma {:induction false} OfferKeeps(s: State, e: Engine, event: Event, strict: bool)
    requires Inv(s, strict) && s.phase != Dissolved && event.OfferMade? && event.heard
    requires strict ==> !BreaksOff(s, e, event)
    ensures Inv(Session.Step(s, e, event), strict)
  {
    ReceiveKeeps(s, event.agent, event.offer, event.eligible, strict);
    ConvergeKeeps(ReceiveOffer(s, event.agent, event.offer, event.eligible), e, event.gate, event.order, event.sent,
                  strict);
  }

  /** A proposal was approved: the supervisor started, or was refused. */
  ghost predicate Approved(s: State, strict: bool) {
    && Core(s, strict) && s.notes != [] && s.phase != Dissolved
    && (strict ==> s.plan.round <= 1)
    && if s.phase == AwaitingApproval
       then Last(s.notes) == Declined(s.plan.steps) && ProposalOut(s, false)
       else s.phase == Execution && Last(s.notes).Started?
  }

  lemma ApprovedIsKept(s: State)
    requires Approved(s, false)
    ensures Inv(s, false)
  {
  }

  lemma ExecuteKeeps(s: State, status: ExecutionStatus, now: int, strict: bool)
    requires Inv(s, strict) && s.phase == AwaitingApproval
    ensures Approved(Execute(s, status, now), strict)
  {
    if status == Denied {
      AppendOrdered(s.notes, Declined(s.plan.steps), strict);
      CyclesAppend(s.notes, Declined(s.plan.steps));
    } else {
      AppendOrdered(s.notes, Started(s.plan.steps), strict);
      CyclesAppend(s.notes, Started(s.plan.steps));
    }
  }

  lemma ReviewKeeps(s: State, approved: bool, strict: bool)
    requires Approved(s, strict)
    ensures Approved(Reviewed(s, approved), strict)
  {
  }

  lemma CloseApprovedKeeps(s: State, sent: bool, strict: bool)
    requires Approved(s, strict) && (strict ==> sent)
    ensures Inv(Close(s, sent), strict)
  {
    CountedWithinLimit(s);
    DissolveKeeps(s, strict);
    if !sent {
      ApprovedIsKept(s);
    }
  }

  lemma {:induction false} FinishKeeps(s: State, status: ExecutionStatus, review: Review,
                                       candidates: Option<seq<Candidate>>, sent: bool, strict: bool)
    requires Approved(s, strict) && (s.phase == AwaitingApproval <==> status == Denied)
    requires strict ==> status != Broken && !(Validates(s, status, review) && review.Unreadable?)
    requires strict ==>
      sent || (Validates(s, status, review) && review.Refuses? && s.rounds + 1 < s.maxRounds)
    ensures Inv(Finish(s, status, review, candidates, sent), strict)
  {
    if !strict { ApprovedIsKept(s); }
    if status != Broken {
      if !Validates(s, status, review) {
        CloseApprovedKeeps(s, sent, strict);
      } else if !review.Unreadable? {
        var s1 := Reviewed(s, review.Approves?);
        ReviewKeeps(s, review.Approves?, strict);
        if review.Approves? || s1.rounds >= s1.maxRounds {
          CloseApprovedKeeps(s1, sent, strict);
        } else {
          RefusalClears(s, strict);
          SolicitKeeps(ClearNegotiation(s1, EMPTY_PLAN), candidates, sent, strict);
        }
      }
    }
  }

  lemma RefusalClears(s: State, strict: bool)
    requires Approved(s, strict) && s.phase == Execution && s.rounds + 1 < s.maxRounds
    ensures Cleared(ClearNegotiation(Reviewed(s, false), EMPTY_PLAN), strict)
  {
  }

  lemma {:induction false} AcceptKeeps(s: State, status: ExecutionStatus, review: Review, now: int,
                    candidates: Option<seq<Candidate>>, sent: bool, strict: bool)
    requires Inv(s, strict) && s.phase == AwaitingApproval
    requires strict ==> !AcceptBreaks(s, status, review, sent)
    ensures Inv(HandleAccept(s, status, review, now, candidates, sent), strict)
  {
    ExecuteKeeps(s, status, now, strict);
    FinishKeeps(Execute(s, status, now), status, review, candidates, sent, strict);
  }

  /** A requester's renegotiation starts a cycle within the count. */
  lemma ClearedByRequester(s: State, strict: bool)
    requires Inv(s, strict) && s.phase != Dissolved && s.plan.renegotiationRound < MAX_RENEGOTIATIONS
    ensures Cleared(Renewed(s), strict)
  {
  }

  lemma {:induction false} RenegotiateKeeps(s: State, candidates: Option<seq<Candidate>>, sent: bool, strict: bool)
    requires Inv(s, strict) && s.phase != Dissolved
    ensures Inv(Renegotiate(s, candidates, sent), strict)
  {
    if s.plan.renegotiationRound < MAX_RENEGOTIATIONS {
      ClearedByRequester(s, strict);
      SolicitKeeps(Renewed(s), candidates, sent, strict);
    } else {
      RejectKeeps(s, sent, strict);
    }
  }

  lemma RejectKeeps(s: State, sent: bool, strict: bool)
    requires Inv(s, strict) && s.phase != Dissolved
    ensures Inv(Close(s, sent), strict)
  {
    CountedWithinLimit(s);
    DissolveKeeps(s, strict);
  }

  /** Every handled message keeps the invariant, also when its handler breaks off;
      the strict form is kept by the handlers that do not. */
  lemma {:induction false} StepKeeps(s: State, e: Engine, event: Event, strict: bool)
    requires Inv(s, strict) && (strict ==> !BreaksOff(s, e, event))
    ensures Inv(Session.Step(s, e, event), strict)
  {
    if s.phase != Dissolved && event.heard {
      match event
      case OfferMade(_, _, _, _, _, _, _) => OfferKeeps(s, e, event, strict);
      case AcceptSent(_, status, review, now, candidates, sent) =>
        if s.phase == AwaitingApproval { AcceptKeeps(s, status, review, now, candidates, sent, strict); }
      case RejectSent(_, _, _, candidates, sent) =>
        RenegotiateKeeps(s, candidates, sent, strict);
        RejectKeeps(s, sent, strict);
    }
  }

  /** The opening state of a session. */
  ghost predicate Opened(s: State) {
    exists claims, authority, validated, maxRounds, admitted, subIntents, candidates, sent ::
      s == Session.Open(claims, authority, validated, maxRounds, admitted, subIntents, candidates, sent)
  }

  lemma NewKeeps(claims: seq<string>, authority: seq<string>, validated: bool, maxRounds: int, sent: bool, strict: bool)
    ensures Inv(Close(NewSession(claims, authority, validated, maxRounds), sent), strict)
  {
    var s := NewSession(claims, authority, validated, maxRounds);
    assert s.notes[..0] == [];
    assert Cycles(s.notes) == 0;
    DissolveKeeps(s, strict);
  }

  lemma AdmittedIsCleared(claims: seq<string>, authority: seq<string>, validated: bool, maxRounds: int,
                          subIntents: Json, strict: bool)
    ensures var s := Admitted(NewSession(claims, authority, validated, maxRounds), subIntents);
      Cleared(s, strict) && Inv(s, strict)
  {
    var s := NewSession(claims, authority, validated, maxRounds);
    assert s.notes[..0] == [];
    assert Cycles(s.notes) == 0;
  }

  lemma {:induction false} AdmittedKeeps(s: State, subIntents: Option<Json>, candidates: Option<seq<Candidate>>,
                                         sent: bool, strict: bool)
    requires s == NewSession(s.claims, s.authority, s.validated, s.maxRounds)
    ensures subIntents.None? ==> Inv(Admitted(s, JNull), strict)
    ensures subIntents.Some? ==> Inv(Solicit(Admitted(s, subIntents.value), candidates, sent), strict)
  {
    var json := if subIntents.Some? then subIntents.value else JNull;
    AdmittedIsCleared(s.claims, s.authority, s.validated, s.maxRounds, json, strict);
    SolicitKeeps(Admitted(s, json), candidates, sent, strict);
  }

  lemma {:induction false} OpeningKeeps(claims: seq<string>, authority: seq<string>, validated: bool, maxRounds: int,
                                        admitted: Option<bool>, subIntents: Option<Json>,
                                        candidates: Option<seq<Candidate>>, sent: bool, strict: bool)
    ensures Inv(Session.Open(claims, authority, validated, maxRounds, admitted, subIntents, candidates, sent), strict)
  {
    NewKeeps(claims, authority, validated, maxRounds, admitted.Some? && sent, strict);
    AdmittedKeeps(NewSession(claims, authority, validated, maxRounds), subIntents, candidates, sent, strict);
  }

  lemma {:induction false} OpenKeeps(s: State, strict: bool)
    requires Opened(s)
    ensures Inv(s, strict)
  {
    var claims, authority, validated, maxRounds, admitted, subIntents, candidates, sent :|
      s == Session.Open(claims, authority, validated, maxRounds, admitted, subIntents, candidates, sent);
    OpeningKeeps(claims, authority, validated, maxRounds, admitted, subIntents, candidates, sent, strict);
  }

  /** No handler of the run breaks off after an evaluation or a start. */
  ghost predicate Unbroken(s: State, e: Engine, events: seq<Event>) {
    forall k :: 0 <= k < |events| ==> !BreaksOff(Run(s, e, events[..k]), e, events[k])
  }

  lemma UnbrokenPrefix(s: State, e: Engine, events: seq<Event>)
    requires events != [] && Unbroken(s, e, events)
    ensures Unbroken(s, e, events[..|events| - 1])
  {
    var init := events[..|events| - 1];
    forall k | 0 <= k < |init| ensures !BreaksOff(Run(s, e, init[..k]), e, init[k]) {
      assert init[..k] == events[..k] && init[k] == events[k];
    }
  }

  lemma {:induction false} RunKeeps(s: State, e: Engine, events: seq<Event>, strict: bool)
    requires Opened(s) && (strict ==> Unbroken(s, e, events))
    ensures Inv(Run(s, e, events), strict)
  {
    if events == [] {
      OpenKeeps(s, strict);
    } else {
      if strict { UnbrokenPrefix(s, e, events); }
      RunKeeps(s, e, events[..|events| - 1], strict);
      StepKeeps(Run(s, e, events[..|events| - 1]), e, events[|events| - 1], strict);
    }
  }

  // ------------------------------------------------------------------
  // What breaking off is
  // ------------------------------------------------------------------

  /** Live, with an evaluation, a refusal or a start as the last thing that happened. */
  ghost predicate Unfinished(s: State) {
    && s.phase != Dissolved && s.notes != []
    && (Last(s.notes).Evaluated? || Last(s.notes).Declined? || Last(s.notes).Started?)
  }

  lemma EndIsFinished(s: State, sent: bool)
    requires s.phase != Dissolved
    ensures Unfinished(Close(s, sent)) <==> !sent && Unfinished(s)
  {
  }

  lemma SolicitIsFinished(s: State, candidates: Option<seq<Candidate>>, sent: bool)
    requires s.phase != Dissolved
    ensures !Unfinished(Solicit(s, candidates, sent))
  {
  }

  lemma {:induction false} EvaluationBreaksExactly(s: State, e: Engine, gate: nat -> Option<bool>, order: OrderAnswer,
                                                   sent: bool)
    requires BarrierPasses(s)
    ensures Unfinished(TryConverge(s, e, gate, order, sent)) <==> EvaluationBreaks(s, e, gate, order, sent)
  {
    var s1 := Evaluate(s, e, gate);
    if !GateRaises(s.offers, gate) {
      SettleCases(s1, e, InitialEntropy(s, e), order, sent);
      ProposeBreaksExactly(s1, order, sent);
      ProposeBreaksExactly(NextRound(s1), order, sent);
      EndIsFinished(NextRound(s1), sent);
    }
  }

  lemma ProposeBreaksExactly(s: State, order: OrderAnswer, sent: bool)
    requires s.phase != Dissolved && s.notes != [] && Last(s.notes) == Evaluated
    ensures Unfinished(Propose(s, order, sent)) <==>
      !sent || OrderSteps(ComposeOffers(s.offers), s.plan.subIntents, order).Raised?
  {
  }

  lemma {:induction false} AcceptBreaksExactly(s: State, status: ExecutionStatus, review: Review, now: int,
                                               candidates: Option<seq<Candidate>>, sent: bool)
    requires s.phase == AwaitingApproval && s.plan.viable
    ensures Unfinished(HandleAccept(s, status, review, now, candidates, sent)) <==>
      AcceptBreaks(s, status, review, sent)
  {
    var s1 := Execute(s, status, now);
    var s2 := Reviewed(s1, review.Approves?);
    EndIsFinished(s1, sent);
    EndIsFinished(s2, sent);
    SolicitIsFinished(ClearNegotiation(s2, EMPTY_PLAN), candidates, sent);
  }

  lemma {:induction false} OfferBreaksExactly(s: State, e: Engine, event: Event)
    requires Inv(s, true) && s.phase != Dissolved && event.heard && event.OfferMade?
    ensures Unfinished(Session.Step(s, e, event)) <==> BreaksOff(s, e, event)
  {
    var s1 := ReceiveOffer(s, event.agent, event.offer, event.eligible);
    if BarrierPasses(s1) {
      EvaluationBreaksExactly(s1, e, event.gate, event.order, event.sent);
    }
  }

  lemma RejectNeverBreaks(s: State, e: Engine, event: Event)
    requires Inv(s, true) && s.phase != Dissolved && event.heard && event.RejectSent?
    ensures !Unfinished(Session.Step(s, e, event))
  {
    EndIsFinished(s, event.sent);
    SolicitIsFinished(Renewed(s), event.candidates, event.sent);
  }

  /** A handler breaks off exactly when it leaves the session live with an evaluation
      brought to no proposal, or an approval brought to nothing. */
  lemma {:induction false} BreaksExactly(s: State, e: Engine, event: Event)
    requires Inv(s, true)
    ensures Unfinished(Session.Step(s, e, event)) <==> BreaksOff(s, e, event)
  {
    if s.phase != Dissolved && event.heard {
      match event
      case OfferMade(_, _, _, _, _, _, _) => OfferBreaksExactly(s, e, event);
      case AcceptSent(_, status, review, now, candidates, sent) =>
        if s.phase == AwaitingApproval { AcceptBreaksExactly(s, status, review, now, candidates, sent); }
      case RejectSent(_, _, _, _, _) => RejectNeverBreaks(s, e, event);
    }
  }
}
