/** One session as a transition system. A handler is one step; what a model, an
    access decision or an agent answers is part of the event. */
module Session {
  import opened Options
  import opened Json
  import opened Entropy
  import opened Negotiation
  import Scopes
  import Delegation

  const MAX_RENEGOTIATIONS := 3

  datatype Phase = Created | IntentReceived | Discovery | Negotiating | AwaitingApproval | Execution | Dissolved

  datatype Plan = Plan(subIntents: Json, initialEntropy: Option<real>, round: nat, renegotiationRound: nat,
                       steps: seq<Step>, viable: bool)

  const EMPTY_PLAN := Plan(JNull, None, 0, 0, [], false)

  /** What a session leaves behind for an observer, in order: `Asked` when its intent
      arrives, `Declined` when the supervisor is not authorised to start. */
  datatype Note = Asked | Solicited | Evaluated | Proposed(steps: seq<Step>) | Declined(steps: seq<Step>)
                | Started(steps: seq<Step>) | Ended

  datatype Round = Round(number: nat, approved: bool)

  datatype State = State(
    phase: Phase,
    claims: seq<string>, authority: seq<string>, validated: bool, maxRounds: int,
    discovered: seq<string>, solicited: seq<string>,
    offers: seq<NegotiationRecord>, accepted: seq<string>, plan: Plan,
    capability: Option<Delegation.Capability>,
    rounds: nat, history: seq<Round>,
    notes: seq<Note>)

  /** No live connection, or an intent is sent; the send may raise. */
  datatype Contact = Absent | Reached | SendRaises

  datatype Candidate = Candidate(agent: string, contact: Contact)

  /** What the supervisor ends with. `Broken` is an exception after the start: an
      answer of the scoring or the synthesis model that is no object, for one. */
  datatype ExecutionStatus = Denied | Failed | PartialFailure | Success | Broken

  /** `Unreadable` is an answer of the validator that is no object, which raises. */
  datatype Review = NoValidator | Approves | Refuses | Unreadable

  /** A message, with what everything asked on its account answers. `heard` is false
      when its handler raises before it changes the session: a malformed payload, a
      decision or a send that fails. `candidates` is None when discovery raises.
      `gate(i)` is the acceptance decision for the i-th offer, None an exception.
      `sent` is false when a message the handler ends with, or a notice of the
      dissolution, cannot be sent: the handler breaks off there. */
  datatype Event =
    | OfferMade(heard: bool, agent: string, offer: Offer, eligible: bool, gate: nat -> Option<bool>,
                order: OrderAnswer, sent: bool)
    | AcceptSent(heard: bool, status: ExecutionStatus, review: Review, now: int,
                 candidates: Option<seq<Candidate>>, sent: bool)
    | RejectSent(heard: bool, byRequester: bool, renegotiate: bool, candidates: Option<seq<Candidate>>, sent: bool)

  // ------------------------------------------------------------------
  // Pieces
  // ------------------------------------------------------------------

  function Note1(s: State, note: Note): State {
    s.(notes := s.notes + [note])
  }

  function Dissolve(s: State): State {
    if s.phase == Dissolved then s else Note1(s, Ended).(phase := Dissolved)
  }

  /** The end of a session, if everyone can be told. */
  function Close(s: State, sent: bool): State {
    if sent then Dissolve(s) else s
  }

  function Names(candidates: seq<Candidate>): seq<string> {
    if candidates == [] then [] else [candidates[0].agent] + Names(candidates[1..])
  }

  /** The agents asked for offers: those connected, up to the first whose send raises. */
  function Contacted(candidates: seq<Candidate>): seq<string> {
    if candidates == [] then []
    else match candidates[0].contact
      case Absent => Contacted(candidates[1..])
      case Reached => [candidates[0].agent] + Contacted(candidates[1..])
      case SendRaises => [candidates[0].agent]
  }

  /** Discovery and the request for offers. */
  function Solicit(s: State, candidates: Option<seq<Candidate>>, sent: bool): State {
    var s1 := Note1(s, Solicited).(phase := Discovery);
    if candidates.None? then s1
    else
      var s2 := s1.(discovered := Names(candidates.value));
      if candidates.value == [] then Close(s2, sent)
      else s2.(phase := Negotiating, solicited := s2.solicited + Contacted(candidates.value))
  }

  function NewSession(claims: seq<string>, authority: seq<string>, validated: bool, maxRounds: int): State {
    State(Created, claims, authority, validated, maxRounds, [], [], [], [], EMPTY_PLAN, None, 0, [], [Asked])
  }

  function Admitted(s: State, subIntents: Json): State {
    s.(phase := IntentReceived, plan := EMPTY_PLAN.(subIntents := subIntents))
  }

  /** The session an intent opens. The admission decision and the decomposition may
      each raise (None), which leaves the session where it is. */
  function Open(claims: seq<string>, authority: seq<string>, validated: bool, maxRounds: int,
                admitted: Option<bool>, subIntents: Option<Json>, candidates: Option<seq<Candidate>>, sent: bool): State
  {
    var s := NewSession(claims, authority, validated, maxRounds);
    if admitted.None? then s
    else if !admitted.value then Close(s, sent)
    else if subIntents.None? then Admitted(s, JNull)
    else Solicit(Admitted(s, subIntents.value), candidates, sent)
  }

  function Expected(s: State): set<string> {
    if s.solicited != [] then set a | a in s.solicited else set a | a in s.discovered
  }

  function Responded(offers: seq<NegotiationRecord>): set<string> {
    set i | 0 <= i < |offers| :: offers[i].agent
  }

  predicate RaisesAt(offers: seq<NegotiationRecord>, i: nat, gate: nat -> Option<bool>)
    requires i < |offers|
  {
    offers[i].status == Pending && gate(i).None?
  }

  /** Where the gate raises, from `i` on; the length if it does not. */
  function StopFrom(offers: seq<NegotiationRecord>, i: nat, gate: nat -> Option<bool>): (stop: nat)
    requires i <= |offers|
    ensures i <= stop <= |offers|
    ensures forall j :: i <= j < stop ==> !RaisesAt(offers, j, gate)
    ensures stop < |offers| ==> RaisesAt(offers, stop, gate)
    decreases |offers| - i
  {
    if i == |offers| || RaisesAt(offers, i, gate) then i else StopFrom(offers, i + 1, gate)
  }

  function Stop(offers: seq<NegotiationRecord>, gate: nat -> Option<bool>): nat {
    StopFrom(offers, 0, gate)
  }

  predicate GateRaises(offers: seq<NegotiationRecord>, gate: nat -> Option<bool>) {
    Stop(offers, gate) < |offers|
  }

  function Decided(record: NegotiationRecord, allowed: Option<bool>): NegotiationRecord {
    if record.status != Pending || allowed.None? then record
    else record.(status := if allowed.value then Accepted else Rejected)
  }

  /** The first `n` offers decided, the others as they were. */
  function DecidedTo(offers: seq<NegotiationRecord>, n: nat, gate: nat -> Option<bool>): (r: seq<NegotiationRecord>)
    ensures |r| == |offers|
    ensures forall i :: 0 <= i < |r| ==> r[i] == if i < n then Decided(offers[i], gate(i)) else offers[i]
  {
    seq(|offers|, i requires 0 <= i < |offers| => if i < n then Decided(offers[i], gate(i)) else offers[i])
  }

  /** The agents the gate lets in among the first `n`, in offer order. */
  function LetInTo(offers: seq<NegotiationRecord>, n: nat, gate: nat -> Option<bool>): seq<string>
    requires n <= |offers|
  {
    if n == 0 then [] else LetInTo(offers, n - 1, gate) + OneLetIn(offers[n - 1], gate(n - 1))
  }

  function OneLetIn(record: NegotiationRecord, allowed: Option<bool>): seq<string> {
    if record.status == Pending && allowed == Some(true) then [record.agent] else []
  }

  /** The acceptance gate over the pending offers, up to where it raises. */
  function Gated(offers: seq<NegotiationRecord>, gate: nat -> Option<bool>): seq<NegotiationRecord> {
    DecidedTo(offers, Stop(offers, gate), gate)
  }

  function LetIn(offers: seq<NegotiationRecord>, gate: nat -> Option<bool>): seq<string> {
    LetInTo(offers, Stop(offers, gate), gate)
  }

  /** Every solicited agent has answered, and no proposal is out. */
  predicate BarrierPasses(s: State) {
    s.phase !in {AwaitingApproval, Dissolved} && Expected(s) <= Responded(s.offers)
  }

  /** The first evaluation of a cycle fixes the initial entropy. */
  function InitialEntropy(s: State, e: Engine): real {
    if s.plan.initialEntropy.Some? then s.plan.initialEntropy.value
    else SemanticEntropy(e.ln, Statuses(s.offers))
  }

  /** The proposal is out when the send went well. */
  function SendPlan(s: State, sent: bool): State {
    if sent then Note1(s, Proposed(s.plan.steps)).(phase := AwaitingApproval) else s
  }

  /** The plan is stored before it is sent. */
  function Propose(s: State, order: OrderAnswer, sent: bool): State {
    var steps := ComposeOffers(s.offers);
    var ordering := OrderSteps(steps, s.plan.subIntents, order);
    if ordering.Raised? then s
    else
      var s1 := s.(plan := s.plan.(steps := ordering.steps, viable := steps != []));
      if steps == [] then Close(s1, sent) else SendPlan(s1, sent)
  }

  /** The state after the gate, before convergence is tested. */
  function Evaluate(s: State, e: Engine, gate: nat -> Option<bool>): State {
    Note1(s, Evaluated).(
      plan := s.plan.(initialEntropy := Some(InitialEntropy(s, e))),
      offers := Gated(s.offers, gate),
      accepted := s.accepted + LetIn(s.offers, gate))
  }

  function NextRound(s: State): State {
    s.(plan := s.plan.(round := s.plan.round + 1))
  }

  function FallBack(s: State, fallback: Option<Fallback>, order: OrderAnswer, sent: bool): State {
    if fallback != Some(Solidification) && AcceptedAgents(s.offers) != [] then Propose(s, order, sent)
    else Close(s, sent)
  }

  function Settle(s: State, e: Engine, initial: real, order: OrderAnswer, sent: bool): State {
    if CheckConvergence(e, s.offers, initial) then Propose(s, order, sent)
    else FallBack(NextRound(s), NeedsFallback(e, s.plan.round + 1, s.offers, initial), order, sent)
  }

  function TryConverge(s: State, e: Engine, gate: nat -> Option<bool>, order: OrderAnswer, sent: bool): State {
    if !BarrierPasses(s) then s
    else if GateRaises(s.offers, gate) then Evaluate(s, e, gate)
    else Settle(Evaluate(s, e, gate), e, InitialEntropy(s, e), order, sent)
  }

  function ReceiveOffer(s: State, agent: string, offer: Offer, eligible: bool): State {
    s.(offers := s.offers + [NegotiationRecord(agent, offer, if eligible then Pending else Rejected)])
  }

  /** The capability an authorised execution issues. */
  function IssuedCapability(s: State, now: int): Delegation.Capability {
    Delegation.Issue(AcceptedAgents(s.offers), Scopes.Narrow(s.claims, s.authority), now,
                     Delegation.DEFAULT_TTL_SECONDS)
  }

  /** The supervisor starts if it is authorised to. */
  function Execute(s: State, status: ExecutionStatus, now: int): State {
    if status == Denied then Note1(s, Declined(s.plan.steps))
    else Note1(s, Started(s.plan.steps)).(capability := Some(IssuedCapability(s, now)), phase := Execution)
  }

  function Reviewed(s: State, approved: bool): State {
    s.(rounds := s.rounds + 1, history := s.history + [Round(s.rounds + 1, approved)])
  }

  function ClearNegotiation(s: State, plan: Plan): State {
    s.(offers := [], accepted := [], solicited := [], plan := plan)
  }

  /** Whether the validator is asked about an execution that ended so. */
  predicate Validates(s: State, status: ExecutionStatus, review: Review) {
    s.validated && status in {Success, PartialFailure} && !review.NoValidator?
  }

  function Finish(s: State, status: ExecutionStatus, review: Review, candidates: Option<seq<Candidate>>,
                  sent: bool): State
  {
    if status == Broken then s
    else if !Validates(s, status, review) then Close(s, sent)
    else if review.Unreadable? then s
    else
      var s1 := Reviewed(s, review.Approves?);
      if review.Approves? || s1.rounds >= s1.maxRounds then Close(s1, sent)
      else Solicit(ClearNegotiation(s1, EMPTY_PLAN), candidates, sent)
  }

  function HandleAccept(s: State, status: ExecutionStatus, review: Review, now: int,
                        candidates: Option<seq<Candidate>>, sent: bool): State
  {
    if !s.plan.viable then Close(s, sent)
    else Finish(Execute(s, status, now), status, review, candidates, sent)
  }

  /** Another renegotiation keeps nothing of the plan but how many there were. */
  function Renewed(s: State): State {
    ClearNegotiation(s, EMPTY_PLAN.(renegotiationRound := s.plan.renegotiationRound + 1))
  }

  function Renegotiate(s: State, candidates: Option<seq<Candidate>>, sent: bool): State {
    if s.plan.renegotiationRound + 1 > MAX_RENEGOTIATIONS then Close(s, sent)
    else Solicit(Renewed(s), candidates, sent)
  }

  /** One handled message. A dissolved session is gone, so nothing reaches it. */
  function Step(s: State, e: Engine, event: Event): State {
    if s.phase == Dissolved || !event.heard then s
    else match event
      case OfferMade(_, agent, offer, eligible, gate, order, sent) =>
        TryConverge(ReceiveOffer(s, agent, offer, eligible), e, gate, order, sent)
      case AcceptSent(_, status, review, now, candidates, sent) =>
        if s.phase != AwaitingApproval then s else HandleAccept(s, status, review, now, candidates, sent)
      case RejectSent(_, byRequester, renegotiate, candidates, sent) =>
        if byRequester && renegotiate then Renegotiate(s, candidates, sent) else Close(s, sent)
  }

  /** A run: the messages handled, oldest first. */
  function Run(s: State, e: Engine, events: seq<Event>): State {
    if events == [] then s else Step(Run(s, e, events[..|events| - 1]), e, events[|events| - 1])
  }

  // ------------------------------------------------------------------
  // Handlers that break off
  // ------------------------------------------------------------------

  /** The evaluation of a cycle comes to proposing a plan. */
  predicate ComesToPropose(s: State, e: Engine, initial: real) {
    CheckConvergence(e, s.offers, initial)
    || (NeedsFallback(e, s.plan.round + 1, s.offers, initial) != Some(Solidification) && AcceptedAgents(s.offers) != [])
  }

  /** An evaluation that starts is not brought to a proposal or the end. */
  predicate EvaluationBreaks(s: State, e: Engine, gate: nat -> Option<bool>, order: OrderAnswer, sent: bool) {
    && BarrierPasses(s)
    && (|| GateRaises(s.offers, gate)
        || !sent
        || (var s1 := Evaluate(s, e, gate);
            ComesToPropose(s1, e, InitialEntropy(s, e))
            && OrderSteps(ComposeOffers(s1.offers), s1.plan.subIntents, order).Raised?))
  }

  /** An execution is approved, and its handling is brought neither to the end nor to
      another cycle. */
  predicate AcceptBreaks(s: State, status: ExecutionStatus, review: Review, sent: bool) {
    && s.phase == AwaitingApproval && s.plan.viable
    && (|| status == Broken
        || (Validates(s, status, review) && review.Unreadable?)
        || (!sent && !(Validates(s, status, review) && review.Refuses? && s.rounds + 1 < s.maxRounds)))
  }

  predicate BreaksOff(s: State, e: Engine, event: Event) {
    s.phase != Dissolved && event.heard &&
    match event
    case OfferMade(_, agent, offer, eligible, gate, order, sent) =>
      EvaluationBreaks(ReceiveOffer(s, agent, offer, eligible), e, gate, order, sent)
    case AcceptSent(_, status, review, _, _, sent) => AcceptBreaks(s, status, review, sent)
    case RejectSent(_, _, _, _, _) => false
  }
}
