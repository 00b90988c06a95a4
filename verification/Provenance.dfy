/** Where the offers of a session come from: which message made each record, and which
    decision accepted it. */
module Provenance {
  import opened Options
  import opened Json
  import opened Negotiation
  import opened Session
  import opened SessionRuns

  /** An offer message that was handled. */
  predicate IsOffer(event: Event) {
    event.OfferMade? && event.heard
  }

  /** The record is that offer's, and rejected from the start if it was not eligible. */
  predicate MadeBy(record: NegotiationRecord, event: Event) {
    && IsOffer(event) && record.agent == event.agent && record.offer == event.offer
    && (!event.eligible ==> record.status == Rejected)
  }

  /** At message `j` the gate let the `k`-th offer in. */
  predicate LetsIn(events: seq<Event>, j: nat, k: nat) {
    j < |events| && IsOffer(events[j]) && events[j].gate(k) == Some(true)
  }

  predicate KeepsOut(events: seq<Event>, j: nat, k: nat) {
    j < |events| && IsOffer(events[j]) && events[j].gate(k) == Some(false)
  }

  /** The `k`-th record comes from message `i`. If it is accepted then because the offer
      was eligible and the decisions at that message or a later one let it in; if it is
      rejected then because it was not eligible, or they kept it out. */
  ghost predicate ComesFrom(events: seq<Event>, record: NegotiationRecord, k: nat, i: nat) {
    && i < |events| && MadeBy(record, events[i])
    && (record.status == Accepted ==> events[i].eligible && exists j :: i <= j && LetsIn(events, j, k))
    && (record.status == Rejected ==> !events[i].eligible || exists j :: i <= j && KeepsOut(events, j, k))
  }

  predicate Increasing(from: seq<nat>) {
    forall k, l :: 0 <= k < l < |from| ==> from[k] < from[l]
  }

  /** The number of cycles when message `i` arrived. */
  function CycleAt(s: State, e: Engine, events: seq<Event>, i: nat): nat
    requires i <= |events|
  {
    Cycles(Run(s, e, events[..i]).notes)
  }

  /** Message `i` is an offer to the live session in its present cycle. */
  ghost predicate OfThisCycle(s: State, e: Engine, events: seq<Event>, i: nat) {
    && i < |events| && IsOffer(events[i]) && Run(s, e, events[..i]).phase != Dissolved
    && CycleAt(s, e, events, i) == CycleAt(s, e, events, |events|)
  }

  /** These are the messages of the cycle. */
  ghost predicate CoversCycle(s: State, e: Engine, events: seq<Event>, from: seq<nat>) {
    forall i: nat :: i in from <==> OfThisCycle(s, e, events, i)
  }

  ghost predicate Records(events: seq<Event>, offers: seq<NegotiationRecord>, from: seq<nat>) {
    && |from| == |offers| && Increasing(from)
    && forall k :: 0 <= k < |from| ==> ComesFrom(events, offers[k], k, from[k])
  }

  // ------------------------------------------------------------------
  // One step
  // ------------------------------------------------------------------

  lemma SettleKeepsOffers(s: State, e: Engine, initial: real, order: OrderAnswer, sent: bool)
    ensures Settle(s, e, initial, order, sent).offers == s.offers
    ensures Cycles(Settle(s, e, initial, order, sent).notes) == Cycles(s.notes)
  {
    SettleCases(s, e, initial, order, sent);
    ProposeKeepsOffers(s, order, sent);
    ProposeKeepsOffers(NextRound(s), order, sent);
    CloseKeepsOffers(NextRound(s), sent);
  }

  lemma ProposeKeepsOffers(s: State, order: OrderAnswer, sent: bool)
    ensures Propose(s, order, sent).offers == s.offers && Cycles(Propose(s, order, sent).notes) == Cycles(s.notes)
  {
    var ordering := OrderSteps(ComposeOffers(s.offers), s.plan.subIntents, order);
    if ordering.Ordered? { CyclesAppend(s.notes, Proposed(ordering.steps)); }
    CyclesAppend(s.notes, Ended);
  }

  lemma CloseKeepsOffers(s: State, sent: bool)
    ensures Close(s, sent).offers == s.offers && Cycles(Close(s, sent).notes) == Cycles(s.notes)
  {
    CyclesAppend(s.notes, Ended);
  }

  /** Evaluating an offer decides the offers there are, and clears none. */
  lemma ConvergeEffect(s: State, e: Engine, gate: nat -> Option<bool>, order: OrderAnswer, sent: bool)
    ensures var t := TryConverge(s, e, gate, order, sent);
      && t.offers == (if BarrierPasses(s) then Gated(s.offers, gate) else s.offers)
      && Cycles(t.notes) == Cycles(s.notes)
  {
    if BarrierPasses(s) {
      CyclesAppend(s.notes, Evaluated);
      if !GateRaises(s.offers, gate) {
        SettleKeepsOffers(Evaluate(s, e, gate), e, InitialEntropy(s, e), order, sent);
      }
    }
  }

  /** The other messages leave the offers alone, or clear them and start a cycle. */
  ghost predicate KeepsOrClears(s: State, t: State) {
    || (t.offers == s.offers && Cycles(t.notes) == Cycles(s.notes))
    || (t.offers == [] && Cycles(t.notes) == Cycles(s.notes) + 1)
  }

  lemma SolicitClears(s: State, candidates: Option<seq<Candidate>>, sent: bool)
    ensures Solicit(s, candidates, sent).offers == s.offers
    ensures Cycles(Solicit(s, candidates, sent).notes) == Cycles(s.notes) + 1
  {
    CyclesAppend(s.notes, Solicited);
    if candidates.Some? && candidates.value == [] {
      CloseKeepsOffers(Note1(s, Solicited).(phase := Discovery, discovered := []), sent);
    }
  }

  lemma FinishEffect(s: State, status: ExecutionStatus, review: Review, candidates: Option<seq<Candidate>>, sent: bool)
    ensures KeepsOrClears(s, Finish(s, status, review, candidates, sent))
  {
    CloseKeepsOffers(s, sent);
    CloseKeepsOffers(Reviewed(s, review.Approves?), sent);
    SolicitClears(ClearNegotiation(Reviewed(s, review.Approves?), EMPTY_PLAN), candidates, sent);
  }

  lemma OtherEffect(s: State, e: Engine, event: Event)
    requires !IsOffer(event) || s.phase == Dissolved
    ensures KeepsOrClears(s, Session.Step(s, e, event))
  {
    if s.phase != Dissolved && event.heard {
      if event.AcceptSent? {
        var s1 := Execute(s, event.status, event.now);
        CyclesAppend(s.notes, Declined(s.plan.steps));
        CyclesAppend(s.notes, Started(s.plan.steps));
        FinishEffect(s1, event.status, event.review, event.candidates, event.sent);
        CloseKeepsOffers(s, event.sent);
      } else {
        SolicitClears(Renewed(s), event.candidates, event.sent);
        CloseKeepsOffers(s, event.sent);
      }
    }
  }

  lemma {:induction false} CyclesGrow(s: State, e: Engine, events: seq<Event>, i: nat)
    requires i <= |events|
    ensures CycleAt(s, e, events, i) <= CycleAt(s, e, events, |events|)
  {
    if i < |events| {
      var init, last := events[..|events| - 1], events[|events| - 1];
      CyclesGrow(s, e, init, i);
      assert events[..i] == init[..i] && init[..|init|] == init && events[..|events|] == events;
      StepCycles(Run(s, e, init), e, last);
    }
  }

  lemma StepCycles(s: State, e: Engine, event: Event)
    ensures Cycles(s.notes) <= Cycles(Session.Step(s, e, event).notes)
  {
    if IsOffer(event) && s.phase != Dissolved {
      ConvergeEffect(ReceiveOffer(s, event.agent, event.offer, event.eligible), e, event.gate, event.order, event.sent);
    } else {
      OtherEffect(s, e, event);
    }
  }

  // ------------------------------------------------------------------
  // Whole runs
  // ------------------------------------------------------------------

  lemma RecordsLater(events: seq<Event>, event: Event, offers: seq<NegotiationRecord>, from: seq<nat>)
    requires Records(events, offers, from)
    ensures Records(events + [event], offers, from)
  {
    var more := events + [event];
    forall k | 0 <= k < |from| ensures ComesFrom(more, offers[k], k, from[k]) {
      assert ComesFrom(events, offers[k], k, from[k]) && more[from[k]] == events[from[k]];
      if offers[k].status == Accepted {
        var j :| from[k] <= j && LetsIn(events, j, k);
        assert more[j] == events[j] && LetsIn(more, j, k);
      }
      if offers[k].status == Rejected && events[from[k]].eligible {
        var j :| from[k] <= j && KeepsOut(events, j, k);
        assert more[j] == events[j] && KeepsOut(more, j, k);
      }
    }
  }

  /** One offer more, and the decisions made when it arrived. */
  lemma RecordsOffer(events: seq<Event>, event: Event, offers: seq<NegotiationRecord>, from: seq<nat>,
                     status: Status, decided: seq<NegotiationRecord>)
    requires Records(events, offers, from) && IsOffer(event)
    requires status != Accepted && (!event.eligible ==> status == Rejected) && (event.eligible ==> status == Pending)
    requires var all := offers + [NegotiationRecord(event.agent, event.offer, status)];
      decided == all || decided == Gated(all, event.gate)
    ensures Records(events + [event], decided, from + [|events|])
  {
    var more, i := events + [event], |events|;
    var all, froms := offers + [NegotiationRecord(event.agent, event.offer, status)], from + [|events|];
    RecordsLater(events, event, offers, from);
    assert more[i] == event;
    forall k | 0 <= k < |froms| ensures ComesFrom(more, decided[k], k, froms[k]) {
      assert k < |from| ==> ComesFrom(more, offers[k], k, froms[k]) && all[k] == offers[k];
      if decided[k].status == Accepted && all[k].status != Accepted {
        assert LetsIn(more, i, k);
      }
      if decided[k].status == Rejected && all[k].status != Rejected {
        assert KeepsOut(more, i, k);
      }
    }
  }

  /** On every run the records of a session are the offers it heard in the present cycle,
      in order, each once; an ineligible one is rejected and stays so; and an accepted
      one was eligible, and let in by the gate at a message that came with it or later. */
  lemma {:induction false} OffersComeFromMessages(s: State, e: Engine, events: seq<Event>) returns (from: seq<nat>)
    requires Opened(s)
    ensures Records(events, Run(s, e, events).offers, from)
    ensures CoversCycle(s, e, events, from)
  {
    if events == [] {
      OpenHasNoOffers(s);
      from := [];
    } else {
      var before := OffersComeFromMessages(s, e, events[..|events| - 1]);
      from := NextMessage(s, e, events, before);
    }
  }

  lemma {:induction false} NextMessage(s: State, e: Engine, events: seq<Event>, before: seq<nat>)
      returns (from: seq<nat>)
    requires events != []
    requires var init := events[..|events| - 1];
      Records(init, Run(s, e, init).offers, before) && CoversCycle(s, e, init, before)
    ensures Records(events, Run(s, e, events).offers, from)
    ensures CoversCycle(s, e, events, from)
  {
    var init, last := events[..|events| - 1], events[|events| - 1];
    assert events == init + [last];
    if IsOffer(last) && Run(s, e, init).phase != Dissolved {
      NextOffer(Run(s, e, init), e, init, last, before);
      SameCycle(s, e, events, before);
      from := before + [|init|];
    } else {
      OtherEffect(Run(s, e, init), e, last);
      if Cycles(Run(s, e, events).notes) == Cycles(Run(s, e, init).notes) {
        NextOther(Run(s, e, init), e, init, last, before);
        SameCycle(s, e, events, before);
        from := before;
      } else {
        NewCycle(s, e, events);
        from := [];
      }
    }
  }

  lemma NextOther(s: State, e: Engine, events: seq<Event>, event: Event, from: seq<nat>)
    requires Records(events, s.offers, from) && (!IsOffer(event) || s.phase == Dissolved)
    requires Cycles(Session.Step(s, e, event).notes) == Cycles(s.notes)
    ensures Records(events + [event], Session.Step(s, e, event).offers, from)
  {
    OtherEffect(s, e, event);
    RecordsLater(events, event, s.offers, from);
  }

  lemma NextOffer(s: State, e: Engine, events: seq<Event>, event: Event, from: seq<nat>)
    requires Records(events, s.offers, from) && IsOffer(event) && s.phase != Dissolved
    ensures Records(events + [event], Session.Step(s, e, event).offers, from + [|events|])
    ensures Cycles(Session.Step(s, e, event).notes) == Cycles(s.notes)
  {
    var r := ReceiveOffer(s, event.agent, event.offer, event.eligible);
    ConvergeEffect(r, e, event.gate, event.order, event.sent);
    RecordsOffer(events, event, s.offers, from, if event.eligible then Pending else Rejected,
                 Session.Step(s, e, event).offers);
  }

  lemma OpenHasNoOffers(s: State)
    requires Opened(s)
    ensures s.offers == []
  {
  }

  /** A message that starts no cycle adds itself to those of this cycle, if anything. */
  lemma SameCycle(s: State, e: Engine, events: seq<Event>, before: seq<nat>)
    requires events != [] && CoversCycle(s, e, events[..|events| - 1], before)
    requires Cycles(Run(s, e, events).notes) == Cycles(Run(s, e, events[..|events| - 1]).notes)
    ensures var init, last := events[..|events| - 1], events[|events| - 1];
      CoversCycle(s, e, events,
                  if IsOffer(last) && Run(s, e, init).phase != Dissolved then before + [|init|] else before)
  {
    var init, last := events[..|events| - 1], events[|events| - 1];
    var from := if IsOffer(last) && Run(s, e, init).phase != Dissolved then before + [|init|] else before;
    forall i: nat ensures i in from <==> OfThisCycle(s, e, events, i) {
      assert i in before <==> OfThisCycle(s, e, init, i);
      if i < |init| {
        EarlierInCycle(s, e, events, i);
      } else if i == |init| {
        assert events[..i] == init && events[..|events|] == events;
      }
    }
  }

  lemma EarlierInCycle(s: State, e: Engine, events: seq<Event>, i: nat)
    requires i + 1 < |events|
    requires Cycles(Run(s, e, events).notes) == Cycles(Run(s, e, events[..|events| - 1]).notes)
    ensures OfThisCycle(s, e, events, i) <==> OfThisCycle(s, e, events[..|events| - 1], i)
  {
    var init := events[..|events| - 1];
    assert init[..|init|] == init && events[..|events|] == events && events[..i] == init[..i];
  }

  lemma NewCycle(s: State, e: Engine, events: seq<Event>)
    requires events != []
    requires Cycles(Run(s, e, events).notes) == Cycles(Run(s, e, events[..|events| - 1]).notes) + 1
    ensures CoversCycle(s, e, events, [])
  {
    forall i: nat ensures !OfThisCycle(s, e, events, i) {
      if i < |events| { EarlierThanCycle(s, e, events, i); }
    }
  }

  lemma EarlierThanCycle(s: State, e: Engine, events: seq<Event>, i: nat)
    requires i < |events|
    requires Cycles(Run(s, e, events).notes) == Cycles(Run(s, e, events[..|events| - 1]).notes) + 1
    ensures CycleAt(s, e, events, i) < CycleAt(s, e, events, |events|)
  {
    var init := events[..|events| - 1];
    CyclesGrow(s, e, init, i);
    assert init[..|init|] == init && events[..|events|] == events && events[..i] == init[..i];
  }

  /** The `k`-th record of the session is an eligible offer of the agent, made in the
      present cycle by message `i`, and the gate let this very record in. */
  ghost predicate WasLetIn(s: State, e: Engine, events: seq<Event>, agent: string, i: nat, k: nat) {
    && OfThisCycle(s, e, events, i) && events[i].agent == agent && events[i].eligible
    && IsRecordOf(s, e, events, i, k)
    && exists j :: i <= j && LetsIn(events, j, k)
  }

  /** Message `i` is the `k`-th offer of its cycle. */
  ghost predicate IsRecordOf(s: State, e: Engine, events: seq<Event>, i: nat, k: nat) {
    exists from :: Records(events, Run(s, e, events).offers, from) && k < |from| && from[k] == i
  }

  lemma {:induction false} AcceptedComeFromMessages(s: State, e: Engine, events: seq<Event>, k: nat) returns (i: nat)
    requires Opened(s) && k < |Run(s, e, events).offers| && Run(s, e, events).offers[k].status == Accepted
    ensures var record := Run(s, e, events).offers[k];
      WasLetIn(s, e, events, record.agent, i, k) && events[i].offer == record.offer
  {
    var from := OffersComeFromMessages(s, e, events);
    i := from[k];
    assert ComesFrom(events, Run(s, e, events).offers[k], k, from[k]) && i in from;
    var j :| i <= j && LetsIn(events, j, k);
  }

  lemma {:induction false} AcceptedAt(offers: seq<NegotiationRecord>, agent: string) returns (k: nat)
    requires agent in AcceptedAgents(offers)
    ensures k < |offers| && offers[k].status == Accepted && offers[k].agent == agent
  {
    k := |offers| - 1;
    if !(offers[k].status == Accepted && offers[k].agent == agent) {
      k := AcceptedAt(offers[..k], agent);
    }
  }

  lemma {:induction false} ComposedAt(offers: seq<NegotiationRecord>, step: Negotiation.Step) returns (k: nat)
    requires step in ComposeOffers(offers)
    ensures k < |offers| && offers[k].status == Accepted && step == Negotiation.Step(offers[k].agent, offers[k].offer)
  {
    k := |offers| - 1;
    if !(offers[k].status == Accepted && step == Negotiation.Step(offers[k].agent, offers[k].offer)) {
      k := ComposedAt(offers[..k], step);
    }
  }

  /** On every run, every agent a live session has accepted made an eligible offer in the
      present cycle that the gate let in. */
  lemma {:induction false} AcceptedWereEligible(s: State, e: Engine, events: seq<Event>, agent: string)
      returns (i: nat, k: nat)
    requires Opened(s) && Run(s, e, events).phase != Dissolved && agent in Run(s, e, events).accepted
    ensures WasLetIn(s, e, events, agent, i, k)
  {
    RunKeeps(s, e, events, false);
    k := AcceptedAt(Run(s, e, events).offers, agent);
    i := AcceptedComeFromMessages(s, e, events, k);
  }

  /** And every step of a proposal is such an offer. */
  lemma {:induction false} PlanStepsWereEligible(s: State, e: Engine, events: seq<Event>, step: Negotiation.Step)
      returns (i: nat, k: nat)
    requires Opened(s) && Run(s, e, events).phase == AwaitingApproval && step in Run(s, e, events).plan.steps
    ensures WasLetIn(s, e, events, step.agent, i, k) && events[i].offer == step.offer
  {
    RunKeeps(s, e, events, false);
    var t := Run(s, e, events);
    assert step in multiset(t.plan.steps);
    assert step in ComposeOffers(t.offers);
    k := ComposedAt(t.offers, step);
    i := AcceptedComeFromMessages(s, e, events, k);
  }

  // ------------------------------------------------------------------
  // Decisions
  // ------------------------------------------------------------------

  /** A message that starts no cycle leaves every record's agent and offer, and the status
      of those that have been decided: a rejected offer stays rejected, an accepted one
      accepted, until the negotiation is cleared. */
  lemma {:induction false} DecisionsStand(s: State, e: Engine, event: Event, k: nat)
    requires k < |s.offers| && Cycles(Session.Step(s, e, event).notes) == Cycles(s.notes)
    ensures k < |Session.Step(s, e, event).offers|
    ensures Stands(s.offers[k], Session.Step(s, e, event).offers[k])
  {
    if IsOffer(event) && s.phase != Dissolved {
      var r := ReceiveOffer(s, event.agent, event.offer, event.eligible);
      ConvergeEffect(r, e, event.gate, event.order, event.sent);
      GatedExactly(r.offers, event.gate, k);
    } else {
      OtherEffect(s, e, event);
    }
  }

  predicate Stands(before: NegotiationRecord, after: NegotiationRecord) {
    && after.agent == before.agent && after.offer == before.offer
    && (before.status != Pending ==> after.status == before.status)
  }

  /** The gate gets as far as the `k`-th offer. */
  predicate Reaches(offers: seq<NegotiationRecord>, gate: nat -> Option<bool>, k: nat)
    requires k < |offers|
  {
    forall j :: 0 <= j <= k && offers[j].status == Pending ==> gate(j).Some?
  }

  lemma GatedExactly(offers: seq<NegotiationRecord>, gate: nat -> Option<bool>, k: nat)
    requires k < |offers|
    ensures var r := Gated(offers, gate)[k];
      && Stands(offers[k], r)
      && (offers[k].status == Pending ==>
            r.status ==
              if !Reaches(offers, gate, k) then Pending else if gate(k) == Some(true) then Accepted else Rejected)
  {
    var stop := Stop(offers, gate);
    assert Gated(offers, gate)[k] == if k < stop then Decided(offers[k], gate(k)) else offers[k];
    if k < stop {
      forall j | 0 <= j <= k && offers[j].status == Pending ensures gate(j).Some? {
        assert !RaisesAt(offers, j, gate);
      }
    } else {
      assert offers[stop].status == Pending && gate(stop).None?;
    }
  }

  /** What an evaluation decides: up to the first pending offer about which the gate raises,
      the pending offers get its answers, and everything else keeps its status. */
  lemma {:induction false} EvaluationDecides(s: State, e: Engine, gate: nat -> Option<bool>, order: OrderAnswer,
                                             sent: bool, k: nat)
    requires BarrierPasses(s) && k < |s.offers|
    ensures var t := TryConverge(s, e, gate, order, sent);
      && |t.offers| == |s.offers|
      && t.offers[k].status ==
           if s.offers[k].status != Pending || !Reaches(s.offers, gate, k) then s.offers[k].status
           else if gate(k) == Some(true) then Accepted else Rejected
  {
    ConvergeEffect(s, e, gate, order, sent);
    GatedExactly(s.offers, gate, k);
  }
}
