# Agentic Bus: a verified model of the coordinator

Agentic Bus lets a requester state an intent, and a coordinator finds agents,
gathers their offers, composes a plan, has the requester approve it, executes it
under supervision, and then dissolves the session or negotiates again. This project
models the parts of that protocol where the promises span several functions or a
whole session, and proves them for every message sequence and every answer a
language model, an access decision or an agent may give.

| Dafny file | what it models |
|---|---|
| `Scopes.dfy` | scope names, the covers order, the two delegation filters, what a registration's scopes resolve to |
| `Delegation.dfy` | capabilities, and the chain from a requester's claims to the scopes sent on a dispatch |
| `ScopeGuard.dfy` | the grant object an execution carries, its ledger, and the coordinator's reconciliation of it |
| `Json.dfy`, `StepInputs.dfy`, `References.dfy` | JSON trees, the `$from` reference resolver, and what a reference stands for, said without it |
| `Shapes.dfy`, `ShapeTexts.dfy`, `Composition.dfy` | the shape describer and the composer built on it, what its texts can be relied on to say, and what composing comes to |
| `Ibac.dfy` | the three decision layers and their combination |
| `Entropy.dfy`, `EntropyFormula.dfy`, `Negotiation.dfy` | offer entropy and convergence, the entropy in one formula, plan composition, ordering, fallback |
| `Session.dfy`, `SessionRuns.dfy`, `SessionGuarantees.dfy`, `SessionSteps.dfy`, `Provenance.dfy`, `Coordinator.dfy` | the session as a transition system, its invariant, what every run guarantees, what each message does, where its offers come from, and the handlers as methods of an object that refine it |
| `GraphBuilder.dfy`, `Supervisor.dfy`, `Execution.dfy` | the chain a plan is built into, one invocation of it, the validation and retry loop around it, and what a successful execution of an approved proposal means |
| `Completions.dfy` | the table of executions awaiting a complete, under every interleaving |
| `AgentTasks.dfy` | the agent's tracked tasks, its semaphore, the steps of an execution, dissolve and stop, under every interleaving |

Two kinds of members carry the results. Objects the program updates in place are
classes (`Coordinator.SessionHandler`, `ScopeGuard.ScopeGrant`,
`ScopeGuard.ScopedResource`, `Completions.CompletionTable`,
`AgentTasks.BaseAgent`): each method's contract ties the whole new state to a
specification function of the old one. Lemmas then state what holds of that
specification on every run.

What a model, an access decision, a schema check, a keyword or pattern matcher, or an
agent answers is a parameter, and so is whether asking it, or sending, raises. A
message handler of a session is one step, also when an exception breaks it off half
way: nothing above the handler catches it but the transport, and the session stays
live in whatever state it had reached. `Session.BreaksOff` says exactly when that
happens to an evaluation or an approved execution, and the theorems that need it not
to happen say so. Completions and agent tasks are finer: there, events of concurrent
handlers interleave freely.

## Where the code and its documentation differ

The model follows the code. These differences are stated as theorems or visible in them.

- The docstring of `check_convergence` says the final entropy must be strictly below
  the threshold; the code compares with `<=`, and from a zero initial entropy that is
  what makes unanimity converge (`Entropy.ConvergenceIsUnanimity`).
- `order_steps` says it never raises. Sub-intents that are not objects, answers that
  cannot be sorted (null, objects, mixed kinds), and floats that rearrange the indices
  do raise; `Negotiation.OrderStepsRaisesExactly` is the exact condition and
  `SessionGuarantees.BreakReopensBarrier` its consequence for a session.
- The barrier is meant to evaluate a cycle once and to be closed while its plan runs. An
  evaluation that raises (at the gate, the order, or a send) leaves it open. So does an
  execution that raises after the start: a validator, scoring or synthesis answer that
  is no object is read outside any `try`, and the guard that ignores late offers names
  two phases and not EXECUTION, where such a session stays
  (`SessionGuarantees.BrokenAcceptReopensBarrier`, `SessionGuarantees.BrokenAcceptReachesFallback`,
  `SessionGuarantees.GuardOmitsExecution`).
- The supervisor says completed steps return cached results on a retry. The graph is
  invoked afresh from an empty state, so a retry replaces results that had passed, and
  can bring back one that was rejected (`Supervisor.VettedExactly`,
  `Supervisor.RetryRevivesRejectedResult`).
- A missing executor returns an error, which the node wrapper drops: the step counts
  as a success (`GraphBuilder.MissingExecutorIsSuccess`).
- The delegation chain promises never to exceed the stated authority. When no claim
  survives it, the capability lists no scopes and the bare binding is sent
  (`Delegation.AuthorityBoundExactly`).
- `Capability.check` compares scopes by equality, not by the covers order the rest of
  the vocabulary uses.
- The composer says it falls back rather than raising. Of references that fail it
  catches a missing key only; an answer that is itself a reference, to anything but
  an object, raises or is sent as a dictionary the schema never saw; and a schema that
  is usable as a whole can still break the check on a particular value
  (`Shapes.ComposeRaisesExactly`, `Shapes.DanglingSchemaRaises`,
  `Shapes.SentCanDifferFromChecked`).
- The agent awaits cancelled work so that nothing survives a dissolve. A task spawned
  for the session meanwhile does, and so does one an earlier dissolve or stop is still
  cancelling (`AgentTasks.DissolveLeavesNoTask`). In the coordinator's process a dissolve
  can be handled inside the very task that sent the offer leading to it; then it awaits
  itself and never ends (`AgentTasks.DissolveCanEndExactly`). An attached agent that was stopped
  can end an execution without a complete (`AgentTasks.StoppedAgentFallsSilent`).
- The invariant layer says it reads only facts the coordinator established; it also
  reads the claimed agent id (`Ibac.ClaimsCannotOpenABoundary`).
- A renegotiation replaces the plan and with it the decomposition, so the plans of
  later cycles keep offer order (`SessionGuarantees.ProposalMatchesAcceptedOffers`).
- A COMPLETE names its session and agent but no dispatch, so the late reply to one that
  timed out can resolve the next of the same key (`Completions.OwnReplyExactly`); a
  dispatch whose send fails leaves its entry behind (`Completions.FailedSendLeavesEntry`).

## Model

| member | source | states |
|---|---|---|
| `SessionGuarantees.CycleBound` | agentic_bus/coordinator/runtime.py:2393-2468 | On every run, whatever arrives, whatever is answered and wherever handlers break off, a session goes through at most 4 * max(1, max_validation_rounds) discovery cycles |
| `SessionGuarantees.EachCycleSpendsTheMeasure` | agentic_bus/coordinator/runtime.py:1507-1541 | In every reachable state, a step either starts no cycle and gives back no round or renegotiation, or starts exactly one and counts one more refused validation, resetting the requester renegotiations, or one more renegotiation, with both counters in bounds: the pair (validation rounds left, renegotiations left) decreases lexicographically |
| `SessionGuarantees.CycleBoundIsReached` | agentic_bus/coordinator/runtime.py:2404-2434 | The bound is tight: for every positive number of validation rounds some run reaches it |
| `SessionGuarantees.StartsOnlyOnAccept` | agentic_bus/coordinator/runtime.py:2314-2357 | In every reachable state, the only message that starts the supervisor is an accept that gets past sign-in and parsing in AWAITING_APPROVAL with a viable plan; it starts the latest proposed plan, once |
| `SessionGuarantees.EveryStartFollowsItsProposal` | agentic_bus/coordinator/runtime.py:1164-1177 | On every run, handlers that break off included, each start is preceded by the proposal of the same steps with nothing between but starts the supervisor refused, so each proposal is executed at most once |
| `SessionGuarantees.LogIsWellOrdered` | agentic_bus/coordinator/runtime.py:953-1051 | On every run solicitations, evaluations, proposals, refused and actual starts and the end follow one another only in the order the protocol and its broken handlers allow, and nothing follows the end; when no handler breaks off, only in the order of the protocol |
| `SessionGuarantees.ProposalMatchesAcceptedOffers` | agentic_bus/coordinator/runtime.py:802-852 | In every reachable AWAITING_APPROVAL state, also after handlers that broke off, the plan is a permutation of the accepted offers, `accepted_offers` is exactly their agents in offer order, and after the first cycle the plan is in offer order |
| `SessionGuarantees.PlanAgentsPassTheirCapability` | agentic_bus/coordinator/execution/supervisor.py:190-210 | The capability issued for a proposal lets every agent of the plan through, at any time in its life, for exactly the scope lists it permits: principal and lifetime never refuse one |
| `SessionGuarantees.LateOfferOnlyRecorded` | agentic_bus/coordinator/runtime.py:773-778 | An offer arriving while a proposal is out is appended to the offers and changes nothing else, neither the plan nor the accepted offers |
| `Provenance.OffersComeFromMessages` | agentic_bus/coordinator/runtime.py:741-747 | On every run the records of a session are exactly the offers heard in the present cycle, in order, each once and with its own agent and content; a record is accepted only if its offer was eligible and the gate answered yes for it at that message or a later one, and rejected only if it was not eligible or the gate answered no |
| `Provenance.AcceptedWereEligible` | agentic_bus/coordinator/runtime.py:810-852 | On every run every agent a live session has accepted made an eligible offer in the present cycle that the gate let in |
| `Provenance.PlanStepsWereEligible` | agentic_bus/coordinator/negotiation/engine.py:284-313 | On every run every step of a proposal is, agent and content, such an offer |
| `Provenance.DecisionsStand` | agentic_bus/coordinator/runtime.py:812-812 | From one message to the next, until a cycle is cleared, every record keeps its agent and offer, and once accepted or rejected its status |
| `Provenance.EvaluationDecides` | agentic_bus/coordinator/runtime.py:810-852 | An evaluation accepts the pending offers the gate lets in and rejects those it does not, up to the first one about which it raises; every other record keeps its status |
| `SessionSteps.OpenStopsExactly` | agentic_bus/coordinator/runtime.py:467-600 | An intent that is refused ends the session, and one whose admission or decomposition raises leaves it where it got to |
| `SessionSteps.OpenSolicitsExactly` | agentic_bus/coordinator/runtime.py:600-660 | An admitted and decomposed intent is solicited once, from a session with the requester's claims and authority and nothing decided, authorised or reviewed |
| `SessionSteps.SolicitExactly` | agentic_bus/coordinator/runtime.py:612-687 | Discovery that raises leaves the session in DISCOVERY, discovery of nobody ends it, and otherwise everyone found is remembered and those asked are waited for, with nothing else changed |
| `SessionSteps.ContactedExact` | agentic_bus/coordinator/runtime.py:662-687 | An agent is asked exactly when it was found connected before any send raised |
| `SessionSteps.ContactedInOrder` | agentic_bus/coordinator/runtime.py:662-687 | Those asked are some of those found, in the same order |
| `SessionSteps.BarrierExactly` | agentic_bus/coordinator/runtime.py:772-784 | Offers are evaluated exactly when no proposal is out and everyone who was asked, or without anyone asked everyone found, has offered |
| `SessionSteps.OfferExactly` | agentic_bus/coordinator/runtime.py:741-784 | An offer is recorded, pending if eligible and rejected if not; it leads to one evaluation exactly when with it everyone has offered and no proposal is out, and changes nothing else otherwise |
| `SessionSteps.EvaluationExactly` | agentic_bus/coordinator/runtime.py:854-951 | What an evaluation comes to, entropy test and fallbacks included: without agreement a round is counted, past the last round the session gives up, otherwise the accepted offers are proposed as ordered, and none left ends it |
| `SessionSteps.ComposedExactly` | agentic_bus/coordinator/negotiation/engine.py:284-313 | The steps composed are one for each accepted offer, in the order of arrival, with its agent and content; so is the list of accepted agents |
| `SessionSteps.InitialEntropyIsKept` | agentic_bus/coordinator/runtime.py:801-808 | The initial entropy is that of the offers before the gate at the first evaluation of a cycle, and stays |
| `SessionSteps.PlanIsViableExactly` | agentic_bus/coordinator/runtime.py:953-985 | On every run a stored plan is viable exactly when it has steps |
| `SessionSteps.AcceptExactly` | agentic_bus/coordinator/runtime.py:1301-1433 | An accept of a viable proposal starts the supervisor, which moves the session to EXECUTION, or is refused by it; what follows is one of: an exception that leaves it there, another cycle from an empty plan after a refusal with rounds left, or the end, with each answer that can be read counted and recorded |
| `SessionSteps.NotViableExactly` | agentic_bus/coordinator/runtime.py:1172-1175 | Accepting a plan that is not viable executes nothing and ends the session |
| `SessionSteps.CapabilityExactly` | agentic_bus/coordinator/execution/supervisor.py:190-213 | In every reachable state, an accepted proposal authorises exactly the agents of the accepted offers, for an hour, for exactly those of the requester's claims that its authority covers, or all of them when none is stated |
| `SessionSteps.OnlyStartsAuthorise` | agentic_bus/coordinator/execution/supervisor.py:180-213 | No other message issues a capability |
| `SessionSteps.RejectExactly` | agentic_bus/coordinator/runtime.py:2359-2468 | A renegotiating reject of the requester starts another cycle the first three times, with everything but the count of them cleared; any other reject ends the session |
| `SessionSteps.IgnoredExactly` | agentic_bus/coordinator/runtime.py:2300-2312 | A message that is not heard or comes after the end, and an accept while nothing awaits approval, change nothing |
| `SessionSteps.RequestIsFixed` | agentic_bus/coordinator/runtime.py:467-560 | What was claimed, the authority behind it and the limits of a session are the same throughout every run |
| `SessionGuarantees.OneEvaluationPerCycle` | agentic_bus/coordinator/runtime.py:780-921 | On every run on which no handler breaks off, two evaluations always have a solicitation between them, and every evaluation is directly followed by a proposal or the end |
| `SessionGuarantees.RoundStaysAtMostOne` | agentic_bus/coordinator/runtime.py:866-868 | On such runs the stored round never exceeds 1 |
| `SessionGuarantees.FallbackExactly` | agentic_bus/coordinator/runtime.py:866-921 | On such runs, whatever offer arrives next: if it completes the responses and the convergence test then fails, a fallback mode is chosen exactly when max_rounds is at most 1 |
| `SessionGuarantees.OutcomeIgnoresEntropy` | agentic_bus/coordinator/runtime.py:854-921 | While rounds are left and the gate does not raise, an evaluation proposes the gated offers as ordered, or ends the session when there are none, and does neither exactly when the order or the send raises: converged or not makes no difference |
| `SessionGuarantees.BreakReopensBarrier` | agentic_bus/coordinator/runtime.py:765-921 | An evaluation that breaks off, at the gate, the order or a send, leaves the accepted offers recorded and the barrier passed, so the next offer evaluates the same cycle again |
| `SessionGuarantees.BrokenAcceptReopensBarrier` | agentic_bus/coordinator/runtime.py:1301-1433 | In every reachable state, an approved execution that breaks off after the start leaves the session in EXECUTION with its plan and the barrier passed, so the next offer evaluates the same cycle again |
| `SessionGuarantees.BrokenAcceptReachesFallback` | agentic_bus/coordinator/runtime.py:866-921 | So with two rounds allowed a proposal of round one, a supervisor that breaks, and one more offer reach the recursive simplification, which runs without a break never choose |
| `SessionGuarantees.HistoryNumbersRounds` | agentic_bus/coordinator/validation/engine.py:97-182 | While a session lives its validation history has one entry for each counted round, numbered 1, 2, ... in order |
| `SessionGuarantees.HistoryCountsRefusals` | agentic_bus/coordinator/validation/engine.py:97-182 | Unless the notice of an approved answer failed to go out, all of them are refusals |
| `SessionGuarantees.GuardOmitsExecution` | agentic_bus/coordinator/runtime.py:772-778 | An offer handled during EXECUTION with all responses in proposes again, if the gate lets one in and it can be ordered; a broken accept leads there |
| `SessionRuns.StepKeeps` | agentic_bus/coordinator/runtime.py:689-763 | Every handled message keeps the session invariant from any state that has it, wherever its handler breaks off; one that does not break off keeps the strict form |
| `SessionRuns.RunKeeps` | agentic_bus/coordinator/runtime.py:467-656 | Every run from an opened session ends in a state with the invariant, and in the strict form when no handler broke off |
| `SessionRuns.BreaksExactly` | agentic_bus/coordinator/runtime.py:689-921 | A handler leaves the session live with an evaluation brought to no proposal, or an approval brought to nothing, exactly when the gate, the order, a send, the supervisor or the reading of the validator's answer raises where the code reaches it |
| `SessionRuns.GateKeepsOrder` | agentic_bus/coordinator/runtime.py:810-852 | Appending the agents the gate lets in keeps `accepted_offers` equal to the accepted agents in offer order |
| `Coordinator.SessionHandler.HandleIntent` | agentic_bus/coordinator/runtime.py:467-656 | The intent handler opens the session the transition system starts from, also when admission, decomposition, discovery or a send raises |
| `Coordinator.SessionHandler.RequestOffers` | agentic_bus/coordinator/runtime.py:662-687 | The request loop records exactly the connected candidates, in order, up to and including the one to whom sending raises |
| `Coordinator.SessionHandler.HandleOffer` | agentic_bus/coordinator/runtime.py:689-763 | The offer handler takes the session to the transition system's next state |
| `Coordinator.SessionHandler.TryConverge` | agentic_bus/coordinator/runtime.py:765-921 | The barrier, the gate and the convergence test together refine one evaluation of the transition system |
| `Coordinator.SessionHandler.DecidePending` | agentic_bus/coordinator/runtime.py:810-852 | The gate loop, rewriting statuses in place, decides every pending offer by its own decision, leaves the others, and appends the admitted agents; where a decision raises it stops, with the earlier ones kept |
| `Coordinator.SessionHandler.SettleNegotiation` | agentic_bus/coordinator/runtime.py:854-921 | Convergence proposes; otherwise the round is stored and the fallback decides |
| `Coordinator.SessionHandler.ProposeFromAccepted` | agentic_bus/coordinator/runtime.py:923-951 | Proposes when some offer is accepted and dissolves otherwise |
| `Coordinator.SessionHandler.ProposePlan` | agentic_bus/coordinator/runtime.py:953-1051 | Composes and orders the accepted offers; a raising order changes nothing, an empty plan dissolves, and the plan is stored before it is sent |
| `Coordinator.SessionHandler.HandleAccept` | agentic_bus/coordinator/runtime.py:2300-2357 | The accept handler refines the transition system: wrong phase or malformed changes nothing, a plan that is not viable dissolves |
| `Coordinator.SessionHandler.BuildAndExecute` | agentic_bus/coordinator/runtime.py:1301-1433 | Execution, the validation loop and dissolution take the session where the transition system says for every status and review, a supervisor that breaks and an unreadable review included |
| `Coordinator.SessionHandler.RunValidationLoop` | agentic_bus/coordinator/runtime.py:1439-1554 | Ends the accept's handling exactly on a refusal or an unreadable answer; refusals dissolve at the round limit and renegotiate before it |
| `Coordinator.SessionHandler.ValidationRenegotiate` | agentic_bus/coordinator/runtime.py:1607-1671 | Clears the negotiation, resets the plan and with it the renegotiation counter, and solicits again |
| `Coordinator.SessionHandler.Validate` | agentic_bus/coordinator/validation/engine.py:116-164 | Counts one round and appends it to the history, once the answer has been read |
| `Coordinator.SessionHandler.HandleReject` | agentic_bus/coordinator/runtime.py:2359-2391 | Only the requester's renegotiating rejection renegotiates; any other dissolves |
| `Coordinator.SessionHandler.HandleRenegotiation` | agentic_bus/coordinator/runtime.py:2393-2468 | Three renegotiations restart the cycle, the fourth dissolves |
| `Coordinator.SessionHandler.DissolveSession` | agentic_bus/coordinator/runtime.py:2470-2547 | Ends the session once the notices are out; a second dissolve changes nothing |
| `Entropy.ComputeSemanticEntropy` | agentic_bus/coordinator/negotiation/engine.py:238-262 | The counting loops compute the normalised entropy of the statuses, 1 for no offers |
| `Entropy.TallyFacts` | agentic_bus/coordinator/negotiation/engine.py:249-252 | The counts are positive, add up to the number of offers, name exactly the occurring statuses, and there is one of them exactly on unanimity |
| `Entropy.Gibbs` | agentic_bus/coordinator/negotiation/engine.py:253-262 | Gibbs' inequality: the entropy sum lies between 0 and the logarithm of the number of statuses, and is positive as soon as there are two |
| `Entropy.EntropyInUnit` | agentic_bus/coordinator/negotiation/engine.py:238-262 | For every non-empty list the normalised entropy lies in [0, 1] and is 0 exactly when all statuses agree |
| `Entropy.ConvergenceIsUnanimity` | agentic_bus/coordinator/negotiation/engine.py:264-282 | From zero initial entropy the test succeeds exactly on unanimous final statuses; with a threshold of at most 1 unanimity always converges |
| `EntropyFormula.EntropyExactly` | agentic_bus/coordinator/negotiation/engine.py:238-262 | The entropy times the logarithm of the number of statuses that occur (at least two) is the sum of -(c/n) ln(c/n) over the numbers of pending, accepted and rejected offers, for any such logarithm |
| `EntropyFormula.TallyCounts` | agentic_bus/coordinator/negotiation/engine.py:249-252 | Each status that occurs is counted once, as often as it occurs |
| `EntropyFormula.NoOffersNoAgreement` | agentic_bus/coordinator/negotiation/engine.py:244-246 | Without offers the entropy is one |
| `EntropyFormula.ConvergenceIsRelativeDrop` | agentic_bus/coordinator/negotiation/engine.py:264-282 | From a positive initial entropy the test asks exactly for a relative drop of at least the threshold |
| `Negotiation.SortedRangeIsBijection` | agentic_bus/coordinator/negotiation/engine.py:399-412 | An answer whose sorted form is 0..n-1 lists every index exactly once |
| `Negotiation.OrderStepsPermutes` | agentic_bus/coordinator/negotiation/engine.py:315-418 | For every list of JSON values the model may answer, and any sub-intents, an ordered plan has exactly the steps it was given, and an answer that is no rearrangement of the indices leaves the order unchanged |
| `Negotiation.OrderFollowsAnswer` | agentic_bus/coordinator/negotiation/engine.py:412-412 | An answer that rearranges the indices is followed: the i-th step of the plan is the one at the i-th index |
| `Negotiation.TruthyExactly` | agentic_bus/coordinator/negotiation/engine.py:315-350 | What counts as no sub-intents: null, false, zero, and whatever is empty |
| `Negotiation.OrderStepsRaisesExactly` | agentic_bus/coordinator/negotiation/engine.py:340-418 | With at least two steps, sub-intents and a model, ordering raises exactly when the sub-intents cannot be read, or the answer is a list of the right length that cannot be sorted, or it rearranges the indices and writes one as a float |
| `Negotiation.AnySortMeetsIncomparable` | agentic_bus/coordinator/negotiation/engine.py:399-404 | Whichever pairs a sort compares, as long as they connect all positions, it meets two values without an order exactly when the list mixes kinds or holds null or an object |
| `Negotiation.ObjectsRaise` | agentic_bus/coordinator/negotiation/engine.py:399-404 | The answer of two objects raises |
| `Negotiation.TextSubIntentsRaise` | agentic_bus/coordinator/negotiation/engine.py:362-373 | Text among the sub-intents raises whatever the model answers, if there is one to ask |
| `Negotiation.FloatsRaise` | agentic_bus/coordinator/negotiation/engine.py:412-412 | The answer [1.0, 0.0] sorts to the range and raises when it is used as indices |
| `GraphBuilder.Build` | agentic_bus/coordinator/graph/builder.py:72-125 | No graph for an empty plan; otherwise the nodes are the steps and the edges link the route from start to end |
| `GraphBuilder.Wire` | agentic_bus/coordinator/graph/builder.py:110-118 | The wiring loop draws exactly the edges between neighbours of the route |
| `GraphBuilder.NodeNamesDiffer` | agentic_bus/coordinator/graph/builder.py:96-99 | Node names of different positions differ whatever the agent ids, repeated ones included |
| `GraphBuilder.RouteIsDistinct` | agentic_bus/coordinator/graph/builder.py:88-118 | No node of the route repeats, the start and end markers included |
| `GraphBuilder.EveryRunIsThePlan` | agentic_bus/coordinator/graph/builder.py:88-118 | A walk of the built graph from start to end is exactly the plan: every step once, in plan order |
| `GraphBuilder.ChainExactly` | agentic_bus/coordinator/graph/builder.py:125-165 | Step k's executor is given the state the earlier steps left, index k and the step's own capability; of what it returns only its own result is taken, what it raises becomes an error behind the earlier ones, and nothing else of the state changes |
| `GraphBuilder.ErrorsAndSuccessesMakeThePlan` | agentic_bus/coordinator/graph/builder.py:139-165 | After any number of steps, errors added plus successful steps equal the steps taken, and earlier errors stay |
| `GraphBuilder.NodeKeepsOtherResults` | agentic_bus/coordinator/graph/builder.py:153-155 | A node leaves every other agent's result as it was, whatever its executor returns |
| `GraphBuilder.LastSuccessWins` | agentic_bus/coordinator/graph/builder.py:139-165 | An agent's final result is what its last successful step produced |
| `GraphBuilder.NoSuccessKeepsResult` | agentic_bus/coordinator/graph/builder.py:156-165 | An agent none of whose steps succeeded keeps the result it started with |
| `GraphBuilder.MissingExecutorIsSuccess` | agentic_bus/coordinator/graph/builder.py:169-182 | A step without an executor counts as a success: its error is dropped and its agent gets "ok" unless it already had a result |
| `Supervisor.ExecuteWithValidation` | agentic_bus/coordinator/execution/supervisor.py:298-384 | The agent loop computes the turns of the specification, for every graph and every check |
| `Supervisor.ValidateAgent` | agentic_bus/coordinator/execution/supervisor.py:332-382 | The attempt loop of one agent, its early returns included, is the specified turn; `Supervisor.TurnExactly` says what a turn does |
| `Supervisor.TurnExactly` | agentic_bus/coordinator/execution/supervisor.py:332-384 | A turn checks its agent's result, and after each denial what the next run returned, until a check passes, a run returns no result, or the limit is reached, when exactly that result is withdrawn with one error; without a result, or without attempts, it does nothing |
| `Supervisor.ChecksAreTrue` | agentic_bus/coordinator/execution/supervisor.py:386-432 | Every check was about what the recorded run returned for its agent, its outcome is the judge's answer about exactly that, and what the agents have at the end is from the last run |
| `Supervisor.DenialsExact` | agentic_bus/coordinator/execution/supervisor.py:358-364 | The restrictions given for an agent are the reasons of its own denials, in order, and there are some exactly when it was denied |
| `Supervisor.WorkIsBounded` | agentic_bus/coordinator/execution/supervisor.py:337-376 | For N agents and R >= 1 retries at most N*R artifact checks and between 1 and 1 + N*(R-1) graph invocations |
| `Supervisor.RunsGetEarlierDenials` | agentic_bus/coordinator/execution/supervisor.py:365-376 | Every invocation carries exactly the restrictions recorded from the denials before it |
| `Supervisor.UnrepeatedTurnIsVetted` | agentic_bus/coordinator/execution/supervisor.py:298-384 | An agent whose turn was followed by no re-invocation ends with a payload about which the judge was asked, on the run it came from, and which it did not deny, or with no result |
| `Supervisor.LastAgentIsVetted` | agentic_bus/coordinator/execution/supervisor.py:332-382 | So does the last agent always, and every agent when there is one attempt |
| `Supervisor.VettedExactly` | agentic_bus/coordinator/execution/supervisor.py:348-376 | A result that is still there at the end was vetted exactly when no re-invocation followed the agent's last turn |
| `Supervisor.AlwaysVettedExactly` | agentic_bus/coordinator/execution/supervisor.py:332-382 | Before anything executes: whatever the graph and the checks do, an agent ends with no result or a vetted one, exactly when it is the agent of the last step or one attempt is allowed |
| `Supervisor.RetryRevivesRejectedResult` | agentic_bus/coordinator/execution/supervisor.py:365-382 | A concrete plan of two agents in which a twice rejected result comes back and the execution reports success |
| `Supervisor.NoRetriesNoChecks` | agentic_bus/coordinator/execution/supervisor.py:337-337 | With zero retries nothing is checked at all |
| `Execution.SupervisedExactly` | agentic_bus/coordinator/execution/supervisor.py:180-296 | The status of an execution: denied exactly when refused beforehand, error when the graph raised, broken when the scoring or synthesis model answered with no object, and success or partial failure by whether an error is left |
| `Execution.SuccessMeansEveryStep` | agentic_bus/coordinator/execution/supervisor.py:256-296 | Chain, retry loop and status together: an execution that succeeds ended in the state of its last invocation, in which every step of the plan succeeded, and the last step's agent is vetted |
| `Execution.SuccessServesEveryAcceptedOffer` | agentic_bus/coordinator/runtime.py:1301-1370 | On every run of a session, a proposal whose execution succeeds leaves a result for the agent of every accepted offer |
| `Completions.CompletionTable.Register` | agentic_bus/coordinator/runtime.py:3197-3203 | A dispatch adds a fresh future under (session, agent) and blocks the session on it |
| `Completions.CompletionTable.HandleComplete` | agentic_bus/coordinator/runtime.py:1759-1763 | A complete removes the entry of its key and resolves its future if it is still waiting; otherwise it changes nothing |
| `Completions.CompletionTable.HandleTimeout` | agentic_bus/coordinator/runtime.py:3276-3286 | A timeout abandons the session's future and removes its entry |
| `Completions.CompletionTable.LeaveWait` | agentic_bus/coordinator/runtime.py:3226-3286 | A resumed or failed dispatch leaves the wait and touches neither table nor futures |
| `Completions.StepKeepsInv` | agentic_bus/coordinator/runtime.py:3197-3286 | Every event keeps the table sound: entries name waiting futures of their own key, and every waiting blocked session has its entry |
| `Completions.EveryRunKeepsInv` | agentic_bus/coordinator/runtime.py:3197-3286 | The same for every interleaving of dispatches, completes, timeouts, resumptions and failed sends |
| `Completions.SettledStaysSettled` | agentic_bus/coordinator/runtime.py:1759-1763 | A future is resolved or abandoned at most once |
| `Completions.AnsweredOnlyByItsKey` | agentic_bus/coordinator/runtime.py:1760-1763 | Only a complete carrying the future's own session and agent resolves it, with that message, and it removes the entry |
| `Completions.TimeoutRemovesOwnEntry` | agentic_bus/coordinator/runtime.py:3276-3277 | A timeout removes the entry of its own future and no other |
| `Completions.WaitsExactly` | agentic_bus/coordinator/runtime.py:3197-3286 | A session waits exactly from its dispatch until it picks up the answer, gives up, or the send has failed |
| `Completions.OneEntryPerSession` | agentic_bus/coordinator/runtime.py:3197-3203 | When no send fails, each session has at most one entry, and has one exactly while it is blocked |
| `Completions.FailedSendLeavesEntry` | agentic_bus/coordinator/runtime.py:3201-3203 | A run with a failed send on which one session has two entries |
| `Completions.OwnReplyExactly` | agentic_bus/coordinator/runtime.py:1760-1763 | From agents that reply once to what they were sent, a pending dispatch can get only its own reply exactly when every other dispatch of its session and agent has been replied to |
| `Completions.SmoothRunsGetOwnReplies` | agentic_bus/coordinator/runtime.py:3197-3286 | On every run without timeouts and failed sends, from such agents, each answer a chain gets is its own dispatch's, also when a plan uses an agent several times |
| `AgentTasks.BaseAgent.SpawnTask` | agentic_bus/agents/base/agent.py:651-658 | A spawned task is queued and tracked under its session |
| `AgentTasks.BaseAgent.EnterSemaphore` | agentic_bus/agents/base/agent.py:660-685 | Entering takes one permit and starts the task |
| `AgentTasks.BaseAgent.TaskDone` | agentic_bus/agents/base/agent.py:651-685 | An ended task returns its permit if it held one and is forgotten if its session is still tracked |
| `AgentTasks.BaseAgent.SettleTask` | agentic_bus/agents/base/agent.py:793-846 | What validation and the task do settles the status: success, invalid_input, denied or error |
| `AgentTasks.BaseAgent.ReplyTask` | agentic_bus/agents/base/agent.py:882-883 | The complete is sent on a connection, and without one the execution ends in silence |
| `AgentTasks.BaseAgent.CancelTasks` | agentic_bus/agents/base/agent.py:687-708 | The cancelling loop cancels exactly the unfinished ones of the given tasks and returns them for awaiting |
| `AgentTasks.BaseAgent.CancelSession` | agentic_bus/agents/base/agent.py:687-708 | A dissolve drops the session's tracking, cancels what was in it and awaits it |
| `AgentTasks.BaseAgent.CancelEverything` | agentic_bus/agents/base/agent.py:412-425 | A stop does the same for everything tracked |
| `AgentTasks.PermitsAreConserved` | agentic_bus/agents/base/agent.py:660-685 | On every interleaving, with any number of dissolves and stops under way, permits held and free add up to `max_concurrent_tasks` |
| `AgentTasks.LiveTasksAreTracked` | agentic_bus/agents/base/agent.py:651-708 | On every interleaving every live task is tracked under its own session, or cancelled and awaited by a dissolve or stop under way |
| `AgentTasks.CancelledInQueueNeverStarts` | agentic_bus/agents/base/agent.py:660-685 | Whatever happens afterwards, a task cancelled while it waits for a permit never runs and sends nothing |
| `AgentTasks.DissolveLeavesNoTask` | agentic_bus/agents/base/agent.py:606-632 | Handling a dissolve, in a task or outside, ends with no live task of its session, whatever happens meanwhile short of a spawn for that session, exactly when no earlier dissolve or stop is still cancelling one of its tasks, or it cannot end at all |
| `AgentTasks.DissolveCanEndExactly` | agentic_bus/core/transport/local.py:82-86 | In every reachable state, a dissolve can end exactly when it is not handled inside a task that it cancels, a condition known before it starts |
| `AgentTasks.DrainCanEndExactly` | agentic_bus/agents/base/agent.py:687-708 | From every reachable state every dissolve or stop under way can end, other dissolves handled inside the tasks it awaits included, exactly when it does not await the task it is handled in |
| `AgentTasks.SpawnOutlivesDissolve` | agentic_bus/agents/base/agent.py:651-708 | A task spawned for the session during the drain is alive when it ends |
| `AgentTasks.DissolveSparesOthers` | agentic_bus/agents/base/agent.py:687-708 | A dissolve changes no task, tracking or permit of another session |
| `AgentTasks.OneCompletePerExecution` | agentic_bus/agents/base/agent.py:761-883 | A task sends one complete, with the status it settled on, exactly when it is an execution that came to its end with a connection, or was cancelled after the message left; otherwise none |
| `AgentTasks.CompleteSaysWhatHappened` | agentic_bus/agents/base/agent.py:793-846 | On every run a complete says success exactly for a task that returned and could be reported, invalid_input for a refused input, denied for a refused scope, and error for everything else |
| `AgentTasks.SocketAgentsReply` | agentic_bus/agents/base/agent.py:412-425 | For an agent on a socket, each execution whose handler came to its end sent exactly one complete |
| `AgentTasks.AgentsReplyUntilStopped` | agentic_bus/agents/base/agent.py:412-425 | So did, for every agent, attached ones included, each such execution as long as no stop has ended |
| `AgentTasks.StoppedAgentFallsSilent` | agentic_bus/agents/base/agent.py:412-425 | A run of an attached agent on which an execution spawned during a stop finishes, neither cancelled nor broken, and sends nothing |
| `AgentTasks.StopDrainsWhatItCancelled` | agentic_bus/agents/base/agent.py:412-425 | Once a stop has drained, whatever else goes on, everything alive was spawned after it began or was already being cancelled then |
| `StepInputs.WalkPath` | agentic_bus/core/step_inputs.py:332-340 | The rebinding loop follows the non-empty path parts, with a missing key, a bad index and a wrong type as separate failures; `References.WalkExact` says where it arrives |
| `References.PartsExact` | agentic_bus/core/step_inputs.py:333-333 | A path without dots is its only part, and a dot separates parts, empty ones left out |
| `References.WalkExact` | agentic_bus/core/step_inputs.py:332-340 | Walking a path arrives at a value exactly when it lies there: at each part the field of that key, or the item at that index |
| `References.NumeralExact` | agentic_bus/core/step_inputs.py:336-337 | A part of digits is the index it is the numeral of, leading zeros allowed |
| `References.WalkFailsExactly` | agentic_bus/core/step_inputs.py:332-340 | A path that leads nowhere fails at its first part without a child: a key the object lacks, an index past the end, or a part that asks for neither |
| `References.ProjectExact` | agentic_bus/core/step_inputs.py:343-355 | A projection gives, for an object and for each object of a list, one field for each entry whose source is there, under the destination's name with the source's value, in order; everything else stays as it is |
| `StepInputs.ResolveExact` | agentic_bus/core/step_inputs.py:358-380 | Resolution succeeds exactly when every reference can be fetched, and otherwise fails as the first failing reference does |
| `StepInputs.FetchExact` | agentic_bus/core/step_inputs.py:358-375 | A reference can be fetched exactly when its key is text, is in memory, and its path walks |
| `References.FetchValue` | agentic_bus/core/step_inputs.py:358-375 | A reference is replaced by a value exactly when that is what lies at its path in the memory under its key, projected if it says so |
| `References.FetchFailsExactly` | agentic_bus/core/step_inputs.py:366-371 | A key that is a list or an object cannot be looked up, one not in memory is missing, and otherwise it is the path that fails |
| `References.ResolveValue` | agentic_bus/core/step_inputs.py:358-380 | Resolving gives a tree exactly when it is the input with each reference replaced by what it stands for and everything else in place |
| `StepInputs.ResolveIsLocal` | agentic_bus/core/step_inputs.py:358-380 | The outcome depends only on the memory under the referenced keys |
| `StepInputs.ResolveIdentity` | agentic_bus/core/step_inputs.py:358-380 | Input without references comes back unchanged from any memory |
| `StepInputs.ResolveIsClosed` | agentic_bus/core/step_inputs.py:343-380 | With reference-free memory and no projection target named `$from`, the output has no references |
| `StepInputs.ResolveIdempotent` | agentic_bus/core/step_inputs.py:343-380 | Hence resolving the output again, from any memory, gives it back |
| `StepInputs.ProjectionCanMakeReference` | agentic_bus/core/step_inputs.py:343-355 | The condition is needed: a projection onto `$from` turns data into a reference that then fails |
| `Shapes.DescribeShape` | agentic_bus/core/step_inputs.py:290-325 | The loop over keys builds the description the specification gives |
| `Shapes.DescribeIgnoresData` | agentic_bus/core/step_inputs.py:290-325 | A value and its skeleton, with all leaf data erased, have the same description at every depth |
| `Shapes.SameStructureSameDescription` | agentic_bus/core/step_inputs.py:290-325 | Values with the same keys, list lengths, leaf types and string lengths have the same description at every depth |
| `ShapeTexts.KindCanBeRead` | agentic_bus/core/step_inputs.py:290-325 | The first letter of a description tells what kind of value it is of |
| `ShapeTexts.LeafTexts` | agentic_bus/core/step_inputs.py:314-325 | The description of a truth value, a number, null or an empty list, word for word |
| `ShapeTexts.NestedTexts` | agentic_bus/core/step_inputs.py:312-313 | Inside a list of lists only the name of the first item's type is said |
| `ShapeTexts.StringLengthCanBeRead` | agentic_bus/core/step_inputs.py:318-319 | The description of a text says its length |
| `ShapeTexts.ListLengthCanBeRead` | agentic_bus/core/step_inputs.py:299-315 | The description of a list says its length |
| `ShapeTexts.LengthIsUnique` | agentic_bus/core/step_inputs.py:299-319 | Only one length can be read from a description |
| `ShapeTexts.KeysInOrder` | agentic_bus/core/step_inputs.py:295-298 | Each of an object's first twelve fields adds its own key at the end of the description, the thirteenth three dots, and later ones nothing |
| `ShapeTexts.UnionKeysExact` | agentic_bus/core/step_inputs.py:303-311 | The keys shown for rows are exactly those of some object in the sample, each once, earlier rows' first |
| `Shapes.MemoryDataStaysOutOfPrompt` | agentic_bus/core/step_inputs.py:211-221 | Two memories with the same structure give the same memory block, so the same answer of any model, and outcomes that differ only in data |
| `Shapes.ResolveErase` | agentic_bus/core/step_inputs.py:358-380 | Erasing memory data commutes with resolving, failures included |
| `Shapes.ComposeRaisesExactly` | agentic_bus/core/step_inputs.py:244-259 | The composer raises exactly when the first failing reference fails otherwise than by a missing key, or none fails and the answer is itself a reference to something that makes no dictionary, or the schema check breaks on the resolved value |
| `Shapes.WholeValueRaises` | agentic_bus/core/step_inputs.py:111-113 | A reference to a whole text, number, null or list of one-key rows resolves and still raises |
| `Shapes.DanglingSchemaRaises` | agentic_bus/core/step_inputs.py:142-144 | A schema whose check breaks only on values that have a certain property: composition raises on an answer with it and succeeds on one without |
| `Composition.ComposeStopsExactly` | agentic_bus/core/step_inputs.py:170-256 | Without a schema nothing is checked; without a model, an answer, an object for an answer, or a key a reference names, the step is reported; other failing references raise |
| `Composition.ComposeExactly` | agentic_bus/core/step_inputs.py:98-147 | When the answer resolves the check decides about the value its references stand for: accepted it is sent, rejected reported, and an unusable schema checks nothing |
| `Composition.AsDictExact` | agentic_bus/core/step_inputs.py:111-113 | What is sent for a resolved value: an object's own fields, nothing for empty text, and for a list of pairs the dictionary in which the last pair for a key counts |
| `Composition.PairExactly` | agentic_bus/core/step_inputs.py:111-113 | What makes a pair: a list of two whose first can be a key, a text of two characters, or an object of two fields |
| `Shapes.ComposedIsCheckedAndClosed` | agentic_bus/core/step_inputs.py:104-147 | What was resolved passed the schema check and, with clean memory and safe targets, contains no reference; it is what is sent, unless the answer was itself a reference to something that is not an object |
| `Shapes.SentCanDifferFromChecked` | agentic_bus/core/step_inputs.py:111-113 | A list of pairs the schema accepts is sent as a dictionary it never saw, which can even be a reference |
| `Scopes.NormaliseIdempotent` | agentic_bus/core/scopes.py:32-39 | Normalising twice is normalising once |
| `Scopes.SameNormalExactly` | agentic_bus/core/scopes.py:32-39 | Two names have one normal form exactly when, white space around them aside, they differ only in the case of letters |
| `Scopes.NormalIsLower` | agentic_bus/core/scopes.py:32-39 | The normal form is the name without white space around it, in lower case |
| `Scopes.SpaceExactly` | agentic_bus/core/scopes.py:32-39 | The white space stripped is what Python strips among the ASCII characters |
| `Scopes.CoversReflexive` | agentic_bus/core/scopes.py:42-66 | A scope covers itself exactly when it is not blank |
| `Scopes.CoversIgnoresCase` | agentic_bus/core/scopes.py:42-66 | Covering looks neither at the case of letters nor at white space around a name |
| `Scopes.CoversAntisymmetric` | agentic_bus/core/scopes.py:42-66 | Scopes that cover each other have the same normal form |
| `Scopes.CoversTransitive` | agentic_bus/core/scopes.py:42-66 | Covering is transitive on all strings |
| `Scopes.CoveringGrantsFormChain` | agentic_bus/core/scopes.py:42-66 | Any two grants that cover one scope are comparable |
| `Scopes.CoversIsSegmentPrefix` | agentic_bus/core/scopes.py:42-66 | The string test is exactly equality, or a wildcard grant whose other segments are a proper prefix of the requested segments, on all non-blank scopes |
| `Scopes.CoverageCarriesThrough` | agentic_bus/core/scopes.py:69-71 | What an inner list covers, a list that covers all of it covers |
| `Scopes.ParentGovernsChild` | agentic_bus/core/scopes.py:74-82 | The parent is the scope without its last segment, and the wildcard under it covers the scope |
| `Scopes.IsWellFormed` | agentic_bus/core/scopes.py:85-112 | The scanning loop accepts exactly the storable names, malformed ones of every kind refused |
| `Scopes.WellFormedExactly` | agentic_bus/core/scopes.py:85-112 | Character by character: at most 128, colons only between names, a star only as the last name, and letters, digits, hyphen, underscore and dot otherwise |
| `Scopes.SelectedIsSelection` | agentic_bus/core/scopes.py:122-164 | What a filter returns is its input with some scopes left out, order kept |
| `Scopes.FiltersExact` | agentic_bus/core/scopes.py:122-164 | How often each scope is left: an empty ceiling takes nothing away, an empty grant everything, and otherwise exactly what some entry covers is kept |
| `Scopes.FiltersCommuteAndAreIdempotent` | agentic_bus/core/scopes.py:122-164 | Narrowing and intersecting commute, and each is idempotent, empty ceilings and grants included |
| `Scopes.FiltersAreMonotone` | agentic_bus/core/scopes.py:122-164 | Widening a grant or a stated ceiling only adds scopes to the result |
| `Scopes.Resolve` | agentic_bus/core/scopes.py:223-255 | Each distinct declared name lands in the lists its standing calls for, in declaration order, and in no other; under enforcement nothing is catalogued |
| `Scopes.ResolvedExactly` | agentic_bus/core/scopes.py:223-255 | Which list a declared name is in: recognised when well-formed and covered or not enforced, refused when enforced and not covered, catalogued when neither, and reported as written when malformed |
| `Scopes.DistinctInOrder` | agentic_bus/core/scopes.py:234-241 | Of names with one normal form the first declared counts, and they keep the order of declaration |
| `Delegation.FirstRefusedExact` | agentic_bus/core/ibac/capability.py:140-150 | The scope loop passes exactly when all are permitted and otherwise names the first that is not |
| `Delegation.CheckExact` | agentic_bus/core/ibac/capability.py:95-150 | The early-return check passes exactly when lifetime, principal and every scope pass, and a refusal stays refused at all later times |
| `Delegation.RefusalExact` | agentic_bus/core/ibac/capability.py:95-150 | What a refusal says: expired first, then the wrong agent, then the first scope that is not listed |
| `Delegation.DispatchExact` | agentic_bus/coordinator/runtime.py:3070-3124 | A dispatch is sent exactly when the capability, if there is one, is alive, names this agent (or nobody, or no agent is given) and lists every scope needed (or none), and the bindings as first read cover all of them or scopes are not enforced; it is refused on account of the bindings exactly when only the second fails, naming exactly the scopes missing |
| `Delegation.GrantExact` | agentic_bus/coordinator/runtime.py:1946-1966 | The scopes sent: the capability's without enforcement; with it none when the bindings cannot be read, the bindings when the capability lists none, and otherwise exactly the listed scopes some binding covers |
| `Delegation.DelegationChain` | agentic_bus/coordinator/runtime.py:1928-1966 | With enforcement on and a non-empty capability, what is sent is an order-preserving selection of the claims, covered by a binding, by the authority when stated, and by any policy the authority is inside of |
| `Delegation.AuthorityBoundExactly` | agentic_bus/coordinator/runtime.py:1946-1966 | What is sent stays inside a stated authority for every binding table exactly when some claim survived it or the authority holds the wildcard |
| `Delegation.DispatchedAgentHoldsItsScopes` | agentic_bus/coordinator/runtime.py:3048-3133 | What a dispatch under enforcement sends covers everything its capability requires exactly when the bindings as read for sending do |
| `Delegation.SteadyBindingsSuffice` | agentic_bus/coordinator/runtime.py:2017-2038 | With a capability id, and bindings that did not change between the check and the sending, it always does |
| `Delegation.UnenforcedDispatchHoldsScopesExactly` | agentic_bus/coordinator/runtime.py:2017-2038 | Without enforcement the same holds exactly when nothing is required, or the capability lists scopes and none required is blank |
| `ScopeGuard.ScopeGrant.Require` | agentic_bus/agents/scope_guard.py:78-92 | Records the use, raises exactly when no grant covers the scope, and records the denial |
| `ScopeGuard.ScopeGrant.IsHeld` | agentic_bus/agents/scope_guard.py:146-158 | Answers whether the scope is held and records the use, never a denial |
| `ScopeGuard.ScopedResource.Get` | agentic_bus/agents/scope_guard.py:213-224 | Refuses exactly when a grant is active and does not cover the scope; builds once, keeps it, and a factory that raises leaves it to be built next time |
| `ScopeGuard.LedgerExact` | agentic_bus/agents/scope_guard.py:75-92 | After any sequence of checks `used` and `denied` have no repeats and hold exactly the normalised scopes used and refused |
| `ScopeGuard.LedgerGrows` | agentic_bus/agents/scope_guard.py:78-92 | Both lists only grow at their end, so they keep the order of first use and first refusal |
| `ScopeGuard.DeniedIsUsedOutsideGrant` | agentic_bus/agents/scope_guard.py:78-92 | After any sequence of non-blank requirements `denied` is, in order, exactly the used scopes outside the grant |
| `ScopeGuard.ReconciliationReportsDenials` | agentic_bus/coordinator/runtime.py:1870-1898 | When the grant sent is the capability's scope list, the coordinator's reconciliation reports exactly the denials |
| `ScopeGuard.ReconciliationExact` | agentic_bus/coordinator/runtime.py:1855-1926 | The reconciliation reports exactly the denials after every execution if and only if the grant sent and the capability's list cover each other |
| `ScopeGuard.RefusalUnreportedUnderBinding` | agentic_bus/coordinator/runtime.py:1946-1966 | A narrower binding makes a refusal that the reconciliation does not report |
| `Ibac.ClaimsCannotOpenABoundary` | agentic_bus/core/ibac/engine.py:350-411 | Whatever identity is claimed, restricted material crossing the boundary stays denied, and the claim blocks only where it contradicts the authenticated identity; no decision relies on what was declared |
| `Ibac.CrossingExactly` | agentic_bus/core/ibac/engine.py:389-395 | Restricted are exactly SECRET, RESTRICTED and PII_RESTRICTED, in any case, leaving the tenant |
| `Ibac.NoManifestAbstains` | agentic_bus/core/ibac/engine.py:361-367 | With nothing verified the invariant layer allows, on declared input |
| `Ibac.EvaluatePolicy` | agentic_bus/core/ibac/engine.py:586-633 | The early-return policy evaluator denies exactly when the declarative predicate holds |
| `Ibac.PolicyDeniesExactly` | agentic_bus/core/ibac/engine.py:586-633 | A policy denies exactly at its points, a request for a denied scope or domain, or for a scope off its list of allowed ones |
| `Ibac.EvaluateRule` | agentic_bus/core/ibac/engine.py:639-842 | The long early-return rule evaluator has exactly the declarative effect: deny, require approval, or none |
| `Ibac.RuleEffectExactly` | agentic_bus/core/ibac/engine.py:639-842 | Only a denying rule denies, on a filter or, unless it asks for a person, on its text; only a rule that asks for a person gives an approval, on its text or when it names none |
| `Ibac.FiltersExactly` | agentic_bus/core/ibac/engine.py:700-842 | The conditions that deny whatever the intent says, one by one, with empty lists as no condition |
| `Ibac.EvaluateFilters` | agentic_bus/core/ibac/engine.py:639-842 | Its final block of filters hits exactly when some filter does |
| `Ibac.Evaluate` | agentic_bus/core/ibac/engine.py:550-580 | The grounded loops return the first policy denial, else the first rule effect, else allow |
| `Ibac.GroundedExact` | agentic_bus/core/ibac/engine.py:550-580 | The grounded layer permits exactly when no policy denies and no rule blocks |
| `Ibac.GroundedVerdict` | agentic_bus/core/ibac/engine.py:550-580 | Which verdict: a denying policy denies, otherwise the first rule that blocks decides, and without one the request is allowed |
| `Ibac.AddingNeverUnblocks` | agentic_bus/core/ibac/engine.py:550-580 | Adding policies or rules never turns a block into a permission |
| `Ibac.PermissionIgnoresOrder` | agentic_bus/core/ibac/engine.py:550-580 | Whether the layer permits does not depend on the order of policies and rules |
| `Ibac.VerdictDependsOnOrder` | agentic_bus/core/ibac/engine.py:550-580 | Which blocking verdict it gives does: two rules that swap deny for approval |
| `Ibac.SemanticFailsClosed` | agentic_bus/core/ibac/engine.py:450-544 | For every answer, malformed ones included, the semantic layer allows exactly when nothing applied or a completed evaluation says allow and asks for no human |
| `Ibac.SemanticExact` | agentic_bus/core/ibac/engine.py:450-544 | The verdict for every answer: four words are understood, in any case; a wish for a person turns either permission into a request for approval and never softens a denial; everything else denies; and what was answered is passed on |
| `Ibac.StrictestDecides` | agentic_bus/core/ibac/engine.py:303-307 | The strictest verdict permits exactly when every layer allows |
| `Ibac.Combine` | agentic_bus/core/ibac/engine.py:292-331 | The verdict is the meet of the layers': a denial before an approval, an approval before a restriction of scope, and allow only when all layers allow; the first layer with that verdict gives name and provenance, and the extras of all layers are merged |
| `Ibac.MergedExact` | agentic_bus/core/ibac/engine.py:309-315 | Of several layers with an extra of one name the last gives its value, and no name is lost |
| `Ibac.EvaluateWithLlm` | agentic_bus/core/ibac/engine.py:417-448 | The verdict is the meet of the three layers', for any model answer and whatever the two reads of the rule store give; a failed second read denies; and the first layer with the verdict says whether anything declared was relied on |
| `Ibac.ModelWordCarries` | agentic_bus/core/ibac/engine.py:417-448 | The model's deny always denies, its require_human_approval and allow_with_scope hold unless another layer is stricter, and its allow adds nothing to the other layers |

## Left out

- Text: scopes, rule texts and reference paths are ASCII strings, without Unicode case folding, spaces, alphanumerics or digits beyond ASCII (a superscript digit in a path, which `str.isdigit` takes and `int` does not, raises ValueError in the source); Python's `str` of a value that is not text is a parameter.
- Floating point: entropy is over the reals, with any logarithm that has the product law and satisfies ln x <= x - 1; rounding is not modelled.
- Time: instants are integers supplied by the caller, and only capability expiry looks at them.
- Language model calls, JSON schema validation, regular expressions, keyword matching and access decisions are arbitrary functions or answers; of the ways in which they raise, those that matter to the state are outcomes of their own.
- Ibac: rules are records of well-typed fields; a stored rule with a `max_agents` or keywords of another type, on which the source's `evaluate` raises instead of denying, cannot be written down.
- Transport, sign-in, telemetry, event emission and message texts: sending is a note in a log or nothing.
- Session memory and `infer_memory_policies`: which keys a plan reads and writes is decided by name matching that no protocol state depends on.
- What quality scoring and synthesis answer: only whether it can be read is modelled, because an answer that is no object raises (`Session.Broken`).
- `ReconnectPolicy`, archiving, statistics, step metrics, plan explanation, discovery ranking and outcome priors: side work that leaves the protocol state alone.
- Registration, tenant filtering and artifact validation: single-branch filters or calls into other components.
- The graph engine itself: an invocation is a walk along the graph's edges, which is what the built chain allows it.
- Interleavings inside one session handler: the session's handlers are single steps; `Completions` and `AgentTasks` are finer, and `SessionGuarantees.GuardOmitsExecution` names one thing atomicity hides.
- Exceptions in session handlers are modelled where a call can change what the session comes to: admission, decomposition, discovery, the gate, the order, sends, the supervisor after its start, and the validator's answer. Those in event emission, archiving and telemetry are not.
- Session's accept message carries the execution's status; `Execution` says what a status of success means for an approved proposal, and an exception of the graph itself and a scoring or synthesis answer that cannot be read are flags there.
- Negotiation: whether lists nested in an answer can be sorted is part of the answer, because it depends on which of them Python compares; infinities and NaN, which Python reads from JSON, are not values of `Json` (like any fraction they leave the order unchanged).
- AgentTasks: a done task is forgotten at once, where the source does it in a callback shortly after; an attached agent is attached once; a dissolve handled inside a task belongs to that task's own session, as the offer it sent does, and a stop is handled outside all tasks.
- SessionGuarantees.OneEvaluationPerCycle: assumes that no handler breaks off, because with one that does the claim is false (`SessionGuarantees.BreakReopensBarrier`, `SessionGuarantees.BrokenAcceptReopensBarrier`).
- SessionGuarantees.RoundStaysAtMostOne: makes the same assumption, for the same reason.
- SessionGuarantees.FallbackExactly: makes the same assumption, without which it is false (`SessionGuarantees.BrokenAcceptReachesFallback`).
- SessionGuarantees.HistoryCountsRefusals: assumes that the notice of no approved answer failed to go out, because then a live session has an approval in its history; `SessionGuarantees.HistoryNumbersRounds` needs no such assumption.
- Completions.OneEntryPerSession: assumes that no send fails, because a failed one leaves its entry (`Completions.FailedSendLeavesEntry`).
