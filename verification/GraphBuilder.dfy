/** The chain built from a plan, and what running it does to the graph state. */
module GraphBuilder {
  import opened Options
  import opened Json

  datatype PlanStep = PlanStep(agent: string, capability: string)

  datatype StepError = StepError(agent: string, capability: string, message: string)

  datatype GraphState = GraphState(results: map<string, Json>, errors: seq<StepError>)

  /** An executor raises, or returns a state of its own. */
  datatype Outcome = Raises(message: string) | Returns(state: GraphState)

  /** The executor of an agent sees the state, the step's index and its capability. */
  type Executor = (GraphState, nat, string) -> Outcome

  // ------------------------------------------------------------------
  // The graph
  // ------------------------------------------------------------------

  const START := "__start__"
  const END := "__end__"

  datatype Graph = Graph(nodes: seq<string>, edges: set<(string, string)>)

  function NodeName(i: nat, agent: string): string {
    "step_" + Digits(i) + "_" + agent
  }

  function NodeNames(steps: seq<PlanStep>): (names: seq<string>)
    ensures |names| == |steps| && forall i :: 0 <= i < |steps| ==> names[i] == NodeName(i, steps[i].agent)
  {
    if steps == [] then []
    else NodeNames(steps[..|steps| - 1]) + [NodeName(|steps| - 1, steps[|steps| - 1].agent)]
  }

  function Route(steps: seq<PlanStep>): seq<string> {
    [START] + NodeNames(steps) + [END]
  }

  /** The edges between neighbours of a list. */
  function Links(names: seq<string>): set<(string, string)> {
    if |names| < 2 then {}
    else Links(names[..|names| - 1]) + {(names[|names| - 2], names[|names| - 1])}
  }

  lemma {:induction false} LinksExact(names: seq<string>, from: string, to: string)
    ensures (from, to) in Links(names) <==> exists i :: 0 <= i < |names| - 1 && from == names[i] && to == names[i + 1]
  {
    if |names| >= 2 {
      var init := names[..|names| - 1];
      LinksExact(init, from, to);
      if exists i :: 0 <= i < |init| - 1 && from == init[i] && to == init[i + 1] {
        var i :| 0 <= i < |init| - 1 && from == init[i] && to == init[i + 1];
        assert from == names[i] && to == names[i + 1];
      }
      if from == names[|names| - 2] && to == names[|names| - 1] {
        assert to == names[(|names| - 2) + 1];
      }
    }
  }

  lemma LinksSnoc(names: seq<string>, name: string)
    requires names != []
    ensures Links(names + [name]) == Links(names) + {(names[|names| - 1], name)}
  {
  }

  /** None is the error for an empty plan. */
  method Build(steps: seq<PlanStep>) returns (graph: Option<Graph>)
    ensures graph == if steps == [] then None else Some(Graph(NodeNames(steps), Links(Route(steps))))
  {
    if steps == [] {
      return None;
    }
    var names: seq<string> := [];
    for i := 0 to |steps|
      invariant names == NodeNames(steps[..i])
    {
      assert steps[..i + 1][..i] == steps[..i];
      names := names + [NodeName(i, steps[i].agent)];
    }
    assert steps[..|steps|] == steps;
    var edges := Wire(names);
    graph := Some(Graph(names, edges));
  }

  /** Start to the first node, each node to the next, the last node to the end. */
  method Wire(names: seq<string>) returns (edges: set<(string, string)>)
    requires names != []
    ensures edges == Links([START] + names + [END])
  {
    edges := {(START, names[0])};
    ghost var route := [START, names[0]];
    assert Links([START]) == {};
    LinksSnoc([START], names[0]);
    assert route == [START] + [names[0]];
    for i := 0 to |names| - 1
      invariant route == [START] + names[..i + 1]
      invariant edges == Links(route)
    {
      LinksSnoc(route, names[i + 1]);
      edges := edges + {(names[i], names[i + 1])};
      route := route + [names[i + 1]];
    }
    assert names[..|names|] == names;
    LinksSnoc(route, END);
    edges := edges + {(names[|names| - 1], END)};
  }

  ghost predicate Distinct(names: seq<string>) {
    forall i, j :: 0 <= i < j < |names| ==> names[i] != names[j]
  }

  lemma DigitsEndAtSeparator(x: string, a: string, y: string, b: string)
    requires forall i :: 0 <= i < |x| ==> x[i] != '_'
    requires forall i :: 0 <= i < |y| ==> y[i] != '_'
    requires x + "_" + a == y + "_" + b
    ensures x == y
  {
    var l, r := x + "_" + a, y + "_" + b;
    assert |x| == |y| by {
      assert l[|x|] == '_' && r[|y|] == '_';
      assert forall i :: 0 <= i < |x| ==> l[i] == x[i];
      assert forall i :: 0 <= i < |y| ==> r[i] == y[i];
    }
    assert x == l[..|x|] && y == r[..|y|];
  }

  /** Names differ as soon as positions do, whatever the agents are called. */
  lemma NodeNamesDiffer(i: nat, a: string, j: nat, b: string)
    requires i != j
    ensures NodeName(i, a) != NodeName(j, b)
  {
    if NodeName(i, a) == NodeName(j, b) {
      var l, r := NodeName(i, a), NodeName(j, b);
      assert l[5..] == Digits(i) + "_" + a && r[5..] == Digits(j) + "_" + b;
      DigitsEndAtSeparator(Digits(i), a, Digits(j), b);
      DigitsRoundTrip(i);
      DigitsRoundTrip(j);
      assert false;
    }
  }

  lemma RouteIsDistinct(steps: seq<PlanStep>)
    ensures Distinct(Route(steps))
  {
    var route := Route(steps);
    forall i, j | 0 <= i < j < |route| ensures route[i] != route[j] {
      if 0 < i && j < |route| - 1 {
        NodeNamesDiffer(i - 1, steps[i - 1].agent, j - 1, steps[j - 1].agent);
      } else {
        assert START[0] == '_' && END[0] == '_' && START[2] != END[2];
        assert forall k :: 0 < k < |route| - 1 ==> route[k][0] == 's';
      }
    }
  }

  /** A run of the graph: from start to end along edges. */
  ghost predicate IsRun(graph: Graph, visited: seq<string>) {
    && |visited| >= 2
    && visited[0] == START && visited[|visited| - 1] == END
    && forall i :: 0 <= i < |visited| - 1 ==> (visited[i], visited[i + 1]) in graph.edges
  }

  /** Each route node has one way on. */
  lemma OnlySuccessor(names: seq<string>, k: nat, next: string)
    requires Distinct(names) && k < |names| && (names[k], next) in Links(names)
    ensures k + 1 < |names| && next == names[k + 1]
  {
    LinksExact(names, names[k], next);
    var i :| 0 <= i < |names| - 1 && names[k] == names[i] && next == names[i + 1];
    assert i == k;
  }

  lemma {:induction false} RunFollowsRoute(names: seq<string>, visited: seq<string>, n: nat)
    requires Distinct(names) && names != [] && visited != [] && visited[0] == names[0] && n < |visited|
    requires forall i :: 0 <= i < |visited| - 1 ==> (visited[i], visited[i + 1]) in Links(names)
    ensures n < |names| && visited[n] == names[n]
  {
    if n > 0 {
      RunFollowsRoute(names, visited, n - 1);
      assert (visited[n - 1], visited[n - 1 + 1]) in Links(names);
      OnlySuccessor(names, n - 1, visited[n]);
    }
  }

  /** The built graph has one run: every step once, in plan order. */
  lemma EveryRunIsThePlan(steps: seq<PlanStep>, visited: seq<string>)
    ensures IsRun(Graph(NodeNames(steps), Links(Route(steps))), visited) <==> visited == Route(steps)
  {
    var route := Route(steps);
    RouteIsDistinct(steps);
    forall i | 0 <= i < |route| - 1 ensures (route[i], route[i + 1]) in Links(route) {
      LinksExact(route, route[i], route[i + 1]);
    }
    if IsRun(Graph(NodeNames(steps), Links(route)), visited) {
      forall n | 0 <= n < |visited| ensures n < |route| && visited[n] == route[n] {
        RunFollowsRoute(route, visited, n);
      }
      assert |visited| <= |route| by {
        RunFollowsRoute(route, visited, |visited| - 1);
      }
      assert visited[|visited| - 1] == route[|visited| - 1] == END == route[|route| - 1];
    }
  }

  // ------------------------------------------------------------------
  // Running the chain
  // ------------------------------------------------------------------

  /** The placeholder of an agent with no executor: it returns, with its
      complaint in the errors of the state it returns. */
  function Missing(state: GraphState, agent: string): Outcome {
    Returns(state.(errors := state.errors + [StepError(agent, "", "No executor registered")]))
  }

  function Call(executors: map<string, Executor>, step: PlanStep, i: nat, state: GraphState): Outcome {
    if step.agent in executors then executors[step.agent](state, i, step.capability) else Missing(state, step.agent)
  }

  const OK := JStr("ok")

  /** The wrapped node: the executor's own key on success, one error on failure. */
  function RunNode(executors: map<string, Executor>, step: PlanStep, i: nat, state: GraphState): GraphState {
    match Call(executors, step, i, state)
    case Raises(message) => state.(errors := state.errors + [StepError(step.agent, step.capability, message)])
    case Returns(updated) =>
      var result := if step.agent in updated.results then updated.results[step.agent] else OK;
      state.(results := state.results[step.agent := result])
  }

  /** The state after the first `n` steps. */
  function After(executors: map<string, Executor>, steps: seq<PlanStep>, n: nat, initial: GraphState): GraphState
    requires n <= |steps|
  {
    if n == 0 then initial
    else RunNode(executors, steps[n - 1], n - 1, After(executors, steps, n - 1, initial))
  }

  /** One step of the chain: the agent's executor is given the state the earlier steps left,
      the step's own index and its own capability. What it raises becomes an error after
      the earlier ones; of what it returns only its own result is taken, "ok" if it has
      none; and an agent without executor keeps its result, or gets "ok". */
  ghost predicate IsStep(executors: map<string, Executor>, step: PlanStep, k: nat, before: GraphState,
                         after: GraphState)
  {
    if step.agent !in executors then
      && after.errors == before.errors
      && after.results.Keys == before.results.Keys + {step.agent}
      && forall a :: a in after.results ==>
           after.results[a] == if a in before.results then before.results[a] else JStr("ok")
    else match executors[step.agent](before, k, step.capability)
      case Raises(message) =>
        && after.results == before.results
        && after.errors == before.errors + [StepError(step.agent, step.capability, message)]
      case Returns(updated) =>
        && after.errors == before.errors
        && after.results.Keys == before.results.Keys + {step.agent}
        && (forall a :: a in before.results && a != step.agent ==> after.results[a] == before.results[a])
        && after.results[step.agent] ==
             if step.agent in updated.results then updated.results[step.agent] else JStr("ok")
  }

  /** The chain runs every step once, in the order of the plan, from the initial state. */
  lemma {:induction false} ChainExactly(executors: map<string, Executor>, steps: seq<PlanStep>, k: nat,
                                        initial: GraphState)
    requires k < |steps|
    ensures After(executors, steps, 0, initial) == initial
    ensures IsStep(executors, steps[k], k, After(executors, steps, k, initial),
                   After(executors, steps, k + 1, initial))
  {
  }

  predicate Succeeded(executors: map<string, Executor>, steps: seq<PlanStep>, k: nat, initial: GraphState)
    requires k < |steps|
  {
    Call(executors, steps[k], k, After(executors, steps, k, initial)).Returns?
  }

  function Successes(executors: map<string, Executor>, steps: seq<PlanStep>, n: nat, initial: GraphState): nat
    requires n <= |steps|
  {
    if n == 0 then 0
    else Successes(executors, steps, n - 1, initial) + (if Succeeded(executors, steps, n - 1, initial) then 1 else 0)
  }

  /** Each step either succeeds or adds one error, never both: the errors added and
      the successful steps make up the plan, and earlier errors stay in front. */
  lemma {:induction false} ErrorsAndSuccessesMakeThePlan(executors: map<string, Executor>, steps: seq<PlanStep>,
                                                         n: nat, initial: GraphState)
    requires n <= |steps|
    ensures var final := After(executors, steps, n, initial);
      && initial.errors <= final.errors
      && (|final.errors| - |initial.errors|) + Successes(executors, steps, n, initial) == n
  {
    if n > 0 {
      ErrorsAndSuccessesMakeThePlan(executors, steps, n - 1, initial);
    }
  }

  /** A node leaves every other agent's result alone. */
  lemma NodeKeepsOtherResults(executors: map<string, Executor>, step: PlanStep, i: nat, state: GraphState,
                              other: string)
    requires other != step.agent
    ensures var next := RunNode(executors, step, i, state);
      (other in next.results <==> other in state.results)
      && (other in state.results ==> next.results[other] == state.results[other])
  {
  }

  /** What a successful step leaves under its agent's name. */
  function Produced(executors: map<string, Executor>, steps: seq<PlanStep>, k: nat, initial: GraphState): Json
    requires k < |steps| && Succeeded(executors, steps, k, initial)
  {
    var updated := Call(executors, steps[k], k, After(executors, steps, k, initial)).state;
    if steps[k].agent in updated.results then updated.results[steps[k].agent] else OK
  }

  /** Step `k` is the last of the first `n` that `agent` completed. */
  predicate LastSuccess(executors: map<string, Executor>, steps: seq<PlanStep>, n: nat, initial: GraphState,
                        agent: string, k: nat)
    requires n <= |steps|
  {
    && k < n && steps[k].agent == agent && Succeeded(executors, steps, k, initial)
    && forall l :: k < l < n ==> steps[l].agent != agent || !Succeeded(executors, steps, l, initial)
  }

  /** An agent's result at the end is what its last successful step produced. */
  lemma {:induction false} LastSuccessWins(executors: map<string, Executor>, steps: seq<PlanStep>, n: nat,
                                           initial: GraphState, agent: string, k: nat)
    requires n <= |steps| && LastSuccess(executors, steps, n, initial, agent, k)
    ensures var final := After(executors, steps, n, initial).results;
      agent in final && final[agent] == Produced(executors, steps, k, initial)
  {
    if k < n - 1 {
      LastSuccessWins(executors, steps, n - 1, initial, agent, k);
    }
  }

  /** An agent none of whose steps succeeded has the result it started with. */
  lemma {:induction false} NoSuccessKeepsResult(executors: map<string, Executor>, steps: seq<PlanStep>, n: nat,
                                                initial: GraphState, agent: string)
    requires n <= |steps|
    requires forall k :: 0 <= k < n && steps[k].agent == agent ==> !Succeeded(executors, steps, k, initial)
    ensures var final := After(executors, steps, n, initial).results;
      (agent in final <==> agent in initial.results) && (agent in final ==> final[agent] == initial.results[agent])
  {
    if n > 0 {
      NoSuccessKeepsResult(executors, steps, n - 1, initial, agent);
    }
  }

  /** A step whose agent has no executor is not recorded as an error: its complaint
      stays in the state the wrapper drops, and the step counts as a success. */
  lemma MissingExecutorIsSuccess(executors: map<string, Executor>, steps: seq<PlanStep>, k: nat, initial: GraphState)
    requires k < |steps| && steps[k].agent !in executors
    ensures Succeeded(executors, steps, k, initial)
    ensures After(executors, steps, k + 1, initial).errors == After(executors, steps, k, initial).errors
    ensures steps[k].agent !in After(executors, steps, k, initial).results ==>
      Produced(executors, steps, k, initial) == OK
  {
  }
}
