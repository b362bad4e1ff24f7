/** Plans and their validation (planning/planner.py). */
module Planner {
  import opened Wrappers
  import opened Digraph

  datatype StepStatus = Pending | Running | Done | Failed | Skipped

  datatype PlanStep = PlanStep(
    stepId: int,
    description: string,
    dependsOn: seq<int>,
    toolsNeeded: seq<string>,
    status: StepStatus,
    result: string,
    error: string)

  /** The mutable plan record. The step objects live at fixed positions of `steps`;
      a reference to a step object is a position. */
  class Plan {
    var goal: string
    var steps: seq<PlanStep>
    var replanCount: int

    constructor (goal: string, steps: seq<PlanStep>, replanCount: int)
      ensures this.goal == goal && this.steps == steps && this.replanCount == replanCount
    {
      this.goal, this.steps, this.replanCount := goal, steps, replanCount;
    }
  }

  // ---------- What a valid plan is ----------

  ghost function Ids(steps: seq<PlanStep>): set<int> {
    set i | 0 <= i < |steps| :: steps[i].stepId
  }

  ghost predicate UniqueIds(steps: seq<PlanStep>) {
    forall i, j :: 0 <= i < j < |steps| ==> steps[i].stepId != steps[j].stepId
  }

  /** The dictionary from identifiers to dependencies; a later step wins. */
  function DependencyGraph(steps: seq<PlanStep>): Graph<int> {
    if steps == [] then map[]
    else var last := steps[|steps| - 1];
         DependencyGraph(steps[..|steps| - 1])[last.stepId := last.dependsOn]
  }

  /** The step depends only on other steps of the plan. */
  ghost predicate DependenciesPresent(steps: seq<PlanStep>, step: PlanStep) {
    forall d :: d in step.dependsOn ==> d in Ids(steps) && d != step.stepId
  }

  ghost predicate WellFormedSteps(steps: seq<PlanStep>) {
    && UniqueIds(steps)
    && (forall i :: 0 <= i < |steps| ==> steps[i].stepId > 0 && steps[i].description != "")
    && (forall i :: 0 <= i < |steps| ==> DependenciesPresent(steps, steps[i]))
  }

  ghost predicate ValidSteps(steps: seq<PlanStep>) {
    WellFormedSteps(steps) && !Cyclic(DependencyGraph(steps))
  }

  lemma {:induction false} GraphOfSteps(steps: seq<PlanStep>)
    requires UniqueIds(steps)
    ensures DependencyGraph(steps).Keys == Ids(steps)
    ensures forall i :: 0 <= i < |steps| ==>
              steps[i].stepId in DependencyGraph(steps) && DependencyGraph(steps)[steps[i].stepId] == steps[i].dependsOn
  {
    hide Ids;
    if steps == [] {
      NoIds();
    } else {
      var init := steps[..|steps| - 1];
      assert forall i :: 0 <= i < |init| ==> init[i] == steps[i];
      GraphOfSteps(init);
      IdsOfLast(steps);
    }
  }

  lemma NoIds()
    ensures Ids([]) == {}
  {
  }

  lemma IdsOfLast(steps: seq<PlanStep>)
    requires steps != []
    ensures Ids(steps) == Ids(steps[..|steps| - 1]) + {steps[|steps| - 1].stepId}
  {
    var init := steps[..|steps| - 1];
    forall x | x in Ids(steps)
      ensures x in Ids(init) + {steps[|steps| - 1].stepId}
    {
      var i :| 0 <= i < |steps| && steps[i].stepId == x;
      if i < |init| {
        assert init[i].stepId == x;
      }
    }
    forall x | x in Ids(init)
      ensures x in Ids(steps)
    {
      var i :| 0 <= i < |init| && init[i].stepId == x;
      assert steps[i].stepId == x;
    }
  }

  lemma GraphIsClosed(steps: seq<PlanStep>)
    requires WellFormedSteps(steps)
    ensures Closed(DependencyGraph(steps))
  {
    GraphOfSteps(steps);
    var g := DependencyGraph(steps);
    forall n, m | n in g && m in g[n]
      ensures m in g
    {
      var i :| 0 <= i < |steps| && steps[i].stepId == n;
      assert m in steps[i].dependsOn;
    }
  }

  /** A well-formed plan is valid exactly when the steps can be ranked with dependencies below. */
  lemma ValidIffRanked(steps: seq<PlanStep>)
    requires WellFormedSteps(steps)
    ensures ValidSteps(steps) <==> Rankable(DependencyGraph(steps))
  {
    GraphIsClosed(steps);
    AcyclicIffRankable(DependencyGraph(steps));
  }

  // ---------- Cycle detection ----------

  /** Some cycle leads from the node back to it. */
  ghost predicate OnCycle(g: Graph<int>, x: int) {
    exists p :: Cycle(g, p) && p[0] == x
  }

  /** The chain of active calls, ending in a node that `id` is a successor of. */
  ghost predicate CallChain(g: Graph<int>, visiting: set<int>, chain: seq<int>, id: int) {
    && id in g
    && Walk(g, chain)
    && (chain != [] ==> id in g[chain[|chain| - 1]])
    && (forall x :: x in visiting ==> x in chain)
  }

  /** The closure variables of the depth-first search; `rank` numbers the finished
      nodes by finishing time. */
  class CycleCheck {
    const graph: Graph<int>
    var visiting: set<int>
    var visited: set<int>
    ghost var rank: map<int, nat>

    constructor (graph: Graph<int>)
      requires Closed(graph)
      ensures Valid() && this.graph == graph && visited == {} && visiting == {}
    {
      this.graph := graph;
      visiting, visited, rank := {}, {}, map[];
    }

    ghost predicate Valid()
      reads this
    {
      && Closed(graph)
      && visiting !! visited
      && RankedPart(graph, rank)
      && rank.Keys == visited
    }

    /** Visits a node; the result is the node at which a cycle was detected, if any. */
    method Visit(id: int, ghost chain: seq<int>) returns (cycleAt: Option<int>)
      requires Valid() && CallChain(graph, visiting, chain, id)
      modifies this
      ensures cycleAt.None? ==> Valid() && visiting == old(visiting) && old(visited) <= visited && id in visited
      ensures cycleAt.Some? ==> OnCycle(graph, cycleAt.value)
      decreases graph.Keys - visiting - visited
    {
      hide OnCycle, CallChain, Closed, RankedPart;
      IsNode(graph, visiting, chain, id);
      if id in visited {
        return None;
      }
      if id in visiting {
        CloseCycle(graph, visiting, chain, id);
        return Some(id);
      }
      visiting := visiting + {id};
      var deps := graph[id];
      for k := 0 to |deps|
        invariant Valid() && visiting == old(visiting) + {id} && old(visited) <= visited
        invariant forall j :: 0 <= j < k ==> deps[j] in visited
      {
        assert id in old(graph.Keys - visiting - visited) && id !in graph.Keys - visiting - visited;
        ExtendChain(graph, old(visiting), chain, id, deps[k]);
        cycleAt := Visit(deps[k], chain + [id]);
        if cycleAt.Some? {
          return;
        }
      }
      assert id !in visited;
      FinishRanking(graph, rank, id);
      visiting := visiting - {id};
      visited := visited + {id};
      rank := rank[id := |rank|];
      assert visiting == old(visiting);
      return None;
    }
  }

  lemma IsNode(g: Graph<int>, visiting: set<int>, chain: seq<int>, id: int)
    requires CallChain(g, visiting, chain, id)
    ensures id in g
  {
  }

  /** Reaching a node on the stack again closes a cycle through that node. */
  lemma CloseCycle(g: Graph<int>, visiting: set<int>, chain: seq<int>, id: int)
    requires CallChain(g, visiting, chain, id) && id in visiting
    ensures OnCycle(g, id)
  {
    var i :| 0 <= i < |chain| && chain[i] == id;
    var p := chain[i..] + [id];
    assert Cycle(g, p) && p[0] == id;
  }

  lemma OnCycleIsCyclic(g: Graph<int>, id: int)
    requires OnCycle(g, id)
    ensures Cyclic(g)
  {
  }

  lemma ExtendChain(g: Graph<int>, visiting: set<int>, chain: seq<int>, id: int, dep: int)
    requires CallChain(g, visiting, chain, id) && Closed(g) && dep in g[id]
    ensures CallChain(g, visiting + {id}, chain + [id], dep)
  {
  }

  lemma FinishRanking(g: Graph<int>, rank: map<int, nat>, id: int)
    requires RankedPart(g, rank) && id in g && id !in rank && forall d :: d in g[id] ==> d in rank
    ensures RankedPart(g, rank[id := |rank|]) && rank[id := |rank|].Keys == rank.Keys + {id}
  {
    var wider := rank[id := |rank|];
    assert |wider| == |rank| + 1;
    forall n | n in wider
      ensures RankedNode(g, wider, n)
    {
      if n != id {
        assert RankedNode(g, rank, n);
      }
    }
  }

  lemma RootCall(g: Graph<int>, id: int)
    requires id in g
    ensures CallChain(g, {}, [], id)
  {
  }

  lemma AllRanked(g: Graph<int>, rank: map<int, nat>)
    requires RankedPart(g, rank) && g.Keys <= rank.Keys
    ensures !Cyclic(g)
  {
    RankedIsAcyclic(g, rank);
  }

  /** Reports a step exactly when the dependencies contain a cycle, and then one that lies on a cycle. */
  method ValidateAcyclic(steps: seq<PlanStep>) returns (cycleAt: Option<int>)
    requires WellFormedSteps(steps)
    ensures cycleAt.Some? <==> Cyclic(DependencyGraph(steps))
    ensures cycleAt.Some? ==> OnCycle(DependencyGraph(steps), cycleAt.value)
  {
    hide RankedPart, CallChain, Cyclic, OnCycle, Closed;
    var graph := DependencyGraph(steps);
    assert Closed(graph) && graph.Keys == Ids(steps) by {
      GraphIsClosed(steps);
      GraphOfSteps(steps);
    }
    var check := new CycleCheck(graph);
    for k := 0 to |steps|
      invariant check.Valid() && check.visiting == {}
      invariant forall j :: 0 <= j < k ==> steps[j].stepId in check.visited
    {
      assert steps[k].stepId in Ids(steps);
      RootCall(graph, steps[k].stepId);
      cycleAt := check.Visit(steps[k].stepId, []);
      if cycleAt.Some? {
        OnCycleIsCyclic(graph, cycleAt.value);
        return;
      }
    }
    assert check.graph.Keys <= check.visited;
    AllRanked(check.graph, check.rank);
    return None;
  }

  // ---------- Validation ----------

  datatype PlanError =
    | EmptyGoal
    | NonPositiveId(stepId: int)
    | DuplicateId(stepId: int)
    | EmptyDescription(stepId: int)
    | SelfDependency(stepId: int)
    | MissingDependency(stepId: int, depId: int)
    | DependencyCycle(stepId: int)

  /** What an error says about the plan it was raised for. */
  ghost predicate Justified(e: PlanError, goal: string, steps: seq<PlanStep>) {
    match e
    case EmptyGoal => goal == ""
    case NonPositiveId(id) => id <= 0 && id in Ids(steps)
    case DuplicateId(id) => exists i, j :: 0 <= i < j < |steps| && steps[i].stepId == steps[j].stepId == id
    case EmptyDescription(id) => exists i :: 0 <= i < |steps| && steps[i].stepId == id && steps[i].description == ""
    case SelfDependency(id) => exists i :: 0 <= i < |steps| && steps[i].stepId == id && id in steps[i].dependsOn
    case MissingDependency(id, dep) =>
      dep !in Ids(steps) && exists i :: 0 <= i < |steps| && steps[i].stepId == id && dep in steps[i].dependsOn
    case DependencyCycle(id) => UniqueIds(steps) && OnCycle(DependencyGraph(steps), id)
  }

  /** Accepts exactly the valid plans, and every rejection names a real defect. */
  method ValidatePlan(plan: Plan) returns (error: Option<PlanError>)
    ensures error.None? <==> plan.goal != "" && ValidSteps(plan.steps)
    ensures error.Some? ==> Justified(error.value, plan.goal, plan.steps)
  {
    var steps := plan.steps;
    if plan.goal == "" {
      return Some(EmptyGoal);
    }
    var seen: set<int> := {};
    for k := 0 to |steps|
      invariant seen == set i | 0 <= i < k :: steps[i].stepId
      invariant UniqueIds(steps[..k])
      invariant forall i :: 0 <= i < k ==> steps[i].stepId > 0 && steps[i].description != ""
    {
      if steps[k].stepId <= 0 {
        return Some(NonPositiveId(steps[k].stepId));
      }
      if steps[k].stepId in seen {
        return Some(DuplicateId(steps[k].stepId));
      }
      if steps[k].description == "" {
        return Some(EmptyDescription(steps[k].stepId));
      }
      seen := seen + {steps[k].stepId};
    }
    assert steps[..|steps|] == steps;
    for k := 0 to |steps|
      invariant forall i :: 0 <= i < k ==> DependenciesPresent(steps, steps[i])
      invariant seen == Ids(steps)
    {
      var deps := steps[k].dependsOn;
      for m := 0 to |deps|
        invariant forall j :: 0 <= j < m ==> deps[j] in seen && deps[j] != steps[k].stepId
      {
        assert deps[m] in steps[k].dependsOn;
        if deps[m] == steps[k].stepId {
          assert !DependenciesPresent(steps, steps[k]);
          return Some(SelfDependency(deps[m]));
        }
        if deps[m] !in seen {
          assert !DependenciesPresent(steps, steps[k]);
          return Some(MissingDependency(steps[k].stepId, deps[m]));
        }
      }
    }
    var cycleAt := ValidateAcyclic(steps);
    if cycleAt.Some? {
      return Some(DependencyCycle(cycleAt.value));
    }
    return None;
  }
}
