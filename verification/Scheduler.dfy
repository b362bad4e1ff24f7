/** Dependency scheduling of plan steps (planning/scheduler.py). */
module Scheduler {
  import opened Wrappers
  import opened Digraph
  import opened Planner

  // ---------- Specification ----------

  /** The first position holding the identifier, or the length when there is none. */
  function FirstIndex(steps: seq<PlanStep>, id: int): (k: nat)
    ensures k <= |steps|
    ensures k < |steps| ==> steps[k].stepId == id
    ensures forall i :: 0 <= i < k ==> steps[i].stepId != id
  {
    if steps == [] then 0
    else if steps[0].stepId == id then 0
    else 1 + FirstIndex(steps[1..], id)
  }

  /** The dependency is found, by first match, and is DONE. */
  predicate DependencyDone(steps: seq<PlanStep>, d: int) {
    var k := FirstIndex(steps, d);
    k < |steps| && steps[k].status.Done?
  }

  predicate IsReady(steps: seq<PlanStep>, i: nat)
    requires i < |steps|
  {
    steps[i].status.Pending? && forall d :: d in steps[i].dependsOn ==> DependencyDone(steps, d)
  }

  /** The ready positions below `n`, in plan order. */
  function ReadyBelow(steps: seq<PlanStep>, n: nat): (ready: seq<nat>)
    requires n <= |steps|
    ensures forall i: nat :: i in ready <==> i < n && IsReady(steps, i)
    ensures forall a, b :: 0 <= a < b < |ready| ==> ready[a] < ready[b]
  {
    if n == 0 then []
    else
      var before := ReadyBelow(steps, n - 1);
      assert forall a :: 0 <= a < |before| ==> before[a] in before;
      if IsReady(steps, n - 1) then before + [n - 1] else before
  }

  function ReadySteps(steps: seq<PlanStep>): seq<nat> {
    ReadyBelow(steps, |steps|)
  }

  function PendingCount(steps: seq<PlanStep>): (n: nat)
    ensures n <= |steps|
  {
    if steps == [] then 0
    else PendingCount(steps[..|steps| - 1]) + if steps[|steps| - 1].status.Pending? then 1 else 0
  }

  function MarkedDone(steps: seq<PlanStep>, id: int, result: string): seq<PlanStep> {
    var k := FirstIndex(steps, id);
    if k < |steps| then steps[k := steps[k].(status := Done, result := result)] else steps
  }

  function MarkedFailed(steps: seq<PlanStep>, id: int, error: string): seq<PlanStep> {
    var k := FirstIndex(steps, id);
    if k < |steps| then steps[k := steps[k].(status := Failed, error := error)] else steps
  }

  // ---------- The code ----------

  method GetStep(plan: Plan, id: int) returns (found: Option<nat>)
    ensures found == if FirstIndex(plan.steps, id) < |plan.steps| then Some(FirstIndex(plan.steps, id)) else None
  {
    for i := 0 to |plan.steps|
      invariant forall j :: 0 <= j < i ==> plan.steps[j].stepId != id
    {
      if plan.steps[i].stepId == id {
        return Some(i);
      }
    }
    return None;
  }

  method GetNextSteps(plan: Plan) returns (ready: seq<nat>)
    ensures ready == ReadySteps(plan.steps)
  {
    ready := [];
    for i := 0 to |plan.steps|
      invariant ready == ReadyBelow(plan.steps, i)
    {
      var step := plan.steps[i];
      if step.status.Pending? {
        var depsDone := true;
        var k := 0;
        while k < |step.dependsOn| && depsDone
          invariant k <= |step.dependsOn|
          invariant depsDone <==> forall j :: 0 <= j < k ==> DependencyDone(plan.steps, step.dependsOn[j])
        {
          var found := GetStep(plan, step.dependsOn[k]);
          depsDone := found.Some? && plan.steps[found.value].status.Done?;
          k := k + 1;
        }
        if depsDone {
          ready := ready + [i];
        }
      }
    }
  }

  method GetRemainingCount(plan: Plan) returns (n: nat)
    ensures n == PendingCount(plan.steps)
  {
    n := 0;
    for i := 0 to |plan.steps|
      invariant n == PendingCount(plan.steps[..i])
    {
      assert plan.steps[..i + 1][..i] == plan.steps[..i];
      if plan.steps[i].status.Pending? {
        n := n + 1;
      }
    }
    assert plan.steps[..|plan.steps|] == plan.steps;
  }

  method MarkStepDone(plan: Plan, id: int, result: string)
    modifies plan`steps
    ensures plan.steps == MarkedDone(old(plan.steps), id, result)
  {
    var found := GetStep(plan, id);
    if found.Some? {
      plan.steps := plan.steps[found.value := plan.steps[found.value].(status := Done, result := result)];
    }
  }

  method MarkStepFailed(plan: Plan, id: int, error: string)
    modifies plan`steps
    ensures plan.steps == MarkedFailed(old(plan.steps), id, error)
  {
    var found := GetStep(plan, id);
    if found.Some? {
      plan.steps := plan.steps[found.value := plan.steps[found.value].(status := Failed, error := error)];
    }
  }

  // ---------- Safety vocabulary ----------

  ghost function DoneIds(steps: seq<PlanStep>): set<int> {
    set i | 0 <= i < |steps| && steps[i].status.Done? :: steps[i].stepId
  }

  ghost predicate DependenciesDone(steps: seq<PlanStep>, step: PlanStep) {
    forall d :: d in step.dependsOn ==> d in DoneIds(steps)
  }

  /** The DONE steps are closed under `depends_on`. */
  ghost predicate DoneClosed(steps: seq<PlanStep>) {
    forall i :: 0 <= i < |steps| && steps[i].status.Done? ==> DependenciesDone(steps, steps[i])
  }

  ghost predicate NoneRunning(steps: seq<PlanStep>) {
    forall i :: 0 <= i < |steps| ==> !steps[i].status.Running?
  }

  /** What holds whenever the loop selects steps. */
  ghost predicate Quiescent(steps: seq<PlanStep>) {
    UniqueIds(steps) && NoneRunning(steps) && DoneClosed(steps)
  }

  lemma FoundAtItself(steps: seq<PlanStep>, i: nat)
    requires UniqueIds(steps) && i < |steps|
    ensures FirstIndex(steps, steps[i].stepId) == i
  {
  }

  /** With unique identifiers the first-match lookup asks whether the DONE set has the identifier. */
  lemma LookupIsMembership(steps: seq<PlanStep>, d: int)
    requires UniqueIds(steps)
    ensures DependencyDone(steps, d) <==> d in DoneIds(steps)
  {
  }

  /** No two steps selected together depend on each other, nor does one on itself. */
  lemma BatchIsIndependent(steps: seq<PlanStep>, i: nat, j: nat)
    requires UniqueIds(steps) && i in ReadySteps(steps) && j in ReadySteps(steps)
    ensures steps[j].stepId !in steps[i].dependsOn
  {
  }

  // ---------- Progress ----------

  /** A chain of positions, each depending on the next. */
  ghost predicate DependencyChain(steps: seq<PlanStep>, c: seq<nat>) {
    && |c| >= 1
    && (forall k :: 0 <= k < |c| ==> c[k] < |steps|)
    && (forall k, l :: 0 <= k && l == k + 1 && l < |c| ==> steps[c[l]].stepId in steps[c[k]].dependsOn)
  }

  ghost predicate BlockingChain(steps: seq<PlanStep>, c: seq<nat>) {
    DependencyChain(steps, c) && |c| >= 2 && steps[c[|c| - 1]].status in {Failed, Skipped}
  }

  /** Some transitive dependency of step `i` FAILED or was SKIPPED. */
  ghost predicate Blocked(steps: seq<PlanStep>, i: nat) {
    exists c :: BlockingChain(steps, c) && c[0] == i
  }

  /** A PENDING step that is not ready has a lower-ranked dependency that is not DONE. */
  lemma UnmetDependency(steps: seq<PlanStep>, rank: map<int, nat>, i: nat) returns (j: nat)
    requires WellFormedSteps(steps) && Ranked(DependencyGraph(steps), rank)
    requires i < |steps| && steps[i].status.Pending? && !IsReady(steps, i)
    requires steps[i].stepId in rank
    ensures j < |steps| && steps[j].stepId in steps[i].dependsOn && !steps[j].status.Done?
    ensures steps[j].stepId in rank && rank[steps[j].stepId] < rank[steps[i].stepId]
  {
    var d :| d in steps[i].dependsOn && !DependencyDone(steps, d);
    assert DependenciesPresent(steps, steps[i]);
    j :| j < |steps| && steps[j].stepId == d;
    FoundAtItself(steps, j);
    GraphOfSteps(steps);
    assert RankedNode(DependencyGraph(steps), rank, steps[i].stepId);
  }

  /** With nothing running and nothing ready, a PENDING step is blocked. */
  lemma {:induction false} StuckStepIsBlocked(steps: seq<PlanStep>, rank: map<int, nat>, i: nat)
    requires WellFormedSteps(steps) && Ranked(DependencyGraph(steps), rank)
    requires NoneRunning(steps) && ReadySteps(steps) == []
    requires i < |steps| && steps[i].status.Pending?
    requires steps[i].stepId in rank
    ensures Blocked(steps, i)
    decreases rank[steps[i].stepId]
  {
    hide WellFormedSteps, Ranked, DependencyGraph, IsReady;
    assert i !in ReadySteps(steps);
    var j := UnmetDependency(steps, rank, i);
    if steps[j].status.Pending? {
      StuckStepIsBlocked(steps, rank, j);
      var c :| BlockingChain(steps, c) && c[0] == j;
      assert BlockingChain(steps, [i] + c);
    } else {
      assert BlockingChain(steps, [i, j]);
    }
  }

  lemma DoneImpliesDependencyDone(steps: seq<PlanStep>, i: nat, j: nat)
    requires UniqueIds(steps) && DoneClosed(steps) && i < |steps| && j < |steps|
    requires steps[j].stepId in steps[i].dependsOn
    ensures steps[i].status.Done? ==> steps[j].status.Done?
  {
  }

  lemma {:induction false} ChainToUndone(steps: seq<PlanStep>, c: seq<nat>)
    requires UniqueIds(steps) && DoneClosed(steps) && DependencyChain(steps, c)
    requires !steps[c[|c| - 1]].status.Done?
    ensures !steps[c[0]].status.Done?
    decreases |c|
  {
    if |c| >= 2 {
      assert DependencyChain(steps, c[1..]);
      ChainToUndone(steps, c[1..]);
      DoneImpliesDependencyDone(steps, c[0], c[1]);
    }
  }

  /** The progress theorem. When a valid plan has nothing ready, the steps that are neither
      FAILED nor SKIPPED split exactly: blocked ones are PENDING, the others are DONE. */
  lemma StuckExactlyWhenBlocked(steps: seq<PlanStep>, i: nat)
    requires ValidSteps(steps) && Quiescent(steps) && ReadySteps(steps) == []
    requires i < |steps| && steps[i].status !in {Failed, Skipped}
    ensures steps[i].status.Pending? <==> Blocked(steps, i)
    ensures steps[i].status.Done? <==> !Blocked(steps, i)
  {
    GraphIsClosed(steps);
    GraphOfSteps(steps);
    var rank := AcyclicIsRanked(DependencyGraph(steps));
    if steps[i].status.Pending? {
      StuckStepIsBlocked(steps, rank, i);
    }
    if Blocked(steps, i) {
      var c :| BlockingChain(steps, c) && c[0] == i;
      ChainToUndone(steps, c);
    }
  }

  /** If nothing failed or was skipped, a plan with nothing ready is finished. */
  lemma NothingLostMeansAllDone(steps: seq<PlanStep>)
    requires ValidSteps(steps) && NoneRunning(steps) && ReadySteps(steps) == []
    requires forall i :: 0 <= i < |steps| ==> steps[i].status !in {Failed, Skipped}
    ensures forall i :: 0 <= i < |steps| ==> steps[i].status.Done?
  {
    GraphIsClosed(steps);
    GraphOfSteps(steps);
    var rank := AcyclicIsRanked(DependencyGraph(steps));
    forall i | 0 <= i < |steps|
      ensures steps[i].status.Done?
    {
      if steps[i].status.Pending? {
        StuckStepIsBlocked(steps, rank, i);
      }
    }
  }
}
