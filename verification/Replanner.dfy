/** Step observation and replanning (planning/observer.py, planning/replanner.py).

The language model is an arbitrary environment: it may give any verdict on a step
and any replacement steps. */
module Replanner {
  import opened Wrappers
  import opened Planner
  import opened Scheduler

  // ---------- Observation ----------

  /** `Continue` stands for every action string other than "replan" and "done". */
  datatype Action = Continue | Replan | Finish

  /** A model answer that carries an action; `stepOk` may be absent. */
  datatype Verdict = Verdict(action: Action, stepOk: Option<bool>)

  datatype StepObservation = StepObservation(stepId: int, stepOk: bool, action: Action)

  /** `verdict` is `None` without a model and whenever its answer is unusable. */
  function ObserveStep(stepId: int, status: StepStatus, remaining: nat, verdict: Option<Verdict>): StepObservation {
    match verdict
    case Some(v) => StepObservation(stepId, if v.stepOk.Some? then v.stepOk.value else status.Done?, v.action)
    case None =>
      if !status.Done? && remaining > 0 then StepObservation(stepId, false, Replan)
      else if remaining == 0 then StepObservation(stepId, status.Done?, Finish)
      else StepObservation(stepId, status.Done?, Continue)
  }

  /** What the runner makes of an observation: is the step marked FAILED? */
  predicate MarksFailed(obs: StepObservation) {
    obs.action.Replan? || (obs.action.Finish? && !obs.stepOk)
  }

  /** Without a model the marking follows the execution status, and the goal is reached
      exactly when the last remaining step succeeded. A failure with steps remaining asks for a replan. */
  lemma HeuristicIsFaithful(stepId: int, status: StepStatus, remaining: nat)
    ensures MarksFailed(ObserveStep(stepId, status, remaining, None)) <==> !status.Done?
    ensures var obs := ObserveStep(stepId, status, remaining, None);
            !MarksFailed(obs) && obs.action.Finish? <==> status.Done? && remaining == 0
    ensures var obs := ObserveStep(stepId, status, remaining, None);
            && obs.stepId == stepId && obs.stepOk == status.Done?
            && (obs.action.Replan? <==> !status.Done? && remaining > 0) && (obs.action.Finish? <==> remaining == 0)
  {
  }

  // ---------- Replanning ----------

  const MAX_REPLAN_COUNT: int := 3
  const SKIP_MESSAGE := "Dependency steps failed, skipped"

  datatype NewStep = NewStep(stepId: int, description: string, dependsOn: seq<int>, toolsNeeded: seq<string>)

  /** What the model's answer amounts to.
      `NoSteps`: no model, a failing call, or no non-empty array in the answer.
      `BadItem`: an array with an element that is not an object; reading it raises after
      the counter was already increased. */
  datatype ReplanReply = NoSteps | BadItem | NewSteps(items: seq<NewStep>)

  predicate ShouldReplan(replanCount: int) {
    replanCount < MAX_REPLAN_COUNT
  }

  /** The reply replaces the open steps (an empty array counts as no steps). */
  predicate Adopted(reply: ReplanReply) {
    reply.NewSteps? && reply.items != []
  }

  predicate Settled(step: PlanStep) {
    step.status in {Done, Failed}
  }

  function Kept(steps: seq<PlanStep>): (kept: seq<PlanStep>)
    ensures forall s :: s in kept <==> s in steps && Settled(s)
  {
    if steps == [] then []
    else
      var init, last := steps[..|steps| - 1], steps[|steps| - 1];
      assert steps == init + [last];
      if Settled(last) then Kept(init) + [last] else Kept(init)
  }

  function Fresh(item: NewStep): PlanStep {
    PlanStep(item.stepId, item.description, item.dependsOn, item.toolsNeeded, Pending, "", "")
  }

  function FreshAll(items: seq<NewStep>): (steps: seq<PlanStep>)
    ensures |steps| == |items| && forall i :: 0 <= i < |items| ==> steps[i] == Fresh(items[i])
  {
    if items == [] then [] else FreshAll(items[..|items| - 1]) + [Fresh(items[|items| - 1])]
  }

  ghost function FailedIds(steps: seq<PlanStep>): set<int> {
    set i | 0 <= i < |steps| && steps[i].status.Failed? :: steps[i].stepId
  }

  predicate DependsOnAny(step: PlanStep, ids: set<int>) {
    exists d :: d in step.dependsOn && d in ids
  }

  function SkippedIf(step: PlanStep, failed: set<int>): PlanStep {
    if step.status.Pending? && DependsOnAny(step, failed) then step.(status := Skipped, error := SKIP_MESSAGE) else step
  }

  ghost function SkipDependents(steps: seq<PlanStep>): (r: seq<PlanStep>)
    ensures |r| == |steps| && forall i :: 0 <= i < |steps| ==> r[i] == SkippedIf(steps[i], FailedIds(steps))
  {
    seq(|steps|, i requires 0 <= i < |steps| => SkippedIf(steps[i], FailedIds(steps)))
  }

  ghost function ReplannedSteps(steps: seq<PlanStep>, reply: ReplanReply): seq<PlanStep> {
    if Adopted(reply) then Kept(steps) + FreshAll(reply.items) else SkipDependents(steps)
  }

  function ReplannedCount(replanCount: int, reply: ReplanReply): int {
    replanCount + if reply.BadItem? then 2 else 1
  }

  method ReplanPlan(plan: Plan, reply: ReplanReply)
    modifies plan`steps, plan`replanCount
    ensures plan.steps == ReplannedSteps(old(plan.steps), reply)
    ensures plan.replanCount == ReplannedCount(old(plan.replanCount), reply)
  {
    if reply.BadItem? || Adopted(reply) {
      plan.replanCount := plan.replanCount + 1;
    }
    if Adopted(reply) {
      var kept: seq<PlanStep> := [];
      for i := 0 to |plan.steps|
        invariant kept == Kept(plan.steps[..i])
      {
        assert plan.steps[..i + 1][..i] == plan.steps[..i];
        if Settled(plan.steps[i]) {
          kept := kept + [plan.steps[i]];
        }
      }
      assert plan.steps[..|plan.steps|] == plan.steps;
      var settled := kept;
      for i := 0 to |reply.items|
        invariant kept == settled + FreshAll(reply.items[..i])
      {
        assert reply.items[..i + 1][..i] == reply.items[..i];
        kept := kept + [Fresh(reply.items[i])];
      }
      assert reply.items[..|reply.items|] == reply.items;
      plan.steps := kept;
      return;
    }
    plan.replanCount := plan.replanCount + 1;
    var failedIds: set<int> := {};
    for i := 0 to |plan.steps|
      invariant failedIds == set j | 0 <= j < i && plan.steps[j].status.Failed? :: plan.steps[j].stepId
    {
      if plan.steps[i].status.Failed? {
        failedIds := failedIds + {plan.steps[i].stepId};
      }
    }
    for i := 0 to |plan.steps|
      invariant |plan.steps| == |old(plan.steps)|
      invariant plan.replanCount == ReplannedCount(old(plan.replanCount), reply)
      invariant forall j :: 0 <= j < i ==> plan.steps[j] == SkippedIf(old(plan.steps)[j], failedIds)
      invariant forall j :: i <= j < |plan.steps| ==> plan.steps[j] == old(plan.steps)[j]
    {
      var step := plan.steps[i];
      if step.status.Pending? && exists d :: d in step.dependsOn && d in failedIds {
        plan.steps := plan.steps[i := step.(status := Skipped, error := SKIP_MESSAGE)];
      }
    }
    assert plan.steps == SkipDependents(old(plan.steps));
  }

  // ---------- What replanning keeps ----------

  /** The replacement steps have new, pairwise distinct identifiers. The engine does not check this. */
  ghost predicate FreshItems(steps: seq<PlanStep>, items: seq<NewStep>) {
    && (forall i, j :: 0 <= i < j < |items| ==> items[i].stepId != items[j].stepId)
    && (forall i :: 0 <= i < |items| ==> items[i].stepId !in Ids(Kept(steps)))
  }

  /** Steps that were DONE are still there, unchanged. */
  ghost predicate DonePreserved(before: seq<PlanStep>, after: seq<PlanStep>) {
    forall i :: 0 <= i < |before| && before[i].status.Done? ==> before[i] in after
  }

  lemma DonePreservedIds(before: seq<PlanStep>, after: seq<PlanStep>)
    requires DonePreserved(before, after)
    ensures DoneIds(before) <= DoneIds(after)
  {
  }

  lemma {:induction false} KeptIsUnique(steps: seq<PlanStep>)
    requires UniqueIds(steps)
    ensures UniqueIds(Kept(steps))
    ensures forall id :: id in Ids(Kept(steps)) ==> id in Ids(steps)
  {
    if steps != [] {
      var init, last := steps[..|steps| - 1], steps[|steps| - 1];
      KeptIsUnique(init);
      forall i | 0 <= i < |Kept(init)|
        ensures Kept(init)[i].stepId != last.stepId
      {
        assert Kept(init)[i] in init;
      }
      forall id | id in Ids(Kept(steps))
        ensures id in Ids(steps)
      {
        var i :| 0 <= i < |Kept(steps)| && Kept(steps)[i].stepId == id;
        assert Kept(steps)[i] in steps;
      }
    }
  }

  /** An adopted reply keeps identifiers unique exactly when its own are fresh. */
  lemma UniqueIffFresh(steps: seq<PlanStep>, items: seq<NewStep>)
    requires UniqueIds(steps) && items != []
    ensures UniqueIds(ReplannedSteps(steps, NewSteps(items))) <==> FreshItems(steps, items)
  {
    KeptIsUnique(steps);
    var kept, added := Kept(steps), FreshAll(items);
    var all := kept + added;
    assert forall i :: 0 <= i < |kept| ==> all[i] == kept[i];
    assert forall i :: 0 <= i < |added| ==> all[|kept| + i] == added[i];
    if UniqueIds(all) {
      forall i, j | 0 <= i < j < |items|
        ensures items[i].stepId != items[j].stepId
      {
        assert all[|kept| + i].stepId != all[|kept| + j].stepId;
      }
      forall i | 0 <= i < |items|
        ensures items[i].stepId !in Ids(kept)
      {
        assert all[|kept| + i].stepId == items[i].stepId;
      }
    }
    if FreshItems(steps, items) {
      forall i, j | 0 <= i < j < |all|
        ensures all[i].stepId != all[j].stepId
      {
        if i < |kept| <= j {
          assert items[j - |kept|].stepId !in Ids(kept);
          assert kept[i].stepId in Ids(kept);
        }
      }
    }
  }

  lemma ReplanPreservesDone(steps: seq<PlanStep>, reply: ReplanReply)
    ensures DonePreserved(steps, ReplannedSteps(steps, reply))
    ensures forall s :: s in ReplannedSteps(steps, reply) && s.status.Done? ==> s in steps
  {
  }

  /** Some step of the plan FAILED and the given one depends on it directly. */
  ghost predicate DependsOnFailed(steps: seq<PlanStep>, step: PlanStep) {
    exists j :: 0 <= j < |steps| && steps[j].status.Failed? && steps[j].stepId in step.dependsOn
  }

  /** The heuristic branch skips exactly the PENDING steps that depend directly on a FAILED one, leaves all
      others as they were, and leaves no PENDING step that depends directly on a FAILED one. */
  lemma HeuristicSkipsExactly(steps: seq<PlanStep>, reply: ReplanReply)
    requires !Adopted(reply)
    ensures var after := ReplannedSteps(steps, reply);
            && |after| == |steps|
            && (forall i :: 0 <= i < |steps| ==>
                  if steps[i].status.Pending? && DependsOnFailed(steps, steps[i])
                  then after[i] == steps[i].(status := Skipped, error := after[i].error)
                  else after[i] == steps[i])
            && (forall i :: 0 <= i < |after| && after[i].status.Pending? ==> !DependsOnFailed(after, after[i]))
  {
    var after := ReplannedSteps(steps, reply);
    forall i | 0 <= i < |steps|
      ensures DependsOnAny(steps[i], FailedIds(steps)) <==> DependsOnFailed(steps, steps[i])
    {
      if DependsOnAny(steps[i], FailedIds(steps)) {
        var d :| d in steps[i].dependsOn && d in FailedIds(steps);
        var j :| 0 <= j < |steps| && steps[j].status.Failed? && steps[j].stepId == d;
        assert DependsOnFailed(steps, steps[i]);
      }
    }
    forall i | 0 <= i < |after| && after[i].status.Pending?
      ensures !DependsOnFailed(after, after[i])
    {
      forall j | 0 <= j < |after| && after[j].status.Failed?
        ensures after[j].stepId !in after[i].dependsOn
      {
        assert steps[j] == after[j] && steps[i] == after[i];
      }
    }
  }

  /** What is kept of a plan is what is kept of its parts, in order. */
  lemma {:induction false} KeptInOrder(a: seq<PlanStep>, b: seq<PlanStep>)
    ensures Kept(a + b) == Kept(a) + Kept(b)
  {
    if b == [] {
      assert a + b == a;
    } else {
      assert (a + b)[..|a + b| - 1] == a + b[..|b| - 1];
      KeptInOrder(a, b[..|b| - 1]);
    }
  }

  /** An adopted reply: the DONE and FAILED steps in their order, then the new ones in theirs, all PENDING. */
  lemma AdoptionReplacesExactly(steps: seq<PlanStep>, items: seq<NewStep>)
    requires items != []
    ensures var after, kept := ReplannedSteps(steps, NewSteps(items)), |Kept(steps)|;
            && |after| == kept + |items|
            && (forall s :: s in after[..kept] <==> s in steps && (s.status.Done? || s.status.Failed?))
            && (forall i :: 0 <= i < |items| ==>
                  && after[kept + i].stepId == items[i].stepId && after[kept + i].description == items[i].description
                  && after[kept + i].dependsOn == items[i].dependsOn && after[kept + i].toolsNeeded == items[i].toolsNeeded
                  && after[kept + i].status.Pending? && after[kept + i].result == "" && after[kept + i].error == "")
  {
    assert ReplannedSteps(steps, NewSteps(items))[..|Kept(steps)|] == Kept(steps);
  }

  /** Replanning keeps a quiescent plan quiescent; an adopted reply must be fresh. */
  lemma ReplanKeepsQuiescence(steps: seq<PlanStep>, reply: ReplanReply)
    requires Quiescent(steps)
    requires Adopted(reply) ==> FreshItems(steps, reply.items)
    ensures Quiescent(ReplannedSteps(steps, reply))
  {
    var after := ReplannedSteps(steps, reply);
    ReplanPreservesDone(steps, reply);
    DonePreservedIds(steps, after);
    if Adopted(reply) {
      UniqueIffFresh(steps, reply.items);
      forall i | 0 <= i < |after|
        ensures !after[i].status.Running?
      {
        if i < |Kept(steps)| {
          assert after[i] in Kept(steps);
        }
      }
    }
    forall i | 0 <= i < |after| && after[i].status.Done?
      ensures DependenciesDone(after, after[i])
    {
      assert after[i] in steps;
      assert DependenciesDone(steps, after[i]);
    }
  }
}
