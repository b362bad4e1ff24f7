/** The Plan-Observe-Replan service and its graph loop in the source's own imperative form
(planning/por_runner.py, planning/graph_runtime.py), proved equal to the transition system. */
module PorRunner {
  import opened Wrappers
  import opened Planner
  import opened Scheduler
  import opened Replanner
  import opened StepRunner
  import opened PorMachine
  import opened PorRuns

  /** The execution service together with the graph state it works on. */
  class PORExecution {
    const maxRounds: int
    const plan: Plan
    var currentRound: int
    var nextSteps: seq<nat>
    var currentStep: Option<nat>
    var stepResult: string
    var goalAchieved: bool
    var finalized: bool
    var shouldContinue: bool
    var failed: bool
    var aborted: bool
    var saved: seq<Saved>

    ghost function View(): RunState
      reads this, plan
    {
      RunState(plan.steps, plan.replanCount, currentRound, nextSteps, currentStep, stepResult,
               goalAchieved, finalized, shouldContinue, failed, aborted, saved)
    }

    /** Announcing a new plan saves it once; a resumed plan and an empty one are not announced. */
    constructor (plan: Plan, currentRound: int, maxRounds: int, resumed: bool)
      ensures this.plan == plan && this.maxRounds == maxRounds
      ensures View() == RunState(plan.steps, plan.replanCount, currentRound, [], None, "", false, false, false, false, false,
                                 if resumed || plan.steps == [] then [] else [Saved(SaveSequence(currentRound, 0), false, plan.steps)])
    {
      this.plan, this.currentRound, this.maxRounds := plan, currentRound, maxRounds;
      nextSteps, currentStep, stepResult := [], None, "";
      goalAchieved, finalized, shouldContinue, failed, aborted := false, false, false, false, false;
      saved := if resumed || plan.steps == [] then [] else [Saved(SaveSequence(currentRound, 0), false, plan.steps)];
    }

    method SavePlanCheckpoint(stepId: int, completed: bool)
      modifies this`saved
      ensures View() == old(View()).Save(stepId, completed)
    {
      saved := saved + [Saved(SaveSequence(currentRound, stepId), completed, plan.steps)];
    }

    method SelectSteps(cancelled: bool)
      requires View().Live()
      modifies this
      ensures View() == SelectNode(old(View()), cancelled)
    {
      shouldContinue := false;
      if plan.steps == [] {
        failed := true;
        return;
      }
      nextSteps := [];
      if cancelled {
        aborted := true;
        return;
      }
      var ready := GetNextSteps(plan);
      if ready != [] {
        nextSteps := ready;
        currentStep := if |ready| == 1 then Some(ready[0]) else None;
        return;
      }
      finalized := true;
      SavePlanCheckpoint(0, true);
    }

    method RunShared(i: nat, turns: nat -> Turn) returns (text: string)
      requires i < |plan.steps|
      modifies this`currentRound, plan`steps
      ensures var (end, round) := SharedStep(old(currentRound), maxRounds, turns);
              text == end.content && currentRound == round && plan.steps == Ran(old(plan.steps), i, end.ok)
    {
      plan.steps := plan.steps[i := plan.steps[i].(status := Running)];
      if currentRound >= maxRounds {
        plan.steps := plan.steps[i := plan.steps[i].(status := Failed)];
        return TOTAL_ROUNDS_EXCEEDED;
      }
      var end := RunStep(turns, SharedBudget(currentRound, maxRounds));
      currentRound := currentRound + end.rounds;
      plan.steps := plan.steps[i := plan.steps[i].(status := if end.ok then Done else Failed)];
      return end.content;
    }

    method RunIsolated(i: nat, turns: nat -> Turn) returns (text: string)
      requires i < |plan.steps|
      modifies plan`steps
      ensures text == IsolatedStep(maxRounds, turns).content
      ensures plan.steps == Ran(old(plan.steps), i, IsolatedStep(maxRounds, turns).ok)
    {
      plan.steps := plan.steps[i := plan.steps[i].(status := Running)];
      var end := RunStep(turns, ConfiguredBudget(maxRounds));
      plan.steps := plan.steps[i := plan.steps[i].(status := if end.ok then Done else Failed)];
      return end.content;
    }

    /** Observe, mark, save; the result says whether the goal was reached. */
    method HandleStepResult(i: nat, text: string, verdict: Option<Verdict>) returns (goal: bool)
      requires i < |plan.steps|
      modifies this`saved, plan`steps
      ensures goal == ReachesGoal(old(plan.steps), i, verdict)
      ensures plan.steps == Handled(old(plan.steps), i, text, verdict)
      ensures saved == old(saved) + [Saved(SaveSequence(currentRound, old(plan.steps[i].stepId)), goal, plan.steps)]
      ensures AsJudged(old(plan.steps), i, text, verdict, plan.steps, goal)
    {
      hide AsJudged;
      VerdictDecides(plan.steps, i, text, verdict);
      var step := plan.steps[i];
      var remaining := GetRemainingCount(plan);
      var observation := ObserveStep(step.stepId, step.status, remaining, verdict);
      if observation.action.Replan? {
        MarkStepFailed(plan, step.stepId, text);
        goal := false;
      } else if observation.action.Finish? {
        if !observation.stepOk {
          MarkStepFailed(plan, step.stepId, text);
          goal := false;
        } else {
          MarkStepDone(plan, step.stepId, text);
          goal := true;
        }
      } else {
        MarkStepDone(plan, step.stepId, text);
        goal := false;
      }
      SavePlanCheckpoint(step.stepId, goal);
    }

    /** Runs the isolated steps one after the other. `GatheredInAnyOrder` says that this stands for every
        interleaving of theirs. */
    method GatherIsolated(input: RoundInput) returns (texts: seq<string>)
      requires BatchInRange(nextSteps, |plan.steps|)
      modifies plan`steps
      ensures plan.steps == RanIsolated(old(plan.steps), nextSteps, |nextSteps|, maxRounds, input)
      ensures |texts| == |nextSteps|
      ensures forall j :: 0 <= j < |texts| ==> texts[j] == IsolatedStep(maxRounds, input.turns(j)).content
    {
      texts := [];
      for k := 0 to |nextSteps|
        invariant plan.steps == RanIsolated(old(plan.steps), nextSteps, k, maxRounds, input)
        invariant |texts| == k && forall j :: 0 <= j < k ==> texts[j] == IsolatedStep(maxRounds, input.turns(j)).content
      {
        var text := RunIsolated(nextSteps[k], input.turns(k));
        texts := texts + [text];
      }
    }

    /** Runs the batch, then handles its results in order. */
    method ExecuteParallel(input: RoundInput)
      requires BatchInRange(nextSteps, |plan.steps|)
      modifies this`saved, plan`steps
      ensures var n, ran := |nextSteps|, RanIsolated(old(plan.steps), nextSteps, |nextSteps|, maxRounds, input);
              && plan.steps == HandledBatch(ran, nextSteps, n, maxRounds, input)
              && saved == old(saved) + SavedByBatch(ran, nextSteps, n, currentRound, maxRounds, input)
    {
      hide RanIsolated, IsolatedStep, Handled, ReachesGoal, HandledBatch, SavedByBatch;
      var texts := GatherIsolated(input);
      ghost var ran := plan.steps;
      NothingSaved(ran, nextSteps, currentRound, maxRounds, input);
      for k := 0 to |nextSteps|
        invariant plan.steps == HandledBatch(ran, nextSteps, k, maxRounds, input)
        invariant saved == old(saved) + SavedByBatch(ran, nextSteps, k, currentRound, maxRounds, input)
      {
        OneMoreResult(ran, nextSteps, k, currentRound, maxRounds, input);
        var _ := HandleStepResult(nextSteps[k], texts[k], input.verdicts(k));
      }
    }

    method ExecuteStep(input: RoundInput)
      requires View().Live() ==> View().InRange()
      modifies this, plan`steps
      ensures View() == ExecuteNode(old(View()), maxRounds, input)
    {
      if failed || finalized || aborted {
        return;
      }
      if |nextSteps| == 1 {
        currentStep := Some(nextSteps[0]);
        SavePlanCheckpoint(plan.steps[nextSteps[0]].stepId, false);
        stepResult := RunShared(nextSteps[0], input.turns(0));
        return;
      }
      ExecuteParallel(input);
      currentStep := None;
    }

    method ObserveCurrentStep(input: RoundInput)
      requires View().Live() ==> View().InRange()
      modifies this, plan`steps
      ensures View() == ObserveNode(old(View()), input)
    {
      if failed || finalized || aborted || currentStep.None? {
        return;
      }
      goalAchieved := HandleStepResult(currentStep.value, stepResult, input.verdicts(0));
    }

    method FailedId() returns (id: int)
      requires BatchInRange(nextSteps, |plan.steps|)
      ensures id == FirstFailedId(plan.steps, nextSteps)
    {
      assert nextSteps[0..] == nextSteps;
      for j := 0 to |nextSteps|
        invariant FirstFailedId(plan.steps, nextSteps) == FirstFailedId(plan.steps, nextSteps[j..])
      {
        if plan.steps[nextSteps[j]].status.Failed? {
          return plan.steps[nextSteps[j]].stepId;
        }
        assert nextSteps[j..][1..] == nextSteps[j + 1..];
      }
      return 0;
    }

    method ReplanStep(reply: ReplanReply)
      requires View().Live() ==> View().InRange()
      modifies this, plan`steps, plan`replanCount
      ensures View() == ReplanNode(old(View()), reply)
    {
      if aborted {
        return;
      }
      shouldContinue := false;
      if failed || finalized {
        return;
      }
      if goalAchieved {
        finalized := true;
        SavePlanCheckpoint(0, true);
        return;
      }
      var anyFailed := exists j :: 0 <= j < |nextSteps| && plan.steps[nextSteps[j]].status.Failed?;
      if anyFailed && ShouldReplan(plan.replanCount) {
        var failedId := FailedId();
        ReplanPlan(plan, reply);
        SavePlanCheckpoint(failedId, false);
      }
      shouldContinue := true;
    }

    /** One trip around the graph; the result is the routing decision. */
    method RunRound(input: RoundInput) returns (more: bool)
      requires View().Live()
      modifies this, plan`steps, plan`replanCount
      ensures View() == Round(old(View()), maxRounds, input)
      ensures more == View().Live()
    {
      hide SelectNode, ExecuteNode, ObserveNode, ReplanNode;
      SelectSteps(input.cancelled);
      ExecuteStep(input);
      ObserveCurrentStep(input);
      ReplanStep(input.reply);
      more := shouldContinue && !aborted;
      RoundRoutes(old(View()), maxRounds, input);
    }

    /** Drives the graph to its end; the loop terminates for every stream of inputs. */
    method Run(inputs: Inputs)
      requires View().Live()
      modifies this, plan`steps, plan`replanCount
      ensures View() == RunFrom(old(View()), maxRounds, inputs, 0)
    {
      hide Round;
      var n: nat := 0;
      var more := true;
      while more
        invariant more == View().Live()
        invariant RunFrom(View(), maxRounds, inputs, n) == RunFrom(old(View()), maxRounds, inputs, 0)
        decreases more, ReplansLeft(View()), PendingCount(plan.steps)
      {
        ghost var s := View();
        more := RunRound(inputs(n));
        if more {
          RoundLowersMeasure(s, maxRounds, inputs(n));
        }
        n := n + 1;
      }
    }
  }

  // ---------- Interleavings of a batch ----------

  /** What an isolated step writes to the plan: it is RUNNING, or it has ended with its outcome. */
  datatype Write = Began(position: nat) | Ended(position: nat)

  /** The plan after the writes of the steps of a batch, in whatever order the event loop lets them happen. */
  ghost function Written(steps: seq<PlanStep>, batch: seq<nat>, writes: seq<Write>, maxRounds: int, input: RoundInput): (r: seq<PlanStep>)
    requires BatchInRange(batch, |steps|) && forall w :: w in writes ==> w.position < |batch|
    ensures |r| == |steps|
  {
    if writes == [] then steps
    else
      var before, w := Written(steps, batch, writes[..|writes| - 1], maxRounds, input), writes[|writes| - 1];
      var i := batch[w.position];
      match w
      case Began(j) => before[i := before[i].(status := Running)]
      case Ended(j) => Ran(before, i, IsolatedStep(maxRounds, input.turns(j)).ok)
  }

  /** The step writes something, and last of all its end. */
  ghost predicate EndsLast(writes: seq<Write>, position: nat) {
    writes != [] &&
    var last := writes[|writes| - 1];
    if last.position == position then last.Ended? else EndsLast(writes[..|writes| - 1], position)
  }

  ghost predicate Distinct(batch: seq<nat>) {
    forall i, j :: 0 <= i < j < |batch| ==> batch[i] != batch[j]
  }

  /** A step that has ended has the outcome of its own turns, whatever the others have written meanwhile. */
  lemma {:induction false} WrittenAt(steps: seq<PlanStep>, batch: seq<nat>, writes: seq<Write>, maxRounds: int, input: RoundInput, j: nat)
    requires BatchInRange(batch, |steps|) && (forall w :: w in writes ==> w.position < |batch|)
    requires Distinct(batch) && j < |batch|
    ensures var r := Written(steps, batch, writes, maxRounds, input)[batch[j]];
            && (EndsLast(writes, j) ==>
                  r == steps[batch[j]].(status := if IsolatedStep(maxRounds, input.turns(j)).ok then Done else Failed))
            && r.(status := Pending) == steps[batch[j]].(status := Pending)
  {
    hide IsolatedStep;
    if writes != [] {
      WrittenAt(steps, batch, writes[..|writes| - 1], maxRounds, input, j);
    }
  }

  lemma {:induction false} WrittenElsewhere(steps: seq<PlanStep>, batch: seq<nat>, writes: seq<Write>, maxRounds: int, input: RoundInput, i: nat)
    requires BatchInRange(batch, |steps|) && (forall w :: w in writes ==> w.position < |batch|)
    requires i < |steps| && i !in batch
    ensures Written(steps, batch, writes, maxRounds, input)[i] == steps[i]
  {
    hide IsolatedStep;
    if writes != [] {
      WrittenElsewhere(steps, batch, writes[..|writes| - 1], maxRounds, input, i);
      assert batch[writes[|writes| - 1].position] in batch;
    }
  }

  lemma {:induction false} RanIsolatedAt(steps: seq<PlanStep>, batch: seq<nat>, k: nat, maxRounds: int, input: RoundInput, j: nat)
    requires j < k <= |batch| && BatchInRange(batch, |steps|) && Distinct(batch)
    ensures RanIsolated(steps, batch, k, maxRounds, input)[batch[j]] ==
            steps[batch[j]].(status := if IsolatedStep(maxRounds, input.turns(j)).ok then Done else Failed)
  {
    hide IsolatedStep;
    if j < k - 1 {
      RanIsolatedAt(steps, batch, k - 1, maxRounds, input, j);
    } else {
      NotYetRan(steps, batch, k - 1, maxRounds, input, j);
    }
  }

  lemma {:induction false} NotYetRan(steps: seq<PlanStep>, batch: seq<nat>, k: nat, maxRounds: int, input: RoundInput, j: nat)
    requires k <= j < |batch| && BatchInRange(batch, |steps|) && Distinct(batch)
    ensures RanIsolated(steps, batch, k, maxRounds, input)[batch[j]] == steps[batch[j]]
  {
    hide IsolatedStep;
    if k > 0 {
      NotYetRan(steps, batch, k - 1, maxRounds, input, j);
    }
  }

  /** Every interleaving in which all steps of a batch of distinct steps end leaves the plan that running them
      one after the other leaves. */
  lemma GatheredInAnyOrder(steps: seq<PlanStep>, batch: seq<nat>, writes: seq<Write>, maxRounds: int, input: RoundInput)
    requires BatchInRange(batch, |steps|) && (forall w :: w in writes ==> w.position < |batch|)
    requires Distinct(batch) && forall j :: 0 <= j < |batch| ==> EndsLast(writes, j)
    ensures Written(steps, batch, writes, maxRounds, input) == RanIsolated(steps, batch, |batch|, maxRounds, input)
  {
    hide Written, RanIsolated, IsolatedStep;
    RanIsolatedSettles(steps, batch, |batch|, maxRounds, input);
    forall i | 0 <= i < |steps|
      ensures Written(steps, batch, writes, maxRounds, input)[i] == RanIsolated(steps, batch, |batch|, maxRounds, input)[i]
    {
      if i in batch {
        var j :| 0 <= j < |batch| && batch[j] == i;
        WrittenAt(steps, batch, writes, maxRounds, input, j);
        RanIsolatedAt(steps, batch, |batch|, maxRounds, input, j);
      } else {
        WrittenElsewhere(steps, batch, writes, maxRounds, input, i);
      }
    }
  }

  /** The batches the loop runs have distinct steps. */
  lemma ReadyBatchIsDistinct(steps: seq<PlanStep>)
    ensures Distinct(ReadySteps(steps)) && BatchInRange(ReadySteps(steps), |steps|)
  {
    ReadyInRange(steps);
  }

  lemma NothingSaved(ran: seq<PlanStep>, batch: seq<nat>, round: int, maxRounds: int, input: RoundInput)
    requires BatchInRange(batch, |ran|)
    ensures HandledBatch(ran, batch, 0, maxRounds, input) == ran
    ensures SavedByBatch(ran, batch, 0, round, maxRounds, input) == []
  {
  }

  lemma OneMoreResult(ran: seq<PlanStep>, batch: seq<nat>, k: nat, round: int, maxRounds: int, input: RoundInput)
    requires k < |batch| && BatchInRange(batch, |ran|)
    ensures var before, after := HandledBatch(ran, batch, k, maxRounds, input), HandledBatch(ran, batch, k + 1, maxRounds, input);
            && after == Handled(before, batch[k], IsolatedStep(maxRounds, input.turns(k)).content, input.verdicts(k))
            && SavedByBatch(ran, batch, k + 1, round, maxRounds, input) == SavedByBatch(ran, batch, k, round, maxRounds, input) +
               [Saved(SaveSequence(round, before[batch[k]].stepId), ReachesGoal(before, batch[k], input.verdicts(k)), after)]
  {
    hide Handled, IsolatedStep, ReachesGoal;
  }

  /** The routing decision reads exactly whether the run is still live. */
  lemma RoundRoutes(s: RunState, maxRounds: int, input: RoundInput)
    requires s.Live()
    ensures var t := Round(s, maxRounds, input); t.Live() <==> t.shouldContinue && !t.aborted
  {
    hide RanIsolated, HandledBatch, SavedByBatch, SharedStep, Handled, ReplannedSteps, Ran, ReadySteps;
  }
}
