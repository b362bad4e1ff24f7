/** The Plan-Observe-Replan loop as a transition system (planning/por_runner.py,
planning/graph_runtime.py): select, execute, observe, replan, route.

Every outside decision of a round (cancellation, the turns of each step, the
verdicts on the steps, the replanning reply) is an input; a run is fed by an
arbitrary stream of inputs. */
module PorMachine {
  import opened Wrappers
  import opened Planner
  import opened Scheduler
  import opened Replanner
  import opened StepRunner

  /** What the environment decides in one round; functions are indexed by the position in the batch. */
  datatype RoundInput = RoundInput(
    cancelled: bool,
    turns: nat -> nat -> Turn,
    verdicts: nat -> Option<Verdict>,
    reply: ReplanReply)

  /** A plan handed to the checkpoint store: its sequence number and whether its status is COMPLETED. */
  datatype Saved = Saved(sequence: int, completed: bool, steps: seq<PlanStep>)

  /** Checkpoints are numbered by the round and the current step, 0 when there is none. */
  function SaveSequence(round: int, stepId: int): int {
    round * 1000 + stepId
  }

  /** The plan, the graph state and the parts of the context the loop uses. `saved` lists the
      plans handed to the checkpoint store; `aborted` says that an exception ended the graph. */
  datatype RunState = RunState(
    steps: seq<PlanStep>,
    replanCount: int,
    round: int,
    nextSteps: seq<nat>,
    currentStep: Option<nat>,
    stepResult: string,
    goalAchieved: bool,
    finalized: bool,
    shouldContinue: bool,
    failed: bool,
    aborted: bool,
    saved: seq<Saved>)
  {
    ghost predicate Live() {
      !finalized && !failed && !aborted
    }

    ghost predicate InRange() {
      && BatchInRange(nextSteps, |steps|)
      && (currentStep.Some? ==> currentStep.value < |steps|)
    }

    ghost function Save(stepId: int, completed: bool): RunState {
      this.(saved := saved + [Saved(SaveSequence(round, stepId), completed, steps)])
    }
  }

  ghost predicate BatchInRange(batch: seq<nat>, n: nat) {
    forall j :: 0 <= j < |batch| ==> batch[j] < n
  }

  lemma ReadyInRange(steps: seq<PlanStep>)
    ensures BatchInRange(ReadySteps(steps), |steps|)
  {
    var ready := ReadySteps(steps);
    forall j | 0 <= j < |ready|
      ensures ready[j] < |steps|
    {
      assert ready[j] in ready;
    }
  }

  // ---------- The nodes ----------

  ghost function SelectNode(s: RunState, cancelled: bool): (t: RunState)
    ensures t.steps == s.steps && t.replanCount == s.replanCount && t.round == s.round
    ensures t.Live() ==> t.nextSteps == ReadySteps(s.steps) != []
    ensures t.Live() ==> t.InRange() && t.currentStep == if |t.nextSteps| == 1 then Some(t.nextSteps[0]) else None
  {
    var t := s.(shouldContinue := false);
    if s.steps == [] then t.(failed := true)
    else if cancelled then t.(nextSteps := [], aborted := true)
    else
      var ready := ReadySteps(s.steps);
      if ready == [] then t.(nextSteps := [], finalized := true).Save(0, true)
      else
        ReadyInRange(s.steps);
        t.(nextSteps := ready, currentStep := if |ready| == 1 then Some(ready[0]) else None)
  }

  /** The status a step object has after running. */
  ghost function Ran(steps: seq<PlanStep>, i: nat, ok: bool): (r: seq<PlanStep>)
    requires i < |steps|
    ensures |r| == |steps|
  {
    steps[i := steps[i].(status := if ok then Done else Failed)]
  }

  /** The first `k` steps of the batch have run, each on its own context. */
  ghost function RanIsolated(steps: seq<PlanStep>, batch: seq<nat>, k: nat, maxRounds: int, input: RoundInput): (r: seq<PlanStep>)
    requires k <= |batch| && BatchInRange(batch, |steps|)
    ensures |r| == |steps|
  {
    if k == 0 then steps
    else Ran(RanIsolated(steps, batch, k - 1, maxRounds, input), batch[k - 1], IsolatedStep(maxRounds, input.turns(k - 1)).ok)
  }

  ghost function StepObserved(steps: seq<PlanStep>, i: nat, verdict: Option<Verdict>): StepObservation
    requires i < |steps|
  {
    ObserveStep(steps[i].stepId, steps[i].status, PendingCount(steps), verdict)
  }

  /** Observing and marking one result. */
  ghost function Handled(steps: seq<PlanStep>, i: nat, text: string, verdict: Option<Verdict>): (r: seq<PlanStep>)
    requires i < |steps|
    ensures |r| == |steps|
  {
    if MarksFailed(StepObserved(steps, i, verdict)) then MarkedFailed(steps, steps[i].stepId, text)
    else MarkedDone(steps, steps[i].stepId, text)
  }

  ghost predicate ReachesGoal(steps: seq<PlanStep>, i: nat, verdict: Option<Verdict>)
    requires i < |steps|
  {
    var obs := StepObserved(steps, i, verdict);
    obs.action.Finish? && obs.stepOk
  }

  /** What becomes of a step whose sub-loop went well or not and left a text. A verdict may overrule how it went;
      "replan" fails the step, "done" settles it by how it went, and anything else counts as done. Without a
      verdict it is DONE exactly when it went well. */
  ghost function Judged(step: PlanStep, ok: bool, text: string, verdict: Option<Verdict>): PlanStep {
    var good := if verdict.Some? && verdict.value.stepOk.Some? then verdict.value.stepOk.value else ok;
    var failed := match verdict
      case Some(v) => v.action.Replan? || (v.action.Finish? && !good)
      case None => !good;
    if failed then step.(status := Failed, error := text) else step.(status := Done, result := text)
  }

  /** The first step with the identifier is judged and nothing else changes. The goal is reached when "done" is
      said of a step that went well or, without a verdict, when such a step leaves nothing PENDING. */
  ghost predicate AsJudged(steps: seq<PlanStep>, i: nat, text: string, verdict: Option<Verdict>, after: seq<PlanStep>, goal: bool)
    requires i < |steps|
  {
    var ok := steps[i].status.Done?;
    var first := FirstIndex(steps, steps[i].stepId);
    && first < |steps| && |after| == |steps|
    && (forall k :: 0 <= k < |steps| && k != first ==> after[k] == steps[k])
    && after[first] == Judged(steps[first], ok, text, verdict)
    && (goal <==> match verdict
                  case Some(v) => v.action.Finish? && (if v.stepOk.Some? then v.stepOk.value else ok)
                  case None => ok && forall k :: 0 <= k < |steps| ==> !steps[k].status.Pending?)
  }

  lemma VerdictDecides(steps: seq<PlanStep>, i: nat, text: string, verdict: Option<Verdict>)
    requires i < |steps|
    ensures AsJudged(steps, i, text, verdict, Handled(steps, i, text, verdict), ReachesGoal(steps, i, verdict))
  {
    NonePendingCounts(steps);
  }

  lemma {:induction false} NonePendingCounts(steps: seq<PlanStep>)
    ensures PendingCount(steps) == 0 <==> forall k :: 0 <= k < |steps| ==> !steps[k].status.Pending?
  {
    if steps != [] {
      NonePendingCounts(steps[..|steps| - 1]);
      assert forall k :: 0 <= k < |steps| - 1 ==> steps[..|steps| - 1][k] == steps[k];
    }
  }

  /** The first `k` results of the batch have been handled. */
  ghost function HandledBatch(steps: seq<PlanStep>, batch: seq<nat>, k: nat, maxRounds: int, input: RoundInput): (r: seq<PlanStep>)
    requires k <= |batch| && BatchInRange(batch, |steps|)
    ensures |r| == |steps|
  {
    if k == 0 then steps
    else Handled(HandledBatch(steps, batch, k - 1, maxRounds, input), batch[k - 1],
                 IsolatedStep(maxRounds, input.turns(k - 1)).content, input.verdicts(k - 1))
  }

  /** What is saved after handling result `k - 1` of the batch in the given round. */
  ghost function SavedByOne(steps: seq<PlanStep>, batch: seq<nat>, k: nat, round: int, maxRounds: int, input: RoundInput): Saved
    requires 0 < k <= |batch| && BatchInRange(batch, |steps|)
  {
    var before := HandledBatch(steps, batch, k - 1, maxRounds, input);
    Saved(SaveSequence(round, before[batch[k - 1]].stepId), ReachesGoal(before, batch[k - 1], input.verdicts(k - 1)),
          HandledBatch(steps, batch, k, maxRounds, input))
  }

  /** The plans saved while handling the first `k` results. */
  ghost function SavedByBatch(steps: seq<PlanStep>, batch: seq<nat>, k: nat, round: int, maxRounds: int, input: RoundInput): seq<Saved>
    requires k <= |batch| && BatchInRange(batch, |steps|)
  {
    if k == 0 then []
    else SavedByBatch(steps, batch, k - 1, round, maxRounds, input) + [SavedByOne(steps, batch, k, round, maxRounds, input)]
  }

  ghost function ExecuteNode(s: RunState, maxRounds: int, input: RoundInput): (t: RunState)
    requires s.Live() ==> s.InRange()
    ensures s.Live() ==> t.Live() && t.InRange() && t.nextSteps == s.nextSteps && |t.steps| == |s.steps|
    ensures !s.Live() ==> t == s
  {
    if !s.Live() then s
    else if |s.nextSteps| == 1 then
      var i := s.nextSteps[0];
      var (end, round) := SharedStep(s.round, maxRounds, input.turns(0));
      s.Save(s.steps[i].stepId, false).(steps := Ran(s.steps, i, end.ok), round := round, currentStep := Some(i), stepResult := end.content)
    else
      var n := |s.nextSteps|;
      var ran := RanIsolated(s.steps, s.nextSteps, n, maxRounds, input);
      s.(steps := HandledBatch(ran, s.nextSteps, n, maxRounds, input),
         saved := s.saved + SavedByBatch(ran, s.nextSteps, n, s.round, maxRounds, input),
         currentStep := None)
  }

  ghost function ObserveNode(s: RunState, input: RoundInput): (t: RunState)
    requires s.Live() ==> s.InRange()
    ensures s.Live() ==> t.Live() && t.InRange() && t.nextSteps == s.nextSteps && |t.steps| == |s.steps|
    ensures !s.Live() ==> t == s
  {
    if !s.Live() || s.currentStep.None? then s
    else
      var i := s.currentStep.value;
      s.(steps := Handled(s.steps, i, s.stepResult, input.verdicts(0)),
         goalAchieved := ReachesGoal(s.steps, i, input.verdicts(0)))
       .Save(s.steps[i].stepId, ReachesGoal(s.steps, i, input.verdicts(0)))
  }

  /** The branch of the replan node that calls the replanner. */
  ghost predicate WillReplan(s: RunState)
    requires s.Live() ==> s.InRange()
  {
    && s.Live() && !s.goalAchieved
    && (exists j :: 0 <= j < |s.nextSteps| && s.steps[s.nextSteps[j]].status.Failed?)
    && ShouldReplan(s.replanCount)
  }

  /** The identifier of the first FAILED step of the batch, or 0. */
  ghost function FirstFailedId(steps: seq<PlanStep>, batch: seq<nat>): int
    requires BatchInRange(batch, |steps|)
  {
    if batch == [] then 0
    else if steps[batch[0]].status.Failed? then steps[batch[0]].stepId
    else FirstFailedId(steps, batch[1..])
  }

  ghost function ReplanNode(s: RunState, reply: ReplanReply): RunState
    requires s.Live() ==> s.InRange()
  {
    if s.aborted then s
    else if !s.Live() then s.(shouldContinue := false)
    else if s.goalAchieved then s.(shouldContinue := false, finalized := true).Save(0, true)
    else if WillReplan(s) then
      s.(steps := ReplannedSteps(s.steps, reply), replanCount := ReplannedCount(s.replanCount, reply),
         shouldContinue := true).Save(FirstFailedId(s.steps, s.nextSteps), false)
    else s.(shouldContinue := true)
  }

  /** Select, execute and observe: everything of a round before the replan node. */
  ghost function BeforeReplan(s: RunState, maxRounds: int, input: RoundInput): (t: RunState)
    ensures t.Live() ==> t.InRange() && t.nextSteps == ReadySteps(s.steps) != [] && |t.steps| == |s.steps|
  {
    ObserveNode(ExecuteNode(SelectNode(s, input.cancelled), maxRounds, input), input)
  }

  /** One trip around the graph; a finished run stays as it is. */
  ghost function Round(s: RunState, maxRounds: int, input: RoundInput): RunState {
    if !s.Live() then s else ReplanNode(BeforeReplan(s, maxRounds, input), input.reply)
  }

  // ---------- What running and handling do to the steps ----------

  ghost predicate SameShape(a: PlanStep, b: PlanStep) {
    a.stepId == b.stepId && a.description == b.description && a.dependsOn == b.dependsOn && a.toolsNeeded == b.toolsNeeded
  }

  /** Each step is as before or is now DONE or FAILED, and has kept its shape. */
  ghost predicate Settles(a: seq<PlanStep>, b: seq<PlanStep>) {
    |a| == |b| && forall i :: 0 <= i < |a| ==> b[i] == a[i] || (SameShape(a[i], b[i]) && Settled(b[i]))
  }

  ghost predicate Untouched(a: seq<PlanStep>, b: seq<PlanStep>, batch: seq<nat>) {
    |a| == |b| && forall i :: 0 <= i < |a| && i !in batch ==> b[i] == a[i]
  }

  lemma SettlesTransitive(a: seq<PlanStep>, b: seq<PlanStep>, c: seq<PlanStep>)
    requires Settles(a, b) && Settles(b, c)
    ensures Settles(a, c)
  {
  }

  lemma SettlesKeepsUnique(a: seq<PlanStep>, b: seq<PlanStep>)
    requires UniqueIds(a) && Settles(a, b)
    ensures UniqueIds(b)
  {
  }

  lemma UntouchedByMember(a: seq<PlanStep>, b: seq<PlanStep>, c: seq<PlanStep>, batch: seq<nat>, i: nat)
    requires Untouched(a, b, batch) && Untouched(b, c, [i]) && i in batch
    ensures Untouched(a, c, batch)
  {
  }

  lemma HandledSettles(steps: seq<PlanStep>, i: nat, text: string, verdict: Option<Verdict>)
    requires i < |steps|
    ensures Settles(steps, Handled(steps, i, text, verdict))
    ensures UniqueIds(steps) ==> Untouched(steps, Handled(steps, i, text, verdict), [i])
  {
  }

  lemma {:induction false} RanIsolatedSettles(steps: seq<PlanStep>, batch: seq<nat>, k: nat, maxRounds: int, input: RoundInput)
    requires k <= |batch| && BatchInRange(batch, |steps|)
    ensures Settles(steps, RanIsolated(steps, batch, k, maxRounds, input))
    ensures Untouched(steps, RanIsolated(steps, batch, k, maxRounds, input), batch)
    ensures forall j :: 0 <= j < k ==> Settled(RanIsolated(steps, batch, k, maxRounds, input)[batch[j]])
  {
    if k > 0 {
      RanIsolatedSettles(steps, batch, k - 1, maxRounds, input);
      assert batch[k - 1] in batch;
    }
  }

  /** Handling one more result settles, and with unique identifiers touches, only that step. */
  lemma HandledNext(a: seq<PlanStep>, b: seq<PlanStep>, batch: seq<nat>, j: nat, text: string, verdict: Option<Verdict>)
    requires j < |batch| && BatchInRange(batch, |a|) && Settles(a, b)
    ensures Settles(a, Handled(b, batch[j], text, verdict))
    ensures UniqueIds(a) && Untouched(a, b, batch) ==> Untouched(a, Handled(b, batch[j], text, verdict), batch)
  {
    var c := Handled(b, batch[j], text, verdict);
    HandledSettles(b, batch[j], text, verdict);
    SettlesTransitive(a, b, c);
    if UniqueIds(a) && Untouched(a, b, batch) {
      SettlesKeepsUnique(a, b);
      UntouchedByMember(a, b, c, batch, batch[j]);
    }
  }

  lemma NothingHandled(steps: seq<PlanStep>, batch: seq<nat>, maxRounds: int, input: RoundInput)
    requires BatchInRange(batch, |steps|)
    ensures HandledBatch(steps, batch, 0, maxRounds, input) == steps
    ensures Settles(steps, steps) && Untouched(steps, steps, batch)
  {
  }

  lemma {:induction false} HandledBatchSettles(steps: seq<PlanStep>, batch: seq<nat>, k: nat, maxRounds: int, input: RoundInput)
    requires k <= |batch| && BatchInRange(batch, |steps|)
    ensures Settles(steps, HandledBatch(steps, batch, k, maxRounds, input))
    ensures UniqueIds(steps) ==> Untouched(steps, HandledBatch(steps, batch, k, maxRounds, input), batch)
  {
    hide Handled, Settles, Untouched, UniqueIds;
    NothingHandled(steps, batch, maxRounds, input);
    if k > 0 {
      HandledBatchSettles(steps, batch, k - 1, maxRounds, input);
      HandledNext(steps, HandledBatch(steps, batch, k - 1, maxRounds, input), batch, k - 1,
                  IsolatedStep(maxRounds, input.turns(k - 1)).content, input.verdicts(k - 1));
    }
  }

  lemma SingleSettles(steps: seq<PlanStep>, i: nat, ok: bool, text: string, verdict: Option<Verdict>)
    requires i < |steps|
    ensures var after := Handled(Ran(steps, i, ok), i, text, verdict);
            Settles(steps, after) && Settled(after[i]) && (UniqueIds(steps) ==> Untouched(steps, after, [i]))
  {
    var ran := Ran(steps, i, ok);
    HandledSettles(ran, i, text, verdict);
    SettlesTransitive(steps, ran, Handled(ran, i, text, verdict));
    if UniqueIds(steps) {
      SettlesKeepsUnique(steps, ran);
    }
  }

  lemma ParallelSettles(steps: seq<PlanStep>, batch: seq<nat>, k: nat, maxRounds: int, input: RoundInput)
    requires k <= |batch| && BatchInRange(batch, |steps|)
    ensures var after := HandledBatch(RanIsolated(steps, batch, |batch|, maxRounds, input), batch, k, maxRounds, input);
            && Settles(steps, after)
            && (forall j :: 0 <= j < |batch| ==> Settled(after[batch[j]]))
            && (UniqueIds(steps) ==> Untouched(steps, after, batch))
  {
    var ran := RanIsolated(steps, batch, |batch|, maxRounds, input);
    RanIsolatedSettles(steps, batch, |batch|, maxRounds, input);
    HandledBatchSettles(ran, batch, k, maxRounds, input);
    SettlesTransitive(steps, ran, HandledBatch(ran, batch, k, maxRounds, input));
    if UniqueIds(steps) {
      SettlesKeepsUnique(steps, ran);
    }
  }

  /** Up to the replan node a round settles every selected step, and with unique identifiers nothing else. */
  lemma RoundSettlesBatch(s: RunState, maxRounds: int, input: RoundInput)
    requires s.Live() && BeforeReplan(s, maxRounds, input).Live()
    ensures var t := BeforeReplan(s, maxRounds, input);
            && Settles(s.steps, t.steps)
            && (forall j :: 0 <= j < |t.nextSteps| ==> Settled(t.steps[t.nextSteps[j]]))
            && (UniqueIds(s.steps) ==> Untouched(s.steps, t.steps, t.nextSteps))
  {
    var batch := SelectNode(s, input.cancelled).nextSteps;
    if |batch| == 1 {
      var end := SharedStep(s.round, maxRounds, input.turns(0)).0;
      SingleSettles(s.steps, batch[0], end.ok, end.content, input.verdicts(0));
      assert batch == [batch[0]];
    } else {
      ParallelSettles(s.steps, batch, |batch|, maxRounds, input);
    }
  }

  // ---------- What becomes of the selected steps ----------

  /** How the sub-loop of the step at position `j` of the batch ended. */
  ghost function EndOf(s: RunState, batch: seq<nat>, j: nat, maxRounds: int, input: RoundInput): StepEnd {
    if |batch| == 1 then SharedStep(s.round, maxRounds, input.turns(j)).0 else IsolatedStep(maxRounds, input.turns(j))
  }

  lemma {:induction false} RanInBatch(steps: seq<PlanStep>, batch: seq<nat>, k: nat, maxRounds: int, input: RoundInput, j: nat)
    requires k <= |batch| && BatchInRange(batch, |steps|) && j < |batch|
    requires forall a, b :: 0 <= a < b < |batch| ==> batch[a] < batch[b]
    ensures RanIsolated(steps, batch, k, maxRounds, input)[batch[j]] ==
              if j < k then steps[batch[j]].(status := if IsolatedStep(maxRounds, input.turns(j)).ok then Done else Failed)
              else steps[batch[j]]
  {
    hide IsolatedStep;
    if k > 0 {
      RanInBatch(steps, batch, k - 1, maxRounds, input, j);
    }
  }

  lemma {:induction false} HandledInBatch(steps: seq<PlanStep>, batch: seq<nat>, k: nat, maxRounds: int, input: RoundInput, j: nat)
    requires k <= |batch| && BatchInRange(batch, |steps|) && j < |batch| && UniqueIds(steps)
    requires forall a, b :: 0 <= a < b < |batch| ==> batch[a] < batch[b]
    ensures HandledBatch(steps, batch, k, maxRounds, input)[batch[j]] ==
              if j < k then Judged(steps[batch[j]], steps[batch[j]].status.Done?,
                                   IsolatedStep(maxRounds, input.turns(j)).content, input.verdicts(j))
              else steps[batch[j]]
  {
    hide IsolatedStep, Handled, Judged, Settles, ReachesGoal;
    if k > 0 {
      var before := HandledBatch(steps, batch, k - 1, maxRounds, input);
      HandledInBatch(steps, batch, k - 1, maxRounds, input, j);
      HandledInBatch(steps, batch, k - 1, maxRounds, input, k - 1);
      HandledBatchSettles(steps, batch, k - 1, maxRounds, input);
      SettlesKeepsUnique(steps, before);
      FoundAtItself(before, batch[k - 1]);
      VerdictDecides(before, batch[k - 1], IsolatedStep(maxRounds, input.turns(k - 1)).content, input.verdicts(k - 1));
    }
  }

  /** Before the replan node each selected step is what its own sub-loop and verdict make of it, whatever the
      other steps of the batch do. The rounds of a lone step are counted, those of a batch are not. */
  lemma RoundJudgesBatch(s: RunState, maxRounds: int, input: RoundInput, j: nat)
    requires s.Live() && BeforeReplan(s, maxRounds, input).Live() && UniqueIds(s.steps)
    requires j < |ReadySteps(s.steps)|
    ensures var batch := ReadySteps(s.steps);
            var t := BeforeReplan(s, maxRounds, input);
            var end := EndOf(s, batch, j, maxRounds, input);
            && t.steps[batch[j]] == Judged(s.steps[batch[j]], end.ok, end.content, input.verdicts(j))
            && t.round == if |batch| == 1 then SharedStep(s.round, maxRounds, input.turns(j)).1 else s.round
  {
    if |ReadySteps(s.steps)| == 1 {
      LoneStepIsJudged(s, maxRounds, input);
    } else {
      hide SharedStep, Handled, Judged, Settles, Untouched;
      var batch := SelectNode(s, input.cancelled).nextSteps;
      var ran := RanIsolated(s.steps, batch, |batch|, maxRounds, input);
      RanIsolatedSettles(s.steps, batch, |batch|, maxRounds, input);
      SettlesKeepsUnique(s.steps, ran);
      RanInBatch(s.steps, batch, |batch|, maxRounds, input, j);
      HandledInBatch(ran, batch, |batch|, maxRounds, input, j);
      JudgedAfterRunning(s.steps[batch[j]], IsolatedStep(maxRounds, input.turns(j)), input.verdicts(j));
    }
  }

  lemma JudgedAfterRunning(step: PlanStep, end: StepEnd, verdict: Option<Verdict>)
    ensures var ran := step.(status := if end.ok then Done else Failed);
            Judged(ran, ran.status.Done?, end.content, verdict) == Judged(step, end.ok, end.content, verdict)
  {
  }

  lemma LoneStepIsJudged(s: RunState, maxRounds: int, input: RoundInput)
    requires s.Live() && BeforeReplan(s, maxRounds, input).Live() && UniqueIds(s.steps) && |ReadySteps(s.steps)| == 1
    ensures var batch := ReadySteps(s.steps);
            var t := BeforeReplan(s, maxRounds, input);
            var (end, round) := SharedStep(s.round, maxRounds, input.turns(0));
            t.steps[batch[0]] == Judged(s.steps[batch[0]], end.ok, end.content, input.verdicts(0)) && t.round == round
  {
    hide SharedStep, Handled, Judged, ReachesGoal;
    var i := SelectNode(s, input.cancelled).nextSteps[0];
    var end := SharedStep(s.round, maxRounds, input.turns(0)).0;
    var ran := Ran(s.steps, i, end.ok);
    FoundAtItself(ran, i);
    VerdictDecides(ran, i, end.content, input.verdicts(0));
    JudgedAfterRunning(s.steps[i], end, input.verdicts(0));
  }

  /** Does the result of a lone step reach the goal? Every other step is already done with, unless "done" is said. */
  ghost predicate ReachedAlone(steps: seq<PlanStep>, i: nat, ok: bool, verdict: Option<Verdict>) {
    match verdict
    case Some(v) => v.action.Finish? && (if v.stepOk.Some? then v.stepOk.value else ok)
    case None => ok && forall k :: 0 <= k < |steps| && k != i ==> !steps[k].status.Pending?
  }

  lemma LoneStepReaches(s: RunState, maxRounds: int, input: RoundInput)
    requires s.Live() && !s.goalAchieved && s.steps != [] && !input.cancelled && |ReadySteps(s.steps)| == 1
    ensures var t, batch := BeforeReplan(s, maxRounds, input), ReadySteps(s.steps);
            && t.Live()
            && (t.goalAchieved <==> ReachedAlone(s.steps, batch[0], EndOf(s, batch, 0, maxRounds, input).ok, input.verdicts(0)))
  {
    hide SharedStep, Handled, ReachesGoal;
    var batch := SelectNode(s, input.cancelled).nextSteps;
    var end := SharedStep(s.round, maxRounds, input.turns(0)).0;
    var ran := Ran(s.steps, batch[0], end.ok);
    VerdictDecides(ran, batch[0], end.content, input.verdicts(0));
    assert forall k :: 0 <= k < |ran| && k != batch[0] ==> ran[k] == s.steps[k];
  }

  /** How a round ends the run: it fails on an empty plan, aborts when cancelled, and otherwise finishes exactly
      when nothing is ready or a step that ran alone reaches the goal. */
  lemma RoundEndsExactly(s: RunState, maxRounds: int, input: RoundInput)
    requires s.Live() && !s.goalAchieved
    ensures var t, batch := Round(s, maxRounds, input), ReadySteps(s.steps);
            && (t.failed <==> s.steps == [])
            && (t.aborted <==> s.steps != [] && input.cancelled)
            && (t.finalized <==> s.steps != [] && !input.cancelled && (batch == [] || t.goalAchieved))
            && (t.shouldContinue <==> t.Live())
            && (t.goalAchieved <==>
                  (s.steps != [] && !input.cancelled && |batch| == 1 &&
                   ReachedAlone(s.steps, batch[0], EndOf(s, batch, 0, maxRounds, input).ok, input.verdicts(0))))
  {
    hide SharedStep, HandledBatch, SavedByBatch, IsolatedStep, ReachedAlone, WillReplan;
    if s.steps != [] && !input.cancelled && |ReadySteps(s.steps)| == 1 {
      LoneStepReaches(s, maxRounds, input);
    }
  }
}
