/** Concrete plan runs in which the conditions of the theorems about runs and checkpoints are not met. */
module PlanExamples {
  import opened Wrappers
  import opened Digraph
  import opened Planner
  import opened Scheduler
  import opened Replanner
  import opened StepRunner
  import opened PorMachine
  import opened PorRuns
  import opened RunCheckpoints

  function Step(id: int, status: StepStatus): PlanStep {
    PlanStep(id, "work", [], [], status, "", "")
  }

  /** A run about to select, with the given saves. */
  function StartOf(steps: seq<PlanStep>, replanCount: int, saved: seq<Saved>): RunState {
    RunState(steps, replanCount, 0, [], None, "", false, false, false, false, false, saved)
  }

  /** Step `j` of the batch answers at once, and fails if `fails(j)`; there is no model to judge it. */
  function Answers(fails: nat -> bool, reply: ReplanReply): RoundInput {
    RoundInput(false, (j: nat) => (k: nat) => Answer(fails(j), false, "answer"), (j: nat) => None, reply)
  }

  const Never: nat -> bool := j => false
  const Always: nat -> bool := j => true
  const First: nat -> bool := j => j == 0

  lemma AnswersAtOnce(turns: nat -> Turn, failed: bool, maxRounds: nat)
    requires maxRounds > 0 && turns(0) == Answer(failed, false, "answer")
    ensures StepLoop(turns, 0, maxRounds) == StepEnd(1, !failed, "answer")
  {
  }

  /** Without a verdict a result is marked as it came out. */
  lemma HandledByHeuristic(steps: seq<PlanStep>, i: nat, text: string)
    requires i < |steps|
    ensures Handled(steps, i, text, None) ==
              if steps[i].status.Done? then MarkedDone(steps, steps[i].stepId, text) else MarkedFailed(steps, steps[i].stepId, text)
    ensures ReachesGoal(steps, i, None) <==> steps[i].status.Done? && PendingCount(steps) == 0
  {
    HeuristicIsFaithful(steps[i].stepId, steps[i].status, PendingCount(steps));
  }

  /** A round in which one step is ready. */
  lemma LoneRound(s: RunState, maxRounds: int, fails: nat -> bool, reply: ReplanReply, i: nat)
    requires s.Live() && s.round < maxRounds && i < |s.steps| && ReadySteps(s.steps) == [i]
    ensures var p, ran := BeforeReplan(s, maxRounds, Answers(fails, reply)), Ran(s.steps, i, !fails(0));
            && p.Live() && p.nextSteps == [i] && p.replanCount == s.replanCount && p.round == s.round + 1
            && p.steps == (if fails(0) then MarkedFailed(ran, s.steps[i].stepId, "answer")
                           else MarkedDone(ran, s.steps[i].stepId, "answer"))
            && (p.goalAchieved <==> !fails(0) && PendingCount(ran) == 0)
  {
    hide ReadySteps, Handled, MarkedDone, MarkedFailed, ReachesGoal, PendingCount, SaveSequence, StepLoop;
    AnswersAtOnce(Answers(fails, reply).turns(0), fails(0), SharedBudget(s.round, maxRounds));
    HandledByHeuristic(Ran(s.steps, i, !fails(0)), i, "answer");
  }

  lemma OneStep(x: PlanStep)
    requires x.dependsOn == []
    ensures x.status.Pending? ==> ReadySteps([x]) == [0]
    ensures !x.status.Pending? ==> ReadySteps([x]) == [] && PendingCount([x]) == 0
    ensures FirstIndex([x], x.stepId) == 0
  {
    assert [x][..0] == [];
    assert ReadyBelow([x], 0) == [];
    assert ReadyBelow([x], 1) == if IsReady([x], 0) then [0] else [];
  }

  /** The replan counter can end above its maximum: one replan left, a step that fails, and a reply that
      cannot be read. */
  lemma CounterEndsAtFour()
    ensures var end := Nth(StartOf([Step(1, Pending)], 2, []), 20, k => Answers(Always, BadItem), 2);
            end.finalized && end.replanCount == 4 == MAX_REPLAN_COUNT + 1
  {
    hide ReadySteps, BeforeReplan, FirstIndex, SaveSequence, PendingCount, ReplannedSteps;
    var s, input := StartOf([Step(1, Pending)], 2, []), Answers(Always, BadItem);
    OneStep(Step(1, Pending));
    OneStep(Step(1, Failed));
    assert Ran(s.steps, 0, false) == [Step(1, Failed)];
    LoneRound(s, 20, Always, BadItem, 0);
    var p := BeforeReplan(s, 20, input);
    assert p.steps[p.nextSteps[0]].status.Failed?;
    var t := Round(s, 20, input);
    assert t.Live() && t.replanCount == 4;
    ReplannedLone(p.steps);
    var x := Step(1, Failed).(error := "answer");
    assert t.steps == [x];
    OneStep(x);
    NothingLeft(t, 20, input);
    var inputs: Inputs := k => input;
    assert Nth(s, 20, inputs, 1) == t by {
      NothingYet(s, 20, inputs);
    }
  }

  lemma ReplannedLone(steps: seq<PlanStep>)
    requires |steps| == 1 && steps[0].status.Failed?
    ensures ReplannedSteps(steps, BadItem) == steps
  {
  }

  lemma NothingLeft(s: RunState, maxRounds: int, input: RoundInput)
    requires s.Live() && s.steps != [] && ReadySteps(s.steps) == [] && !input.cancelled
    ensures Round(s, maxRounds, input).finalized && Round(s, maxRounds, input).replanCount == s.replanCount
    ensures Round(s, maxRounds, input).steps == s.steps
  {
  }

  /** The COMPLETED checkpoint is not the latest even of a run of one step that succeeds at once. */
  lemma CompletionIsOutranked(run: CheckpointStore.RunId)
    ensures var end := Nth(StartOf([Step(1, Pending)], 0, []), 20, k => Answers(Never, NoSteps), 1);
            && end.finalized && end.saved != [] && end.saved[|end.saved| - 1].completed
            && !LastIsLatest(run, end.saved)
  {
    hide ReadySteps, BeforeReplan, FirstIndex, SaveSequence, LastIsLatest, PendingCount;
    var s, input := StartOf([Step(1, Pending)], 0, []), Answers(Never, NoSteps);
    var inputs: Inputs := k => input;
    OneStep(Step(1, Pending));
    OneStep(Step(1, Done));
    assert Ran(s.steps, 0, true) == [Step(1, Done)];
    LoneRound(s, 20, Never, NoSteps, 0);
    NothingYet(s, 20, inputs);
    CompletionIsLatestExactly(s, 20, inputs, 0, run);
  }

  /** A run resumed from a checkpoint of round 3, in which its step succeeds and the run is finalized: the
      latest checkpoint is still the old one. */
  lemma ResumedRunIsHidden(run: CheckpointStore.RunId)
    ensures var saved := [Saved(SaveSequence(3, 1), false, [Step(1, Pending)])];
            var end := Nth(StartOf([Step(1, Pending)], 0, saved), 20, k => Answers(Never, NoSteps), 1);
            end.finalized && |end.saved| == 4 && LatestAmong(run, end.saved, 1)
  {
    hide ReadySteps, BeforeReplan, FirstIndex, LatestAmong, PendingCount;
    var saved := [Saved(SaveSequence(3, 1), false, [Step(1, Pending)])];
    var s, input := StartOf([Step(1, Pending)], 0, saved), Answers(Never, NoSteps);
    var inputs: Inputs := k => input;
    OneStep(Step(1, Pending));
    OneStep(Step(1, Done));
    assert Ran(s.steps, 0, true) == [Step(1, Done)];
    LoneRound(s, 20, Never, NoSteps, 0);
    RoundSaves(s, 20, input);
    NothingYet(s, 20, inputs);
    var p, end := BeforeReplan(s, 20, input), Nth(s, 20, inputs, 1);
    var own := p.saved[1..];
    assert p.saved == saved + own;
    var since := own + [end.saved[|end.saved| - 1]];
    assert end.saved == saved + since;
    assert AllBelow(since, saved[0].sequence);
    OldSavesStayLatestExactly(run, saved, since);
  }

  // ---------- A batch of two ----------

  const Two := [Step(1, Pending), Step(2, Pending)]

  lemma TwoAreReady()
    ensures ReadySteps(Two) == [0, 1]
  {
    assert ReadyBelow(Two, 1) == [0];
  }

  lemma NonePending(a: PlanStep, b: PlanStep)
    requires !a.status.Pending? && !b.status.Pending?
    ensures PendingCount([a, b]) == 0
  {
    assert [a, b][..1] == [a] && [a][..0] == [];
  }

  lemma FindTwo(a: PlanStep, b: PlanStep)
    requires a.stepId == 1 && b.stepId == 2
    ensures FirstIndex([a, b], 1) == 0 && FirstIndex([a, b], 2) == 1
  {
    assert [a, b][1..] == [b];
  }

  /** The batch [1, 2] when the first step fails and the second succeeds. */
  lemma TwoHandled(maxRounds: int, reply: ReplanReply)
    ensures var input := Answers(First, reply);
            var ran := RanIsolated(Two, [0, 1], 2, maxRounds, input);
            && |ran| == 2
            && SavedByOne(ran, [0, 1], 2, 0, maxRounds, input).completed
            && HandledBatch(ran, [0, 1], 2, maxRounds, input) ==
               [Step(1, Failed).(error := "answer"), Step(2, Done).(result := "answer")]
  {
    hide FirstIndex, PendingCount, StepLoop, Handled, ReachesGoal, SaveSequence;
    var input, batch := Answers(First, reply), [0, 1];
    AnswersAtOnce(input.turns(0), true, ConfiguredBudget(maxRounds));
    AnswersAtOnce(input.turns(1), false, ConfiguredBudget(maxRounds));
    var ran := [Step(1, Failed), Step(2, Done)];
    assert RanIsolated(Two, batch, 1, maxRounds, input) == [Step(1, Failed), Step(2, Pending)];
    assert RanIsolated(Two, batch, 2, maxRounds, input) == ran;
    var one := [Step(1, Failed).(error := "answer"), Step(2, Done)];
    FindTwo(ran[0], ran[1]);
    FindTwo(one[0], one[1]);
    NonePending(one[0], one[1]);
    HandledByHeuristic(ran, 0, "answer");
    HandledByHeuristic(one, 1, "answer");
    assert HandledBatch(ran, batch, 1, maxRounds, input) == one;
  }

  /** A batch in which the step with the lower identifier failed: the replan that follows is outranked, and the
      COMPLETED checkpoint of the other step has not ended the run. */
  lemma ReplanIsOutranked(run: CheckpointStore.RunId)
    ensures var t := Round(StartOf(Two, 0, []), 20, Answers(First, NoSteps));
            && t.Live() && t.replanCount == 1 && |t.saved| == 3
            && t.saved[2].steps == t.steps && !LastIsLatest(run, t.saved)
            && t.saved[1].completed
  {
    hide ReadySteps, HandledBatch, RanIsolated, SavedByOne, LastIsLatest, ReplannedSteps;
    var s, input := StartOf(Two, 0, []), Answers(First, NoSteps);
    TwoAreReady();
    TwoHandled(20, NoSteps);
    var p := BeforeReplan(s, 20, input);
    assert p.Live() && p.nextSteps == [0, 1] && !p.goalAchieved;
    var ran := RanIsolated(Two, [0, 1], 2, 20, input);
    assert SavedByBatch(ran, [0, 1], 1, 0, 20, input) == [SavedByOne(ran, [0, 1], 1, 0, 20, input)];
    assert p.saved == [SavedByOne(ran, [0, 1], 1, 0, 20, input), SavedByOne(ran, [0, 1], 2, 0, 20, input)];
    assert p.steps[p.nextSteps[0]].status.Failed?;
    assert FirstFailedId(p.steps, p.nextSteps) == 1;
    ReplanIsLatestExactly(s, 20, input, run);
    assert p.steps[p.nextSteps[1]].stepId == 2;
  }

  // ---------- A reused identifier ----------

  const Begun := [Step(1, Done).(result := "kept"), Step(2, Pending)]
  const Reused := NewSteps([NewStep(1, "again", [], [])])

  const Lost := Step(2, Failed).(error := "answer")
  const Again := Fresh(NewStep(1, "again", [], []))

  lemma ReuseIsAdopted()
    ensures var t := Round(StartOf(Begun, 0, []), 20, Answers(Always, Reused));
            t.Live() && t.steps == [Begun[0], Lost, Again] && t.round == 1
  {
    hide ReadySteps, BeforeReplan, FirstIndex, SaveSequence, PendingCount, ReplannedSteps;
    var s := StartOf(Begun, 0, []);
    BegunIsQuiescent();
    LoneRound(s, 20, Always, Reused, 1);
    FindTwo(Begun[0], Step(2, Failed));
    assert Ran(Begun, 1, false) == [Begun[0], Step(2, Failed)];
    var p := BeforeReplan(s, 20, Answers(Always, Reused));
    assert p.steps == [Begun[0], Lost];
    assert p.steps[p.nextSteps[0]].status.Failed?;
    AdoptedReuse();
  }

  /** A reply that uses the identifier of a DONE step again is adopted, and the failure of the new step turns
      the DONE step FAILED. */
  lemma ReusedIdUndoesDone()
    ensures Quiescent(Begun) && Begun[0].status.Done?
    ensures var end := Nth(StartOf(Begun, 0, []), 20, k => Answers(Always, if k == 0 then Reused else NoSteps), 2);
            |end.steps| == 3 && end.steps[0].stepId == 1 && end.steps[0].status.Failed?
  {
    hide Round, Quiescent;
    var inputs: Inputs := k => Answers(Always, if k == 0 then Reused else NoSteps);
    var s := StartOf(Begun, 0, []);
    BegunIsQuiescent();
    ReuseIsAdopted();
    NothingYet(s, 20, inputs);
    AgainFails(Nth(s, 20, inputs, 1));
  }

  lemma AgainFails(t: RunState)
    requires t.Live() && t.steps == [Begun[0], Lost, Again] && t.round == 1
    ensures var end := Round(t, 20, Answers(Always, NoSteps));
            |end.steps| == 3 && end.steps[0].stepId == 1 && end.steps[0].status.Failed?
  {
    hide ReadySteps, BeforeReplan, FirstIndex, SaveSequence, PendingCount;
    AdoptedReuse();
    LoneRound(t, 20, Always, NoSteps, 2);
    var q := BeforeReplan(t, 20, Answers(Always, NoSteps));
    assert q.steps[0].stepId == 1 && q.steps[0].status.Failed?;
  }

  lemma BegunIsQuiescent()
    ensures Quiescent(Begun) && ReadySteps(Begun) == [1]
  {
    assert ReadyBelow(Begun, 1) == [];
  }

  lemma AdoptedReuse()
    ensures ReplannedSteps([Begun[0], Lost], Reused) == [Begun[0], Lost, Again]
    ensures ReadySteps([Begun[0], Lost, Again]) == [2]
    ensures FirstIndex(Ran([Begun[0], Lost, Again], 2, false), 1) == 0
  {
    var steps := [Begun[0], Lost];
    assert steps[..1] == [Begun[0]] && steps[..1][..0] == [];
    assert Kept([Begun[0]]) == [Begun[0]];
    assert Kept(steps) == steps;
    assert FreshAll(Reused.items) == [Again];
    var all := steps + [Again];
    assert all == [Begun[0], Lost, Again];
    assert ReadyBelow(all, 1) == [] && ReadyBelow(all, 2) == [];
  }

  // ---------- Replies that do not fit ----------

  const Zero := NewSteps([NewStep(0, "unnumbered", [], [])])
  const Loop := NewSteps([NewStep(3, "loop", [3], [])])

  lemma AdoptedOne(failed: PlanStep, item: NewStep)
    requires failed.status.Failed?
    ensures ReplannedSteps([failed], NewSteps([item])) == [failed, Fresh(item)]
    ensures item.dependsOn == [] ==> ReadySteps([failed, Fresh(item)]) == [1]
    ensures item.stepId in item.dependsOn ==> ReadySteps([failed, Fresh(item)]) == []
    ensures item.stepId != failed.stepId ==> FirstIndex([failed, Fresh(item)], item.stepId) == 1
  {
    hide ReadySteps, FirstIndex;
    var all := [failed, Fresh(item)];
    assert [failed][..0] == [] && Kept([failed]) == [failed];
    assert FreshAll([item]) == [Fresh(item)];
    FailedAndFresh(failed, item);
  }

  lemma FailedAndFresh(failed: PlanStep, item: NewStep)
    requires failed.status.Failed?
    ensures item.dependsOn == [] ==> ReadySteps([failed, Fresh(item)]) == [1]
    ensures item.stepId in item.dependsOn ==> ReadySteps([failed, Fresh(item)]) == []
    ensures item.stepId != failed.stepId ==> FirstIndex([failed, Fresh(item)], item.stepId) == 1
  {
    var all := [failed, Fresh(item)];
    assert ReadyBelow(all, 1) == [];
    assert ReadySteps(all) == if IsReady(all, 1) then [1] else [];
    FirstOfTwo(failed, Fresh(item));
    hide FirstIndex;
    assert item.stepId in item.dependsOn ==> !DependencyDone(all, item.stepId);
  }

  lemma FirstOfTwo(a: PlanStep, b: PlanStep)
    ensures FirstIndex([a, b], b.stepId) == if a.stepId == b.stepId then 0 else 1
  {
    assert [a, b][1..] == [b];
  }

  /** A plan of one step that fails and is replaced by the step of the reply. */
  lemma FailedStepIsReplaced(item: NewStep)
    ensures var t, failed := Round(StartOf([Step(1, Pending)], 0, []), 20, Answers(Always, NewSteps([item]))),
                             Step(1, Failed).(error := "answer");
            && t.Live() && !t.goalAchieved && t.round == 1 && t.steps == [failed, Fresh(item)]
            && NeverAbove(t.saved, SaveSequence(1, 999))
  {
    hide ReadySteps, BeforeReplan, FirstIndex, PendingCount, ReplannedSteps;
    var s, input := StartOf([Step(1, Pending)], 0, []), Answers(Always, NewSteps([item]));
    OneStep(Step(1, Pending));
    OneStep(Step(1, Failed));
    assert Ran(s.steps, 0, false) == [Step(1, Failed)];
    LoneRound(s, 20, Always, NewSteps([item]), 0);
    var p, t := BeforeReplan(s, 20, input), Round(s, 20, input);
    assert p.steps[p.nextSteps[0]].status.Failed?;
    AdoptedOne(p.steps[0], item);
    assert p.steps == [p.steps[0]];
    RoundStaysBelow(s, 0, 20, input);
    assert t.saved[0..] == t.saved;
  }

  /** A step adopted without an identifier is numbered 0, and so is the COMPLETED checkpoint that follows it:
      here, and only in such a round, that checkpoint is the latest. */
  lemma UnnumberedStepLetsCompletionThrough(run: CheckpointStore.RunId)
    ensures var end := Nth(StartOf([Step(1, Pending)], 0, []), 20, k => if k == 0 then Answers(Always, Zero) else Answers(Never, NoSteps), 2);
            end.finalized && end.saved != [] && end.saved[|end.saved| - 1].completed && LastIsLatest(run, end.saved)
  {
    hide Round, BeforeReplan, ReadySteps, FirstIndex, PendingCount, LastIsLatest;
    var inputs: Inputs := k => if k == 0 then Answers(Always, Zero) else Answers(Never, NoSteps);
    var s, item := StartOf([Step(1, Pending)], 0, []), NewStep(0, "unnumbered", [], []);
    NothingYet(s, 20, inputs);
    FailedStepIsReplaced(item);
    UnnumberedStepSucceeds(Nth(s, 20, inputs, 1), run);
  }

  lemma UnnumberedStepSucceeds(t: RunState, run: CheckpointStore.RunId)
    requires t.Live() && t.round == 1 && NeverAbove(t.saved, SaveSequence(1, 999))
    requires t.steps == [Step(1, Failed).(error := "answer"), Fresh(NewStep(0, "unnumbered", [], []))]
    ensures var end := Round(t, 20, Answers(Never, NoSteps));
            end.finalized && end.saved != [] && end.saved[|end.saved| - 1].completed && LastIsLatest(run, end.saved)
  {
    hide BeforeReplan, ReadySteps, FirstIndex, PendingCount, LastIsLatest;
    var input := Answers(Never, NoSteps);
    AdoptedOne(t.steps[0], NewStep(0, "unnumbered", [], []));
    LoneRound(t, 20, Never, NoSteps, 1);
    var ran := Ran(t.steps, 1, true);
    assert ran == [ran[0], ran[1]];
    NonePending(ran[0], ran[1]);
    var p := BeforeReplan(t, 20, input);
    RoundKeepsIds(t, 20, input);
    assert Round(t, 20, input).finalized;
    FinalSaveIsLatestExactly(t, 20, input, run);
    assert NeverAbove(t.saved, SaveSequence(2, 0));
  }

  /** A step that depends on itself is adopted. The plan is not valid any more, and the run is finalized with
      that step PENDING, although nothing it depends on was lost. */
  lemma SelfDependentStepIsStranded()
    ensures var inputs: Inputs := k => Answers(Always, Loop);
            var s := StartOf([Step(1, Pending)], 0, []);
            && Sound(s.steps) && !ValidSteps(Nth(s, 20, inputs, 1).steps)
            && var end := Nth(s, 20, inputs, 2);
               end.finalized && |end.steps| == 2 && end.steps[1].status.Pending? && end.steps[1].dependsOn == [end.steps[1].stepId]
  {
    hide Round, BeforeReplan, ReadySteps, Sound;
    var inputs: Inputs := k => Answers(Always, Loop);
    var s, item := StartOf([Step(1, Pending)], 0, []), NewStep(3, "loop", [3], []);
    OneStepIsSound(Step(1, Pending));
    NothingYet(s, 20, inputs);
    FailedStepIsReplaced(item);
    var t := Nth(s, 20, inputs, 1);
    AdoptedOne(t.steps[0], item);
    SelfDependencyIsInvalid(t.steps, 1);
    NothingLeft(t, 20, inputs(1));
  }

  lemma SelfDependencyIsInvalid(steps: seq<PlanStep>, i: nat)
    requires i < |steps| && steps[i].stepId in steps[i].dependsOn
    ensures !ValidSteps(steps)
  {
    assert !DependenciesPresent(steps, steps[i]);
  }

  lemma OneStepIsSound(x: PlanStep)
    requires x.stepId > 0 && x.description != "" && x.dependsOn == [] && x.status.Pending?
    ensures Sound([x])
  {
    var g := DependencyGraph([x]);
    assert [x][..0] == [];
    assert DependencyGraph([]) == map[] && g == map[x.stepId := x.dependsOn];
    RankedIsAcyclic(g, map[x.stepId := 0]);
    NewPlanIsSound([x]);
  }
}
