/** Theorems about whole Plan-Observe-Replan runs: termination, bounds, safety, outcome. */
module PorRuns {
  import opened Wrappers
  import opened Planner
  import opened Scheduler
  import opened Replanner
  import opened ReplanValidity
  import opened StepRunner
  import opened PorMachine

  type Inputs = nat -> RoundInput

  /** The state after `n` rounds. */
  ghost function Nth(s: RunState, maxRounds: int, inputs: Inputs, n: nat): RunState {
    if n == 0 then s else Round(Nth(s, maxRounds, inputs, n - 1), maxRounds, inputs(n - 1))
  }

  // ---------- Termination ----------

  lemma {:induction false} SettlingCountsDown(a: seq<PlanStep>, b: seq<PlanStep>)
    requires Settles(a, b)
    ensures PendingCount(b) <= PendingCount(a)
    ensures (exists i :: 0 <= i < |a| && a[i].status.Pending? && Settled(b[i])) ==> PendingCount(b) < PendingCount(a)
  {
    if a != [] {
      var n := |a| - 1;
      assert a[..n] + [a[n]] == a && b[..n] + [b[n]] == b;
      assert Settles(a[..n], b[..n]) by {
        forall i | 0 <= i < n
          ensures b[..n][i] == a[..n][i] || (SameShape(a[..n][i], b[..n][i]) && Settled(b[..n][i]))
        {
          assert b[i] == a[i] || (SameShape(a[i], b[i]) && Settled(b[i]));
        }
      }
      SettlingCountsDown(a[..n], b[..n]);
      if i :| 0 <= i < |a| && a[i].status.Pending? && Settled(b[i]) {
        if i < n {
          assert a[..n][i].status.Pending? && Settled(b[..n][i]);
        }
      }
    }
  }

  lemma {:induction false} SkippingCountsDown(a: seq<PlanStep>, b: seq<PlanStep>)
    requires |a| == |b| && forall i :: 0 <= i < |a| ==> b[i].status.Pending? ==> a[i].status.Pending?
    ensures PendingCount(b) <= PendingCount(a)
  {
    if a != [] {
      SkippingCountsDown(a[..|a| - 1], b[..|a| - 1]);
    }
  }

  ghost function ReplansLeft(s: RunState): nat {
    Max(0, MAX_REPLAN_COUNT - s.replanCount)
  }

  lemma ReplanCountOfRound(s: RunState, maxRounds: int, input: RoundInput)
    requires s.Live()
    ensures BeforeReplan(s, maxRounds, input).replanCount == s.replanCount
  {
  }

  /** Every round that does not end the run lowers (replans left, PENDING steps), whatever the environment does. */
  lemma RoundLowersMeasure(s: RunState, maxRounds: int, input: RoundInput)
    requires s.Live() && Round(s, maxRounds, input).Live()
    ensures var t := Round(s, maxRounds, input);
            || ReplansLeft(t) < ReplansLeft(s)
            || (ReplansLeft(t) == ReplansLeft(s) && PendingCount(t.steps) < PendingCount(s.steps))
  {
    hide BeforeReplan, PendingCount, ReplannedSteps, Settles, Untouched;
    var p := BeforeReplan(s, maxRounds, input);
    RoundSettlesBatch(s, maxRounds, input);
    ReplanCountOfRound(s, maxRounds, input);
    assert p.nextSteps[0] in ReadySteps(s.steps);
    assert s.steps[p.nextSteps[0]].status.Pending? && Settled(p.steps[p.nextSteps[0]]);
    SettlingCountsDown(s.steps, p.steps);
  }

  /** The whole run: it ends for every stream of inputs, from every state. */
  ghost function RunFrom(s: RunState, maxRounds: int, inputs: Inputs, n: nat): (end: RunState)
    ensures !end.Live()
    decreases ReplansLeft(s), PendingCount(s.steps)
  {
    if !s.Live() then s
    else
      var t := Round(s, maxRounds, inputs(n));
      if !t.Live() then t
      else
        RoundLowersMeasure(s, maxRounds, inputs(n));
        RunFrom(t, maxRounds, inputs, n + 1)
  }

  lemma {:induction false} RunReachesItsEnd(s: RunState, maxRounds: int, inputs: Inputs, k: nat) returns (n: nat)
    requires Nth(s, maxRounds, inputs, k).Live()
    ensures n > k && Nth(s, maxRounds, inputs, n) == RunFrom(Nth(s, maxRounds, inputs, k), maxRounds, inputs, k)
    decreases ReplansLeft(Nth(s, maxRounds, inputs, k)), PendingCount(Nth(s, maxRounds, inputs, k).steps)
  {
    var now := Nth(s, maxRounds, inputs, k);
    var next := Nth(s, maxRounds, inputs, k + 1);
    if next.Live() {
      RoundLowersMeasure(now, maxRounds, inputs(k));
      n := RunReachesItsEnd(s, maxRounds, inputs, k + 1);
    } else {
      n := k + 1;
    }
  }

  /** Every run ends: some round leaves it finished, whatever the environment does. */
  lemma EveryRunEnds(s: RunState, maxRounds: int, inputs: Inputs)
    ensures exists n :: !Nth(s, maxRounds, inputs, n).Live()
  {
    if s.Live() {
      var n := RunReachesItsEnd(s, maxRounds, inputs, 0);
      assert !Nth(s, maxRounds, inputs, n).Live();
    } else {
      assert !Nth(s, maxRounds, inputs, 0).Live();
    }
  }

  // ---------- Bounds ----------

  lemma RoundCountOfRound(s: RunState, maxRounds: int, input: RoundInput)
    requires s.round <= maxRounds + 4
    ensures s.round <= Round(s, maxRounds, input).round <= maxRounds + 4
  {
    hide RanIsolated, HandledBatch, SavedByBatch, SharedStep, Handled, ReplannedSteps, Ran;
    SharedStepRounds(s.round, maxRounds, input.turns(0));
  }

  /** The total round count never exceeds the configured limit by more than four. */
  lemma {:induction false} RoundsStayBounded(s: RunState, maxRounds: int, inputs: Inputs, n: nat)
    requires s.round <= maxRounds + 4
    ensures s.round <= Nth(s, maxRounds, inputs, n).round <= maxRounds + 4
  {
    hide Round;
    if n > 0 {
      RoundsStayBounded(s, maxRounds, inputs, n - 1);
      RoundCountOfRound(Nth(s, maxRounds, inputs, n - 1), maxRounds, inputs(n - 1));
    }
  }

  ghost predicate Replans(s: RunState, maxRounds: int, input: RoundInput) {
    s.Live() && WillReplan(BeforeReplan(s, maxRounds, input))
  }

  /** How many of the first `n` rounds replan. */
  ghost function ReplanRounds(s: RunState, maxRounds: int, inputs: Inputs, n: nat): nat {
    if n == 0 then 0
    else ReplanRounds(s, maxRounds, inputs, n - 1)
         + if Replans(Nth(s, maxRounds, inputs, n - 1), maxRounds, inputs(n - 1)) then 1 else 0
  }

  lemma RoundCountsReplans(s: RunState, maxRounds: int, input: RoundInput)
    ensures var t := Round(s, maxRounds, input);
            if Replans(s, maxRounds, input)
            then s.replanCount < MAX_REPLAN_COUNT && s.replanCount < t.replanCount <= s.replanCount + 2
            else t.replanCount == s.replanCount
  {
    if s.Live() {
      ReplanCountOfRound(s, maxRounds, input);
    }
  }

  /** At most MAX_REPLAN_COUNT replans happen, although the counter itself may go one further. */
  lemma {:induction false} ReplansAreBounded(s: RunState, maxRounds: int, inputs: Inputs, n: nat)
    ensures ReplanRounds(s, maxRounds, inputs, n) <= ReplansLeft(s)
    ensures s.replanCount + ReplanRounds(s, maxRounds, inputs, n) <= Nth(s, maxRounds, inputs, n).replanCount
    ensures Nth(s, maxRounds, inputs, n).replanCount <= Max(s.replanCount, MAX_REPLAN_COUNT + 1)
  {
    hide Round, Replans;
    if n > 0 {
      ReplansAreBounded(s, maxRounds, inputs, n - 1);
      RoundCountsReplans(Nth(s, maxRounds, inputs, n - 1), maxRounds, inputs(n - 1));
    }
  }

  /** One round takes the counter above its maximum exactly when it replans with one replan left and reading
      the reply raises after the first increment. */
  lemma RoundOvercountsExactly(s: RunState, maxRounds: int, input: RoundInput)
    requires s.replanCount <= MAX_REPLAN_COUNT
    ensures Round(s, maxRounds, input).replanCount > MAX_REPLAN_COUNT <==>
              Overcounts(s, maxRounds, input)
  {
    if s.Live() {
      ReplanCountOfRound(s, maxRounds, input);
    }
  }

  ghost predicate Overcounts(s: RunState, maxRounds: int, input: RoundInput) {
    Replans(s, maxRounds, input) && s.replanCount == MAX_REPLAN_COUNT - 1 && input.reply.BadItem?
  }

  ghost predicate OvercountsAt(s: RunState, maxRounds: int, inputs: Inputs, k: nat) {
    Overcounts(Nth(s, maxRounds, inputs, k), maxRounds, inputs(k))
  }

  lemma CounterStep(s: RunState, maxRounds: int, inputs: Inputs, k: nat)
    ensures Nth(s, maxRounds, inputs, k).replanCount <= Nth(s, maxRounds, inputs, k + 1).replanCount
    ensures Nth(s, maxRounds, inputs, k).replanCount <= MAX_REPLAN_COUNT ==>
              (Nth(s, maxRounds, inputs, k + 1).replanCount > MAX_REPLAN_COUNT <==> OvercountsAt(s, maxRounds, inputs, k))
    ensures OvercountsAt(s, maxRounds, inputs, k) ==> Nth(s, maxRounds, inputs, k).replanCount <= MAX_REPLAN_COUNT
  {
    hide Round, Replans;
    var before := Nth(s, maxRounds, inputs, k);
    RoundCountsReplans(before, maxRounds, inputs(k));
    if before.replanCount <= MAX_REPLAN_COUNT {
      RoundOvercountsExactly(before, maxRounds, inputs(k));
    }
  }

  lemma NothingYet(s: RunState, maxRounds: int, inputs: Inputs)
    ensures Nth(s, maxRounds, inputs, 0) == s
  {
  }

  /** Over whole runs: the counter is above its maximum exactly when some round has taken it there, and then
      it is above by one. */
  lemma {:induction false} CounterExceedsExactly(s: RunState, maxRounds: int, inputs: Inputs, n: nat)
    requires s.replanCount <= MAX_REPLAN_COUNT
    ensures Nth(s, maxRounds, inputs, n).replanCount > MAX_REPLAN_COUNT <==>
              exists k: nat :: k < n && OvercountsAt(s, maxRounds, inputs, k)
    ensures Nth(s, maxRounds, inputs, n).replanCount > MAX_REPLAN_COUNT ==>
              Nth(s, maxRounds, inputs, n).replanCount == MAX_REPLAN_COUNT + 1
  {
    hide Nth, OvercountsAt, ReplanRounds;
    ReplansAreBounded(s, maxRounds, inputs, n);
    if n == 0 {
      NothingYet(s, maxRounds, inputs);
    } else {
      CounterExceedsExactly(s, maxRounds, inputs, n - 1);
      CounterStep(s, maxRounds, inputs, n - 1);
    }
  }

  // ---------- Safety ----------

  ghost predicate AllQuiescent(saved: seq<Saved>) {
    forall k :: 0 <= k < |saved| ==> Quiescent(saved[k].steps)
  }

  /** An adopted replanning reply of this round has fresh identifiers. */
  ghost predicate FreshRound(s: RunState, maxRounds: int, input: RoundInput) {
    Replans(s, maxRounds, input) && Adopted(input.reply) ==>
      FreshItems(BeforeReplan(s, maxRounds, input).steps, input.reply.items)
  }

  ghost predicate ReadyBatch(steps: seq<PlanStep>, batch: seq<nat>) {
    forall j :: 0 <= j < |batch| ==> batch[j] in ReadySteps(steps)
  }

  /** Settling a ready batch, and only it, keeps the plan quiescent and every DONE step in place. */
  lemma SettlingKeepsQuiescence(a: seq<PlanStep>, b: seq<PlanStep>, batch: seq<nat>)
    requires Quiescent(a) && ReadyBatch(a, batch) && Settles(a, b) && Untouched(a, b, batch)
    ensures Quiescent(b) && DonePreserved(a, b)
  {
  }

  lemma HandledBatchIsQuiescent(steps: seq<PlanStep>, batch: seq<nat>, k: nat, maxRounds: int, input: RoundInput)
    requires k <= |batch| && BatchInRange(batch, |steps|)
    requires Quiescent(steps) && ReadyBatch(steps, batch)
    ensures Quiescent(HandledBatch(RanIsolated(steps, batch, |batch|, maxRounds, input), batch, k, maxRounds, input))
  {
    hide DonePreserved;
    ParallelSettles(steps, batch, k, maxRounds, input);
    SettlingKeepsQuiescence(steps, HandledBatch(RanIsolated(steps, batch, |batch|, maxRounds, input), batch, k, maxRounds, input), batch);
  }

  lemma {:induction false} SavedByBatchIsQuiescent(
      steps: seq<PlanStep>, batch: seq<nat>, k: nat, round: int, maxRounds: int, input: RoundInput)
    requires k <= |batch| && BatchInRange(batch, |steps|)
    requires Quiescent(steps) && ReadyBatch(steps, batch)
    ensures AllQuiescent(SavedByBatch(RanIsolated(steps, batch, |batch|, maxRounds, input), batch, k, round, maxRounds, input))
  {
    hide Quiescent, ReadyBatch, ReachesGoal, HandledBatch, RanIsolated;
    if k > 0 {
      SavedByBatchIsQuiescent(steps, batch, k - 1, round, maxRounds, input);
      HandledBatchIsQuiescent(steps, batch, k, maxRounds, input);
    }
  }

  /** Everything before the replan node keeps the plan and all saved plans quiescent. */
  lemma BeforeReplanIsSafe(s: RunState, maxRounds: int, input: RoundInput)
    requires s.Live() && Quiescent(s.steps) && AllQuiescent(s.saved)
    ensures var p := BeforeReplan(s, maxRounds, input);
            Quiescent(p.steps) && AllQuiescent(p.saved) && DonePreserved(s.steps, p.steps)
  {
    var p := BeforeReplan(s, maxRounds, input);
    if p.Live() {
      RoundSettlesBatch(s, maxRounds, input);
      SettlingKeepsQuiescence(s.steps, p.steps, p.nextSteps);
      var batch := ReadySteps(s.steps);
      if |batch| != 1 {
        ReadyInRange(s.steps);
        SavedByBatchIsQuiescent(s.steps, batch, |batch|, s.round, maxRounds, input);
      }
    }
  }

  lemma RoundIsSafe(s: RunState, maxRounds: int, input: RoundInput)
    requires Quiescent(s.steps) && AllQuiescent(s.saved) && FreshRound(s, maxRounds, input)
    ensures var t := Round(s, maxRounds, input);
            Quiescent(t.steps) && AllQuiescent(t.saved) && DonePreserved(s.steps, t.steps)
  {
    if s.Live() {
      BeforeReplanIsSafe(s, maxRounds, input);
      var p := BeforeReplan(s, maxRounds, input);
      if WillReplan(p) {
        ReplanKeepsQuiescence(p.steps, input.reply);
        ReplanPreservesDone(p.steps, input.reply);
        DonePreservedTransitive(s.steps, p.steps, ReplannedSteps(p.steps, input.reply));
      }
    }
  }

  lemma DonePreservedReflexive(a: seq<PlanStep>)
    ensures DonePreserved(a, a)
  {
  }

  lemma DonePreservedTransitive(a: seq<PlanStep>, b: seq<PlanStep>, c: seq<PlanStep>)
    requires DonePreserved(a, b) && DonePreserved(b, c)
    ensures DonePreserved(a, c)
  {
  }

  ghost predicate FreshUpTo(s: RunState, maxRounds: int, inputs: Inputs, n: nat) {
    n == 0 || (FreshUpTo(s, maxRounds, inputs, n - 1) && FreshRound(Nth(s, maxRounds, inputs, n - 1), maxRounds, inputs(n - 1)))
  }

  /** Whole-run safety: from a quiescent plan, at every select point no step is running, DONE is closed
      under dependencies, identifiers are unique, and every plan saved so far has these properties too.
      A step that is DONE at one select point is there, unchanged, at every later one. */
  lemma {:induction false} RunIsSafe(s: RunState, maxRounds: int, inputs: Inputs, m: nat, n: nat)
    requires Quiescent(s.steps) && AllQuiescent(s.saved) && m <= n && FreshUpTo(s, maxRounds, inputs, n)
    ensures Quiescent(Nth(s, maxRounds, inputs, n).steps) && AllQuiescent(Nth(s, maxRounds, inputs, n).saved)
    ensures DonePreserved(Nth(s, maxRounds, inputs, m).steps, Nth(s, maxRounds, inputs, n).steps)
    decreases n
  {
    hide Round, Quiescent, AllQuiescent, FreshRound, DonePreserved;
    if n > 0 {
      RunIsSafe(s, maxRounds, inputs, if m < n then m else n - 1, n - 1);
      RoundIsSafe(Nth(s, maxRounds, inputs, n - 1), maxRounds, inputs(n - 1));
      if m == n {
        DonePreservedReflexive(Nth(s, maxRounds, inputs, n).steps);
      } else {
        DonePreservedTransitive(Nth(s, maxRounds, inputs, m).steps, Nth(s, maxRounds, inputs, n - 1).steps,
                                Nth(s, maxRounds, inputs, n).steps);
      }
    } else {
      DonePreservedReflexive(s.steps);
    }
  }

  /** Whether a round keeps its plan quiescent is decided by the freshness of the reply it adopts. */
  lemma RoundIsSafeExactly(s: RunState, maxRounds: int, input: RoundInput)
    requires Quiescent(s.steps) && AllQuiescent(s.saved)
    ensures Quiescent(Round(s, maxRounds, input).steps) <==> FreshRound(s, maxRounds, input)
  {
    if FreshRound(s, maxRounds, input) {
      RoundIsSafe(s, maxRounds, input);
    } else {
      var p := BeforeReplan(s, maxRounds, input);
      BeforeReplanIsSafe(s, maxRounds, input);
      UniqueIffFresh(p.steps, input.reply.items);
    }
  }

  ghost predicate QuiescentAt(s: RunState, maxRounds: int, inputs: Inputs, k: nat) {
    Quiescent(Nth(s, maxRounds, inputs, k).steps)
  }

  /** Over whole runs: every select point so far was quiescent exactly when every adopted reply so far was fresh. */
  lemma {:induction false} RunIsSafeExactly(s: RunState, maxRounds: int, inputs: Inputs, n: nat)
    requires Quiescent(s.steps) && AllQuiescent(s.saved)
    ensures (forall k: nat :: k <= n ==> QuiescentAt(s, maxRounds, inputs, k)) <==> FreshUpTo(s, maxRounds, inputs, n)
  {
    hide Round, Quiescent, AllQuiescent, FreshRound;
    assert QuiescentAt(s, maxRounds, inputs, 0);
    if n > 0 {
      RunIsSafeExactly(s, maxRounds, inputs, n - 1);
      if FreshUpTo(s, maxRounds, inputs, n - 1) {
        RunIsSafe(s, maxRounds, inputs, 0, n - 1);
        RoundIsSafeExactly(Nth(s, maxRounds, inputs, n - 1), maxRounds, inputs(n - 1));
        assert QuiescentAt(s, maxRounds, inputs, n) <==> FreshUpTo(s, maxRounds, inputs, n);
      }
    }
  }

  /** The final state of a run inherits all of this. */
  lemma FinishedRunIsSafe(s: RunState, maxRounds: int, inputs: Inputs)
    requires s.Live() && Quiescent(s.steps) && AllQuiescent(s.saved)
    requires forall n: nat :: FreshUpTo(s, maxRounds, inputs, n)
    ensures var end := RunFrom(s, maxRounds, inputs, 0);
            Quiescent(end.steps) && AllQuiescent(end.saved) && DonePreserved(s.steps, end.steps)
  {
    var n := RunReachesItsEnd(s, maxRounds, inputs, 0);
    RunIsSafe(s, maxRounds, inputs, 0, n);
  }

  /** Without adopted replies (no model, or unusable answers) safety needs no hypothesis. */
  lemma {:induction false} HeuristicRunsAreFresh(s: RunState, maxRounds: int, inputs: Inputs, n: nat)
    requires forall k: nat :: !Adopted(inputs(k).reply)
    ensures FreshUpTo(s, maxRounds, inputs, n)
  {
    if n > 0 {
      HeuristicRunsAreFresh(s, maxRounds, inputs, n - 1);
    }
  }

  /** A step that is DONE at some select point is never selected again. */
  lemma DoneIsNeverReexecuted(s: RunState, maxRounds: int, inputs: Inputs, m: nat, n: nat, i: nat, j: nat)
    requires Quiescent(s.steps) && AllQuiescent(s.saved) && m <= n && FreshUpTo(s, maxRounds, inputs, n)
    requires i < |Nth(s, maxRounds, inputs, m).steps| && Nth(s, maxRounds, inputs, m).steps[i].status.Done?
    requires j in ReadySteps(Nth(s, maxRounds, inputs, n).steps)
    ensures Nth(s, maxRounds, inputs, n).steps[j].stepId != Nth(s, maxRounds, inputs, m).steps[i].stepId
  {
    RunIsSafe(s, maxRounds, inputs, m, n);
    var before, now := Nth(s, maxRounds, inputs, m).steps, Nth(s, maxRounds, inputs, n).steps;
    assert before[i] in now;
    var k :| 0 <= k < |now| && now[k] == before[i];
    FoundAtItself(now, k);
    FoundAtItself(now, j);
  }

  /** Why freshness is needed: the result of a step goes to the first step carrying its identifier. All DONE
      steps stay as they were exactly when that one is not DONE, or when it is marked DONE again with the
      result it has. */
  lemma ResultUndoesDone(steps: seq<PlanStep>, i: nat, ok: bool, text: string, verdict: Option<Verdict>)
    requires i < |steps| && steps[i].status.Pending?
    ensures var ran, first := Ran(steps, i, ok), FirstIndex(steps, steps[i].stepId);
            var after := Handled(ran, i, text, verdict);
            (forall k :: 0 <= k < |steps| && steps[k].status.Done? ==> after[k] == steps[k])
            <==> || !steps[first].status.Done?
                 || (!MarksFailed(StepObserved(ran, i, verdict)) && text == steps[first].result)
  {
    hide StepObserved, MarksFailed;
    var ran := Ran(steps, i, ok);
    FirstIndexOfShape(steps, ran, steps[i].stepId);
    var first := FirstIndex(steps, steps[i].stepId);
    var after := Handled(ran, i, text, verdict);
    assert after[first].status == if MarksFailed(StepObserved(ran, i, verdict)) then Failed else Done;
    assert steps[first].status.Done? && after[first].status.Done? ==>
             (after[first] == steps[first] <==> text == steps[first].result);
  }

  /** In particular a step that fails without a model verdict turns such a DONE step FAILED. */
  lemma FailureUndoesDone(steps: seq<PlanStep>, i: nat, text: string)
    requires i < |steps| && steps[i].status.Pending?
    ensures var after := Handled(Ran(steps, i, false), i, text, None);
            (forall k :: 0 <= k < |steps| && steps[k].status.Done? ==> after[k] == steps[k])
            <==> !steps[FirstIndex(steps, steps[i].stepId)].status.Done?
  {
    HeuristicIsFaithful(steps[i].stepId, Failed, PendingCount(Ran(steps, i, false)));
    ResultUndoesDone(steps, i, false, text, None);
  }

  lemma {:induction false} FirstIndexOfShape(a: seq<PlanStep>, b: seq<PlanStep>, id: int)
    requires |a| == |b| && forall k :: 0 <= k < |a| ==> a[k].stepId == b[k].stepId
    ensures FirstIndex(a, id) == FirstIndex(b, id)
  {
  }

  // ---------- Skipped steps ----------

  /** Every step skipped since `start` depends directly on a step that FAILED. */
  ghost predicate SkipsExplained(start: seq<PlanStep>, now: seq<PlanStep>) {
    |now| == |start| &&
    forall i :: 0 <= i < |now| && now[i].status.Skipped? && !start[i].status.Skipped? ==> DependsOnFailed(now, now[i])
  }

  lemma FailedStays(a: seq<PlanStep>, b: seq<PlanStep>, step: PlanStep)
    requires |a| == |b| && DependsOnFailed(a, step)
    requires forall j :: 0 <= j < |a| && a[j].status.Failed? ==> b[j].status.Failed? && b[j].stepId == a[j].stepId
    ensures DependsOnFailed(b, step)
  {
    var j :| 0 <= j < |a| && a[j].status.Failed? && a[j].stepId in step.dependsOn;
    assert b[j].status.Failed?;
  }

  lemma SettlingKeepsExplained(start: seq<PlanStep>, a: seq<PlanStep>, b: seq<PlanStep>, batch: seq<nat>)
    requires SkipsExplained(start, a) && ReadyBatch(a, batch) && Settles(a, b) && Untouched(a, b, batch)
    ensures SkipsExplained(start, b)
  {
    forall i | 0 <= i < |b| && b[i].status.Skipped? && !start[i].status.Skipped?
      ensures DependsOnFailed(b, b[i])
    {
      FailedStays(a, b, a[i]);
    }
  }

  lemma SkippingKeepsExplained(start: seq<PlanStep>, a: seq<PlanStep>, reply: ReplanReply)
    requires SkipsExplained(start, a) && !Adopted(reply)
    ensures SkipsExplained(start, ReplannedSteps(a, reply))
  {
    hide ReplannedSteps;
    var b := ReplannedSteps(a, reply);
    HeuristicSkipsExactly(a, reply);
    forall i | 0 <= i < |b| && b[i].status.Skipped? && !start[i].status.Skipped?
      ensures DependsOnFailed(b, b[i])
    {
      FailedStays(a, b, a[i]);
    }
  }

  lemma RoundKeepsExplained(start: seq<PlanStep>, s: RunState, maxRounds: int, input: RoundInput)
    requires SkipsExplained(start, s.steps) && UniqueIds(s.steps) && !Adopted(input.reply)
    ensures SkipsExplained(start, Round(s, maxRounds, input).steps)
  {
    hide BeforeReplan, ReplannedSteps, Settles, Untouched, UniqueIds, SkipsExplained, WillReplan;
    if s.Live() && BeforeReplan(s, maxRounds, input).Live() {
      var p := BeforeReplan(s, maxRounds, input);
      RoundSettlesBatch(s, maxRounds, input);
      SettlingKeepsExplained(start, s.steps, p.steps, p.nextSteps);
      if WillReplan(p) {
        SkippingKeepsExplained(start, p.steps, input.reply);
      }
    } else {
      BeforeReplanStands(s, maxRounds, input);
    }
  }

  lemma BeforeReplanStands(s: RunState, maxRounds: int, input: RoundInput)
    requires !(s.Live() && BeforeReplan(s, maxRounds, input).Live())
    ensures Round(s, maxRounds, input).steps == s.steps
  {
  }

  /** In runs without adopted replies, at every select point, each step the run has skipped depends directly
      on a step that FAILED. */
  lemma {:induction false} RunSkipsAreExplained(s: RunState, maxRounds: int, inputs: Inputs, n: nat)
    requires Quiescent(s.steps) && AllQuiescent(s.saved) && forall k: nat :: !Adopted(inputs(k).reply)
    ensures SkipsExplained(s.steps, Nth(s, maxRounds, inputs, n).steps)
  {
    hide Round, AllQuiescent;
    if n > 0 {
      RunSkipsAreExplained(s, maxRounds, inputs, n - 1);
      HeuristicRunsAreFresh(s, maxRounds, inputs, n - 1);
      RunIsSafe(s, maxRounds, inputs, 0, n - 1);
      RoundKeepsExplained(s.steps, Nth(s, maxRounds, inputs, n - 1), maxRounds, inputs(n - 1));
    }
  }

  // ---------- Outcome ----------

  ghost predicate SameShapes(a: seq<PlanStep>, b: seq<PlanStep>) {
    |a| == |b| && forall i :: 0 <= i < |a| ==> SameShape(a[i], b[i])
  }

  lemma {:induction false} SameShapesSameGraph(a: seq<PlanStep>, b: seq<PlanStep>)
    requires SameShapes(a, b)
    ensures DependencyGraph(a) == DependencyGraph(b)
  {
    if a != [] {
      assert SameShape(a[|a| - 1], b[|a| - 1]);
      SameShapesSameGraph(a[..|a| - 1], b[..|a| - 1]);
    }
  }

  lemma SameShapesSameIds(a: seq<PlanStep>, b: seq<PlanStep>)
    requires SameShapes(a, b)
    ensures Ids(a) <= Ids(b)
  {
  }

  lemma SameShapesKeepValid(a: seq<PlanStep>, b: seq<PlanStep>)
    requires SameShapes(a, b) && ValidSteps(a)
    ensures ValidSteps(b)
  {
    SameShapesSameGraph(a, b);
    SameShapesSameIds(a, b);
    forall i, j | 0 <= i < j < |b|
      ensures b[i].stepId != b[j].stepId
    {
      assert SameShape(a[i], b[i]) && SameShape(a[j], b[j]);
    }
    forall i | 0 <= i < |b|
      ensures b[i].stepId > 0 && b[i].description != "" && DependenciesPresent(b, b[i])
    {
      assert SameShape(a[i], b[i]) && DependenciesPresent(a, a[i]);
    }
  }

  /** What a run keeps of a plan that was validated and is executed by the loop. */
  ghost predicate Sound(steps: seq<PlanStep>) {
    ValidSteps(steps) && Quiescent(steps) && SettledClosed(steps)
  }

  lemma NewPlanIsSound(steps: seq<PlanStep>)
    requires ValidSteps(steps) && forall i :: 0 <= i < |steps| ==> steps[i].status.Pending?
    ensures Sound(steps)
  {
  }

  /** Steps of a ready batch depend on DONE steps only, so settling them keeps this of all settled steps. */
  lemma SettlingKeepsSound(a: seq<PlanStep>, b: seq<PlanStep>, batch: seq<nat>)
    requires Sound(a) && ReadyBatch(a, batch) && Settles(a, b) && Untouched(a, b, batch)
    ensures Sound(b)
  {
    hide ValidSteps;
    SettlingKeepsValid(a, b);
    SettlingKeepsQuiescence(a, b, batch);
    SettlingKeepsSettledClosed(a, b, batch);
  }

  lemma SettlingKeepsSettledClosed(a: seq<PlanStep>, b: seq<PlanStep>, batch: seq<nat>)
    requires Quiescent(a) && SettledClosed(a) && ReadyBatch(a, batch) && Settles(a, b) && Untouched(a, b, batch)
    ensures SettledClosed(b)
  {
    SettlingKeepsQuiescence(a, b, batch);
    DonePreservedIds(a, b);
    forall i | 0 <= i < |b| && Settled(b[i])
      ensures DependenciesDone(b, b[i])
    {
      if i in batch {
        ReadyNeedsDone(a, i);
      } else {
        assert DependenciesDone(a, a[i]);
      }
    }
  }

  lemma ReadyNeedsDone(steps: seq<PlanStep>, i: nat)
    requires UniqueIds(steps) && i in ReadySteps(steps)
    ensures i < |steps| && DependenciesDone(steps, steps[i])
  {
    forall d | d in steps[i].dependsOn
      ensures d in DoneIds(steps)
    {
      LookupIsMembership(steps, d);
    }
  }

  lemma SettlingKeepsValid(a: seq<PlanStep>, b: seq<PlanStep>)
    requires ValidSteps(a) && Settles(a, b)
    ensures ValidSteps(b)
  {
    SameShapesKeepValid(a, b);
  }

  /** The replacement steps that this round adopts fit the plan they are adopted into. */
  ghost predicate FitsRound(s: RunState, maxRounds: int, input: RoundInput) {
    Replans(s, maxRounds, input) && Adopted(input.reply) ==>
      Fits(BeforeReplan(s, maxRounds, input).steps, input.reply.items)
  }

  lemma ReplanIsSoundExactly(steps: seq<PlanStep>, reply: ReplanReply)
    requires Sound(steps)
    ensures SettledClosed(ReplannedSteps(steps, reply))
    ensures ValidSteps(ReplannedSteps(steps, reply)) <==> (Adopted(reply) ==> Fits(steps, reply.items))
    ensures (Adopted(reply) ==> Fits(steps, reply.items)) ==> Quiescent(ReplannedSteps(steps, reply))
  {
    hide ValidSteps, AllFit;
    ReplanKeepsSettledClosed(steps, reply);
    if Adopted(reply) {
      ValidIffFits(steps, reply.items);
      if Fits(steps, reply.items) {
        ReplanKeepsQuiescence(steps, reply);
      }
    } else {
      SameShapesKeepValid(steps, ReplannedSteps(steps, reply));
      ReplanKeepsQuiescence(steps, reply);
    }
  }

  lemma BeforeReplanIsSound(s: RunState, maxRounds: int, input: RoundInput)
    requires s.Live() && Sound(s.steps)
    ensures Sound(BeforeReplan(s, maxRounds, input).steps)
  {
    hide Sound, Settles, Untouched;
    var p := BeforeReplan(s, maxRounds, input);
    if p.Live() {
      RoundSettlesBatch(s, maxRounds, input);
      SoundIsUnique(s.steps);
      SettlingKeepsSound(s.steps, p.steps, p.nextSteps);
    }
  }

  lemma SoundIsUnique(steps: seq<PlanStep>)
    requires Sound(steps)
    ensures UniqueIds(steps)
  {
  }

  /** A round keeps a sound plan valid exactly when the steps it adopts, if any, fit, and then keeps it sound. */
  lemma RoundIsValidExactly(s: RunState, maxRounds: int, input: RoundInput)
    requires Sound(s.steps)
    ensures ValidSteps(Round(s, maxRounds, input).steps) <==> FitsRound(s, maxRounds, input)
    ensures FitsRound(s, maxRounds, input) ==> Sound(Round(s, maxRounds, input).steps)
  {
    hide BeforeReplan, ReplannedSteps, ValidSteps, Quiescent, SettledClosed, Fits, Adopted;
    if s.Live() {
      BeforeReplanIsSound(s, maxRounds, input);
      var p := BeforeReplan(s, maxRounds, input);
      if WillReplan(p) {
        ReplanIsSoundExactly(p.steps, input.reply);
      }
    }
  }

  ghost predicate FitsUpTo(s: RunState, maxRounds: int, inputs: Inputs, n: nat) {
    n == 0 || (FitsUpTo(s, maxRounds, inputs, n - 1) && FitsRound(Nth(s, maxRounds, inputs, n - 1), maxRounds, inputs(n - 1)))
  }

  lemma FittingIsFresh(s: RunState, maxRounds: int, input: RoundInput)
    requires FitsRound(s, maxRounds, input)
    ensures FreshRound(s, maxRounds, input)
  {
    hide AllFit, Replans, BeforeReplan;
  }

  lemma {:induction false} RunKeepsValid(s: RunState, maxRounds: int, inputs: Inputs, n: nat)
    requires Sound(s.steps) && FitsUpTo(s, maxRounds, inputs, n)
    ensures Sound(Nth(s, maxRounds, inputs, n).steps) && FreshUpTo(s, maxRounds, inputs, n)
  {
    hide Round, Sound, FitsRound, FreshRound;
    if n > 0 {
      RunKeepsValid(s, maxRounds, inputs, n - 1);
      RoundIsValidExactly(Nth(s, maxRounds, inputs, n - 1), maxRounds, inputs(n - 1));
      FittingIsFresh(Nth(s, maxRounds, inputs, n - 1), maxRounds, inputs(n - 1));
    }
  }

  ghost predicate ValidAt(s: RunState, maxRounds: int, inputs: Inputs, k: nat) {
    ValidSteps(Nth(s, maxRounds, inputs, k).steps)
  }

  /** Over whole runs: the plan was valid at every select point so far exactly when all adopted steps so far
      fitted. */
  lemma {:induction false} RunIsValidExactly(s: RunState, maxRounds: int, inputs: Inputs, n: nat)
    requires Sound(s.steps)
    ensures (forall k: nat :: k <= n ==> ValidAt(s, maxRounds, inputs, k)) <==> FitsUpTo(s, maxRounds, inputs, n)
  {
    hide Round, Quiescent, SettledClosed, ValidSteps, FitsRound;
    assert ValidAt(s, maxRounds, inputs, 0);
    if n > 0 {
      RunIsValidExactly(s, maxRounds, inputs, n - 1);
      if FitsUpTo(s, maxRounds, inputs, n - 1) {
        RunKeepsValid(s, maxRounds, inputs, n - 1);
        RoundIsValidExactly(Nth(s, maxRounds, inputs, n - 1), maxRounds, inputs(n - 1));
        assert ValidAt(s, maxRounds, inputs, n) <==> FitsUpTo(s, maxRounds, inputs, n);
      }
    }
  }

  /** How a run ends that is neither cut off nor told that the goal is reached. When the select node
      finds nothing ready, the run is over and its plan is fully explained: apart from FAILED and
      SKIPPED steps, exactly the steps with a lost transitive dependency are PENDING, all others DONE. */
  lemma ExhaustedRunIsExplained(s: RunState, maxRounds: int, inputs: Inputs, n: nat, i: nat)
    requires Sound(s.steps) && FitsUpTo(s, maxRounds, inputs, n)
    requires Nth(s, maxRounds, inputs, n).Live() && !inputs(n).cancelled
    requires ReadySteps(Nth(s, maxRounds, inputs, n).steps) == []
    requires i < |Nth(s, maxRounds, inputs, n).steps|
    ensures var end := Nth(s, maxRounds, inputs, n + 1);
            && end.finalized && end.steps == Nth(s, maxRounds, inputs, n).steps
            && (end.steps[i].status.Pending? <==> Blocked(end.steps, i) && end.steps[i].status !in {Failed, Skipped})
            && (end.steps[i].status.Done? <==> !Blocked(end.steps, i) && end.steps[i].status !in {Failed, Skipped})
  {
    RunKeepsValid(s, maxRounds, inputs, n);
    var steps := Nth(s, maxRounds, inputs, n).steps;
    if steps[i].status !in {Failed, Skipped} {
      StuckExactlyWhenBlocked(steps, i);
    }
  }
}
