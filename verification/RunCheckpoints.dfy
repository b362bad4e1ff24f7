/** Which of the plans a run saved the checkpoint store gives back. Saves are numbered by round and step
(planning/por_runner.py), and the store prefers the greatest number (runtime/checkpoint.py). */
module RunCheckpoints {
  import opened Planner
  import opened Scheduler
  import opened Replanner
  import opened StepRunner
  import opened PorMachine
  import opened PorRuns
  import opened CheckpointStore

  /** The saves of a run as the store receives them; the snapshot is the position. */
  function Stored(run: RunId, saved: seq<Saved>): seq<Checkpoint> {
    seq(|saved|, i requires 0 <= i < |saved| => Checkpoint(run, saved[i].sequence, i))
  }

  /** The store's latest checkpoint of the run is the one saved last. */
  ghost predicate LastIsLatest(run: RunId, saved: seq<Saved>)
    requires saved != []
  {
    IsLatest(Stored(run, saved), Stored(run, saved)[|saved| - 1])
  }

  ghost predicate NeverAbove(saved: seq<Saved>, sequence: int) {
    forall k :: 0 <= k < |saved| ==> saved[k].sequence <= sequence
  }

  lemma LastIsLatestExactly(run: RunId, saved: seq<Saved>)
    requires saved != []
    ensures LastIsLatest(run, saved) <==> NeverAbove(saved, saved[|saved| - 1].sequence)
  {
    var c, n := Stored(run, saved), |saved| - 1;
    if LastIsLatest(run, saved) {
      var i :| 0 <= i < |c| && c[i] == c[n] && Leads(c, i);
      assert i == n;
      forall k | 0 <= k < |saved|
        ensures saved[k].sequence <= saved[n].sequence
      {
        assert c[k].sequence <= c[n].sequence;
      }
    }
    if NeverAbove(saved, saved[n].sequence) {
      assert Leads(c, n);
    }
  }

  /** For step identifiers below 1000 the numbers are ordered by round first and step second. */
  lemma SequenceOrder(r: int, i: int, q: int, j: int)
    requires 0 <= i < 1000 && 0 <= j < 1000
    ensures SaveSequence(r, i) <= SaveSequence(q, j) <==> r < q || (r == q && i <= j)
  {
  }

  ghost predicate NumbersDiffer(limit: nat) {
    forall r: int, i: int, q: int, j: int ::
      0 <= i < limit && 0 <= j < limit && SaveSequence(r, i) == SaveSequence(q, j) ==> r == q && i == j
  }

  /** Checkpoints of different rounds and steps have different numbers exactly as long as the identifiers stay
      below 1000. */
  lemma NumbersDifferExactly(limit: nat)
    ensures NumbersDiffer(limit) <==> limit <= 1000
  {
    if limit > 1000 {
      assert SaveSequence(0, 1000) == SaveSequence(1, 0);
    }
  }

  // ---------- The saves of one round ----------

  ghost predicate PositiveIds(steps: seq<PlanStep>) {
    forall i :: 0 <= i < |steps| ==> steps[i].stepId > 0
  }

  /** The saves of a batch carry the identifiers of its steps. */
  lemma {:induction false} BatchSequences(
      steps: seq<PlanStep>, ran: seq<PlanStep>, batch: seq<nat>, k: nat, round: int, maxRounds: int, input: RoundInput)
    requires k <= |batch| && BatchInRange(batch, |steps|) && Settles(steps, ran)
    ensures |SavedByBatch(ran, batch, k, round, maxRounds, input)| == k
    ensures forall j :: 0 <= j < k ==>
              SavedByBatch(ran, batch, k, round, maxRounds, input)[j].sequence == SaveSequence(round, steps[batch[j]].stepId)
  {
    hide HandledBatch, Settled, SaveSequence, ReachesGoal;
    if k > 0 {
      BatchSequences(steps, ran, batch, k - 1, round, maxRounds, input);
      HandledBatchSettles(ran, batch, k - 1, maxRounds, input);
      var before := HandledBatch(ran, batch, k - 1, maxRounds, input);
      assert before[batch[k - 1]].stepId == ran[batch[k - 1]].stepId == steps[batch[k - 1]].stepId;
    }
  }

  /** What a round has saved when it comes to the replan node: the plan at the start of a single step and the
      plans after each result. */
  ghost predicate SavesOfRound(s: RunState, p: RunState)
    requires p.Live() ==> p.InRange()
  {
    && p.Live() && p.nextSteps != [] && |p.steps| == |s.steps| && s.saved <= p.saved && s.round <= p.round
    && (|p.nextSteps| > 1 ==> p.round == s.round)
    && var own := p.saved[|s.saved|..];
       && (|p.nextSteps| > 1 ==>
             |own| == |p.nextSteps| &&
             forall j :: 0 <= j < |own| ==> own[j].sequence == SaveSequence(p.round, s.steps[p.nextSteps[j]].stepId))
       && (|p.nextSteps| == 1 ==>
             && |own| == 2
             && own[0].sequence == SaveSequence(s.round, s.steps[p.nextSteps[0]].stepId)
             && own[1].sequence == SaveSequence(p.round, s.steps[p.nextSteps[0]].stepId))
  }

  lemma SingleSaves(s: RunState, maxRounds: int, input: RoundInput)
    requires s.Live() && BeforeReplan(s, maxRounds, input).Live() && |BeforeReplan(s, maxRounds, input).nextSteps| == 1
    ensures SavesOfRound(s, BeforeReplan(s, maxRounds, input))
  {
  }

  lemma BatchSaves(s: RunState, maxRounds: int, input: RoundInput)
    requires s.Live() && BeforeReplan(s, maxRounds, input).Live() && |BeforeReplan(s, maxRounds, input).nextSteps| != 1
    ensures SavesOfRound(s, BeforeReplan(s, maxRounds, input))
  {
    hide SaveSequence, HandledBatch, RanIsolated, SavedByBatch, Settles;
    var p := BeforeReplan(s, maxRounds, input);
    var batch := p.nextSteps;
    var ran := RanIsolated(s.steps, batch, |batch|, maxRounds, input);
    RanIsolatedSettles(s.steps, batch, |batch|, maxRounds, input);
    BatchSequences(s.steps, ran, batch, |batch|, s.round, maxRounds, input);
    assert p.saved[|s.saved|..] == SavedByBatch(ran, batch, |batch|, s.round, maxRounds, input);
  }

  lemma RoundSaves(s: RunState, maxRounds: int, input: RoundInput)
    requires s.Live() && BeforeReplan(s, maxRounds, input).Live()
    ensures SavesOfRound(s, BeforeReplan(s, maxRounds, input))
  {
    hide SavesOfRound, BeforeReplan;
    if |BeforeReplan(s, maxRounds, input).nextSteps| == 1 {
      SingleSaves(s, maxRounds, input);
    } else {
      BatchSaves(s, maxRounds, input);
    }
  }

  // ---------- The final checkpoint ----------

  /** Something was saved in the current round under a number above that of a checkpoint without step. */
  ghost predicate Marked(saved: seq<Saved>, round: int) {
    exists k :: 0 <= k < |saved| && saved[k].sequence > SaveSequence(round, 0)
  }

  lemma RoundMarks(s: RunState, maxRounds: int, input: RoundInput)
    requires s.Live() && BeforeReplan(s, maxRounds, input).Live() && PositiveIds(s.steps)
    ensures var p := BeforeReplan(s, maxRounds, input); Marked(p.saved, p.round)
  {
    hide BeforeReplan;
    var p := BeforeReplan(s, maxRounds, input);
    RoundSaves(s, maxRounds, input);
    var own := p.saved[|s.saved|..];
    var k := |p.saved| - 1;
    assert p.saved[k] == own[|own| - 1];
    assert p.saved[k].sequence > SaveSequence(p.round, 0);
  }

  lemma MarkIsAbove(run: RunId, saved: seq<Saved>, round: int)
    requires saved != [] && saved[|saved| - 1].sequence == SaveSequence(round, 0)
    requires Marked(saved, round)
    ensures !LastIsLatest(run, saved)
  {
    hide LastIsLatest, SaveSequence;
    LastIsLatestExactly(run, saved);
  }

  lemma MarkStays(saved: seq<Saved>, more: seq<Saved>, round: int)
    requires Marked(saved, round) && saved <= more
    ensures Marked(more, round)
  {
    var k :| 0 <= k < |saved| && saved[k].sequence > SaveSequence(round, 0);
    assert more[k] == saved[k];
  }

  lemma RoundKeepsMark(s: RunState, maxRounds: int, input: RoundInput)
    requires s.Live() && BeforeReplan(s, maxRounds, input).Live() && PositiveIds(s.steps)
    ensures var t := Round(s, maxRounds, input); Marked(t.saved, t.round)
  {
    hide BeforeReplan, ReplannedSteps, Marked, WillReplan;
    var p := BeforeReplan(s, maxRounds, input);
    RoundMarks(s, maxRounds, input);
    MarkStays(p.saved, Round(s, maxRounds, input).saved, p.round);
  }

  /** The two ways a run is finalized, and what is saved then. */
  lemma FinalSave(s: RunState, maxRounds: int, input: RoundInput)
    requires s.Live() && Round(s, maxRounds, input).finalized
    ensures var p, t := BeforeReplan(s, maxRounds, input), Round(s, maxRounds, input);
            && t.saved != [] && t.saved[|t.saved| - 1] == Saved(SaveSequence(t.round, 0), true, t.steps)
            && (p.Live() <==> ReadySteps(s.steps) != [])
            && (!p.Live() ==> t.saved[..|t.saved| - 1] == s.saved && t.round == s.round)
            && (p.Live() ==> t.saved[..|t.saved| - 1] == p.saved && t.round == p.round)
  {
    hide ReadySteps, ExecuteNode, ObserveNode, ReplannedSteps, WillReplan, SaveSequence;
  }

  lemma LiveBefore(s: RunState, maxRounds: int, input: RoundInput)
    requires Round(s, maxRounds, input).Live()
    ensures s.Live() && BeforeReplan(s, maxRounds, input).Live()
  {
    hide BeforeReplan, ReplannedSteps, WillReplan;
  }

  /** For all identifiers and every state: the COMPLETED checkpoint a run is finalized with is its latest one
      exactly when no earlier round outranks it and no step of the last round has a positive identifier. */
  lemma FinalSaveIsLatestExactly(s: RunState, maxRounds: int, input: RoundInput, run: RunId)
    requires s.Live() && Round(s, maxRounds, input).finalized
    ensures var p, t := BeforeReplan(s, maxRounds, input), Round(s, maxRounds, input);
            && t.saved != [] && t.saved[|t.saved| - 1] == Saved(SaveSequence(t.round, 0), true, t.steps)
            && (LastIsLatest(run, t.saved) <==>
                  && NeverAbove(s.saved, SaveSequence(t.round, 0))
                  && (p.Live() ==> forall j :: 0 <= j < |p.nextSteps| ==> p.steps[p.nextSteps[j]].stepId <= 0))
  {
    hide BeforeReplan, Round, LastIsLatest, SaveSequence, WillReplan;
    var p, t := BeforeReplan(s, maxRounds, input), Round(s, maxRounds, input);
    FinalSave(s, maxRounds, input);
    LastIsLatestExactly(run, t.saved);
    if p.Live() {
      RoundSaves(s, maxRounds, input);
      RoundKeepsIds(s, maxRounds, input);
      OwnSavesBelow(s, p, 0);
      SplitSaves(s.saved, p.saved, t.saved, SaveSequence(t.round, 0));
    } else {
      assert s.saved[|s.saved|..] == [];
      SplitSaves(s.saved, s.saved, t.saved, SaveSequence(t.round, 0));
    }
  }

  /** All identifiers up to round `n` are positive, as validation asks and an adopted reply may not give. */
  ghost predicate PositiveUpTo(s: RunState, maxRounds: int, inputs: Inputs, n: nat) {
    n == 0 || (PositiveUpTo(s, maxRounds, inputs, n - 1) && PositiveIds(Nth(s, maxRounds, inputs, n - 1).steps))
  }

  /** Over whole runs with positive identifiers, the COMPLETED checkpoint becomes the latest only if the run had
      nothing to do and nothing saved before outranks it: otherwise a checkpoint of the last round, numbered
      with a step, does. */
  lemma CompletionIsLatestExactly(s: RunState, maxRounds: int, inputs: Inputs, n: nat, run: RunId)
    requires PositiveUpTo(s, maxRounds, inputs, n + 1)
    requires Nth(s, maxRounds, inputs, n).Live() && Nth(s, maxRounds, inputs, n + 1).finalized
    ensures var end := Nth(s, maxRounds, inputs, n + 1);
            && end.saved != [] && end.saved[|end.saved| - 1] == Saved(SaveSequence(end.round, 0), true, end.steps)
            && (LastIsLatest(run, end.saved) <==> n == 0 && ReadySteps(s.steps) == [] && NeverAbove(s.saved, SaveSequence(s.round, 0)))
  {
    hide Round, BeforeReplan, PositiveIds, ReadySteps, LastIsLatest, Marked, SaveSequence;
    var before := Nth(s, maxRounds, inputs, n);
    var end := Nth(s, maxRounds, inputs, n + 1);
    FinalSave(before, maxRounds, inputs(n));
    if ReadySteps(before.steps) != [] {
      RoundKeepsMark(before, maxRounds, inputs(n));
      MarkIsAbove(run, end.saved, end.round);
    } else if n > 0 {
      LiveRunIsMarked(s, maxRounds, inputs, n);
      MarkStays(before.saved, end.saved, end.round);
      MarkIsAbove(run, end.saved, end.round);
    } else {
      LastIsLatestExactly(run, end.saved);
      assert forall k :: 0 <= k < |s.saved| ==> end.saved[k] == s.saved[k];
      assert end.saved == s.saved + [end.saved[|end.saved| - 1]];
    }
  }

  lemma LiveRunIsMarked(s: RunState, maxRounds: int, inputs: Inputs, n: nat)
    requires n > 0 && PositiveUpTo(s, maxRounds, inputs, n) && Nth(s, maxRounds, inputs, n).Live()
    ensures var t := Nth(s, maxRounds, inputs, n); Marked(t.saved, t.round)
  {
    hide Round, PositiveIds, Marked, BeforeReplan;
    LiveBefore(Nth(s, maxRounds, inputs, n - 1), maxRounds, inputs(n - 1));
    RoundKeepsMark(Nth(s, maxRounds, inputs, n - 1), maxRounds, inputs(n - 1));
  }

  /** A run from a sound plan whose adopted steps fit has positive identifiers throughout. */
  lemma {:induction false} FittingRunIsPositive(s: RunState, maxRounds: int, inputs: Inputs, n: nat)
    requires Sound(s.steps) && FitsUpTo(s, maxRounds, inputs, n)
    ensures PositiveUpTo(s, maxRounds, inputs, n + 1)
  {
    hide Nth, PositiveIds, Sound, FitsRound;
    if n > 0 {
      FittingRunIsPositive(s, maxRounds, inputs, n - 1);
    }
    RunKeepsValid(s, maxRounds, inputs, n);
    SoundIsPositive(Nth(s, maxRounds, inputs, n).steps);
  }

  lemma SoundIsPositive(steps: seq<PlanStep>)
    requires Sound(steps)
    ensures PositiveIds(steps)
  {
  }

  // ---------- The checkpoint of a replan ----------

  lemma {:induction false} FirstFailedIsInBatch(steps: seq<PlanStep>, batch: seq<nat>, j: nat) returns (i: nat)
    requires BatchInRange(batch, |steps|) && j < |batch| && steps[batch[j]].status.Failed?
    ensures i < |batch| && FirstFailedId(steps, batch) == steps[batch[i]].stepId
    ensures steps[batch[i]].status.Failed? && forall k :: 0 <= k < i ==> !steps[batch[k]].status.Failed?
  {
    if steps[batch[0]].status.Failed? {
      i := 0;
    } else {
      i := FirstFailedIsInBatch(steps, batch[1..], j - 1);
      i := i + 1;
    }
  }

  /** The plan a replan has just changed is the latest checkpoint exactly when no earlier round outranks it
      and the failed step has the greatest identifier of its batch. Otherwise a resumed run goes back to the
      plan as it was before. */
  lemma ReplanIsLatestExactly(s: RunState, maxRounds: int, input: RoundInput, run: RunId)
    requires s.Live() && BeforeReplan(s, maxRounds, input).Live() && WillReplan(BeforeReplan(s, maxRounds, input))
    ensures var p, t := BeforeReplan(s, maxRounds, input), Round(s, maxRounds, input);
            var failed := FirstFailedId(p.steps, p.nextSteps);
            && t.saved == p.saved + [Saved(SaveSequence(p.round, failed), false, t.steps)]
            && (LastIsLatest(run, t.saved) <==>
                  && NeverAbove(s.saved, SaveSequence(p.round, failed))
                  && forall j :: 0 <= j < |p.nextSteps| ==> p.steps[p.nextSteps[j]].stepId <= failed)
  {
    hide BeforeReplan, ReplannedSteps, LastIsLatest;
    var p, t := BeforeReplan(s, maxRounds, input), Round(s, maxRounds, input);
    var failed := FirstFailedId(p.steps, p.nextSteps);
    var j :| 0 <= j < |p.nextSteps| && p.steps[p.nextSteps[j]].status.Failed?;
    var i := FirstFailedIsInBatch(p.steps, p.nextSteps, j);
    RoundSaves(s, maxRounds, input);
    RoundKeepsIds(s, maxRounds, input);
    LastIsLatestExactly(run, t.saved);
    SplitSaves(s.saved, p.saved, t.saved, SaveSequence(p.round, failed));
    OwnSavesBelow(s, p, failed);
  }

  lemma RoundKeepsIds(s: RunState, maxRounds: int, input: RoundInput)
    requires s.Live() && BeforeReplan(s, maxRounds, input).Live()
    ensures var p := BeforeReplan(s, maxRounds, input);
            |p.steps| == |s.steps| && forall i :: 0 <= i < |s.steps| ==> p.steps[i].stepId == s.steps[i].stepId
  {
    hide BeforeReplan;
    RoundSettlesBatch(s, maxRounds, input);
  }

  lemma SplitSaves(a: seq<Saved>, b: seq<Saved>, c: seq<Saved>, sequence: int)
    requires a <= b && |c| == |b| + 1 && c[..|b|] == b && c[|b|].sequence == sequence
    ensures NeverAbove(c, sequence) <==> NeverAbove(a, sequence) && NeverAbove(b[|a|..], sequence)
  {
  }

  lemma OwnSavesBelow(s: RunState, p: RunState, id: int)
    requires p.Live() && p.InRange() && SavesOfRound(s, p)
    requires forall k :: 0 <= k < |s.steps| ==> p.steps[k].stepId == s.steps[k].stepId
    ensures NeverAbove(p.saved[|s.saved|..], SaveSequence(p.round, id)) <==>
            forall j :: 0 <= j < |p.nextSteps| ==> p.steps[p.nextSteps[j]].stepId <= id
  {
    var own := p.saved[|s.saved|..];
    if NeverAbove(own, SaveSequence(p.round, id)) {
      forall j | 0 <= j < |p.nextSteps|
        ensures p.steps[p.nextSteps[j]].stepId <= id
      {
        assert own[if |p.nextSteps| == 1 then 1 else j].sequence <= SaveSequence(p.round, id);
      }
    }
  }

  // ---------- Steps that run alone ----------

  /** Identifiers from 1 to 999, as the numbering of checkpoints takes for granted. */
  ghost predicate SmallIds(steps: seq<PlanStep>) {
    forall i :: 0 <= i < |steps| ==> 0 < steps[i].stepId < 1000
  }

  ghost predicate SmallUpTo(s: RunState, maxRounds: int, inputs: Inputs, n: nat) {
    n == 0 || (SmallUpTo(s, maxRounds, inputs, n - 1) && SmallIds(Nth(s, maxRounds, inputs, n - 1).steps))
  }

  lemma SmallerRound(saved: seq<Saved>, r: int, i: int, q: int, j: int)
    requires NeverAbove(saved, SaveSequence(r, i)) && (r < q || (r == q && i <= j)) && 0 <= i < 1000 && 0 <= j < 1000
    ensures NeverAbove(saved, SaveSequence(q, j))
  {
    SequenceOrder(r, i, q, j);
  }

  /** What a run has saved since it began with `past` saves. */
  ghost predicate OwnBelow(t: RunState, past: nat) {
    past <= |t.saved| && NeverAbove(t.saved[past..], SaveSequence(t.round, 999))
  }

  lemma BeforeReplanStaysBelow(s: RunState, past: nat, maxRounds: int, input: RoundInput)
    requires s.Live() && BeforeReplan(s, maxRounds, input).Live() && SmallIds(s.steps) && OwnBelow(s, past)
    ensures var p := BeforeReplan(s, maxRounds, input);
            s.round <= p.round && s.saved <= p.saved && OwnBelow(p, past)
  {
    hide BeforeReplan;
    var p := BeforeReplan(s, maxRounds, input);
    RoundSaves(s, maxRounds, input);
    SmallerRound(s.saved[past..], s.round, 999, p.round, 999);
    var own, earlier, all := p.saved[|s.saved|..], s.saved[past..], p.saved[past..];
    assert all == earlier + own;
    assert NeverAbove(own, SaveSequence(p.round, 999));
  }

  lemma RoundStaysBelow(s: RunState, past: nat, maxRounds: int, input: RoundInput)
    requires s.Live() && Round(s, maxRounds, input).Live() && SmallIds(s.steps) && OwnBelow(s, past)
    ensures s.saved <= Round(s, maxRounds, input).saved && OwnBelow(Round(s, maxRounds, input), past)
  {
    hide BeforeReplan, ReplannedSteps;
    var p := BeforeReplan(s, maxRounds, input);
    LiveBefore(s, maxRounds, input);
    BeforeReplanStaysBelow(s, past, maxRounds, input);
    if WillReplan(p) {
      var j :| 0 <= j < |p.nextSteps| && p.steps[p.nextSteps[j]].status.Failed?;
      var i := FirstFailedIsInBatch(p.steps, p.nextSteps, j);
      RoundKeepsIds(s, maxRounds, input);
      var t := Round(s, maxRounds, input);
      assert t.saved[past..] == p.saved[past..] + [t.saved[|p.saved|]];
    }
  }

  lemma {:induction false} RunStaysBelow(s: RunState, maxRounds: int, inputs: Inputs, n: nat)
    requires SmallUpTo(s, maxRounds, inputs, n) && Nth(s, maxRounds, inputs, n).Live()
    ensures var t := Nth(s, maxRounds, inputs, n);
            s.round <= t.round && s.saved <= t.saved && OwnBelow(t, |s.saved|)
  {
    hide Round, SmallIds, OwnBelow, SaveSequence, BeforeReplan;
    if n == 0 {
      NothingOwn(s);
    } else {
      var before := Nth(s, maxRounds, inputs, n - 1);
      LiveBefore(before, maxRounds, inputs(n - 1));
      RunStaysBelow(s, maxRounds, inputs, n - 1);
      RoundStaysBelow(before, |s.saved|, maxRounds, inputs(n - 1));
      RoundNeverFalls(before, maxRounds, inputs(n - 1));
    }
  }

  lemma NothingOwn(s: RunState)
    ensures OwnBelow(s, |s.saved|)
  {
  }

  lemma RoundNeverFalls(s: RunState, maxRounds: int, input: RoundInput)
    requires s.Live() && BeforeReplan(s, maxRounds, input).Live()
    ensures s.round <= Round(s, maxRounds, input).round
  {
    hide BeforeReplan, ReplannedSteps, WillReplan;
    RoundSaves(s, maxRounds, input);
  }

  /** A step that ran alone leaves its own checkpoint as the latest exactly when nothing saved before its round
      outranks it, for all identifiers and every state, one resumed over older saves included. */
  lemma StepIsLatestExactly(s: RunState, maxRounds: int, input: RoundInput, run: RunId)
    requires s.Live() && BeforeReplan(s, maxRounds, input).Live() && |BeforeReplan(s, maxRounds, input).nextSteps| == 1
    ensures var p := BeforeReplan(s, maxRounds, input);
            && |p.steps| == |s.steps| && p.InRange() && p.saved != []
            && (LastIsLatest(run, p.saved) <==> NeverAbove(s.saved, SaveSequence(p.round, s.steps[p.nextSteps[0]].stepId)))
  {
    hide BeforeReplan, LastIsLatest;
    var p := BeforeReplan(s, maxRounds, input);
    RoundSaves(s, maxRounds, input);
    var own := p.saved[|s.saved|..];
    assert p.saved == s.saved + own && p.saved[|p.saved| - 1] == own[1];
    LastIsLatestExactly(run, p.saved);
    assert forall k :: 0 <= k < |s.saved| ==> p.saved[k] == s.saved[k];
  }

  /** Over whole runs with identifiers below 1000: when a step has run alone and used a round, its checkpoint,
      and that of a replan after it, is the latest exactly when no save from before the run outranks it. A run
      that starts fresh has none; a resumed run, whose round count starts again, may have. */
  lemma SerialStepIsLatestExactly(s: RunState, maxRounds: int, inputs: Inputs, n: nat, run: RunId)
    requires SmallUpTo(s, maxRounds, inputs, n + 1) && Nth(s, maxRounds, inputs, n).Live()
    requires var p := BeforeReplan(Nth(s, maxRounds, inputs, n), maxRounds, inputs(n));
             p.Live() && |p.nextSteps| == 1 && p.round > Nth(s, maxRounds, inputs, n).round
    ensures var p, t := BeforeReplan(Nth(s, maxRounds, inputs, n), maxRounds, inputs(n)), Nth(s, maxRounds, inputs, n + 1);
            var sequence := SaveSequence(p.round, p.steps[p.nextSteps[0]].stepId);
            && p.saved != [] && (LastIsLatest(run, p.saved) <==> NeverAbove(s.saved, sequence))
            && (WillReplan(p) ==> t.saved != [] && (LastIsLatest(run, t.saved) <==> NeverAbove(s.saved, sequence)))
  {
    hide Round, BeforeReplan, LastIsLatest, SaveSequence, ReplannedSteps;
    var before := Nth(s, maxRounds, inputs, n);
    var p := BeforeReplan(before, maxRounds, inputs(n));
    RunStaysBelow(s, maxRounds, inputs, n);
    StepIsLatestExactly(before, maxRounds, inputs(n), run);
    RoundKeepsIds(before, maxRounds, inputs(n));
    var i := p.nextSteps[0];
    var id := before.steps[i].stepId;
    SmallerRound(before.saved[|s.saved|..], before.round, 999, p.round, id);
    SplitBelow(s.saved, before.saved, SaveSequence(p.round, id));
    if WillReplan(p) {
      assert p.nextSteps == [i];
      ReplanIsLatestExactly(before, maxRounds, inputs(n), run);
    }
  }

  lemma SplitBelow(a: seq<Saved>, b: seq<Saved>, sequence: int)
    requires a <= b
    ensures NeverAbove(b, sequence) <==> NeverAbove(a, sequence) && NeverAbove(b[|a|..], sequence)
  {
    assert b == a + b[|a|..];
    assert forall k :: 0 <= k < |a| ==> a[k] == b[k];
    assert forall k :: 0 <= k < |b| - |a| ==> b[|a|..][k] == b[|a| + k];
  }

  // ---------- Resumed runs ----------

  /** The latest checkpoint is one of the first `m` saves. */
  ghost predicate LatestAmong(run: RunId, saved: seq<Saved>, m: nat)
    requires m <= |saved|
  {
    exists k: nat :: k < m && Leads(Stored(run, saved), k)
  }

  ghost predicate AllBelow(saved: seq<Saved>, sequence: int) {
    forall k :: 0 <= k < |saved| ==> saved[k].sequence < sequence
  }

  /** After a resume the store goes on returning a checkpoint of the first run exactly as long as one of them
      outranks everything saved since. */
  lemma OldSavesStayLatestExactly(run: RunId, past: seq<Saved>, since: seq<Saved>)
    ensures LatestAmong(run, past + since, |past|) <==> exists k :: 0 <= k < |past| && AllBelow(since, past[k].sequence)
  {
    var all := past + since;
    var c := Stored(run, all);
    if LatestAmong(run, all, |past|) {
      var k: nat :| k < |past| && Leads(c, k);
      forall j | 0 <= j < |since|
        ensures since[j].sequence < past[k].sequence
      {
        assert c[|past| + j].sequence < c[k].sequence;
      }
      assert AllBelow(since, past[k].sequence);
    }
    if k :| 0 <= k < |past| && AllBelow(since, past[k].sequence) {
      var first := Stored(run, past);
      var i := LatestOfSorted(first);
      assert first[k].sequence <= first[i].sequence;
      assert Leads(c, i) by {
        forall j | 0 <= j < |c|
          ensures c[j].sequence <= c[i].sequence && (i < j ==> c[j].sequence < c[i].sequence)
        {
          assert j < |past| ==> c[j] == first[j];
          assert j >= |past| ==> c[j].sequence == since[j - |past|].sequence;
        }
      }
    }
  }

  /** A resumed run counts its rounds from zero again. Until it reaches the round in which the first run ended,
      the store returns a checkpoint of the first run. */
  lemma ResumedRunStaysHidden(s: RunState, maxRounds: int, inputs: Inputs, n: nat, run: RunId, k: nat)
    requires SmallUpTo(s, maxRounds, inputs, n) && Nth(s, maxRounds, inputs, n).Live()
    requires k < |s.saved| && s.saved[k].sequence >= SaveSequence(Nth(s, maxRounds, inputs, n).round + 1, 0)
    ensures |s.saved| <= |Nth(s, maxRounds, inputs, n).saved|
    ensures LatestAmong(run, Nth(s, maxRounds, inputs, n).saved, |s.saved|)
  {
    hide LatestAmong, SmallUpTo, Nth;
    var t := Nth(s, maxRounds, inputs, n);
    RunStaysBelow(s, maxRounds, inputs, n);
    var since := t.saved[|s.saved|..];
    assert t.saved == s.saved + since;
    assert AllBelow(since, s.saved[k].sequence);
    OldSavesStayLatestExactly(run, s.saved, since);
  }

  // ---------- COMPLETED before the end ----------

  /** A COMPLETED checkpoint of a step ends the run exactly when the step ran alone: the goal that a result in
      a batch reaches is saved and then forgotten. */
  lemma CompletedStepEndsExactlyWhenAlone(s: RunState, maxRounds: int, input: RoundInput, k: nat)
    requires s.Live() && !s.goalAchieved && BeforeReplan(s, maxRounds, input).Live()
    requires |s.saved| <= k < |BeforeReplan(s, maxRounds, input).saved| && BeforeReplan(s, maxRounds, input).saved[k].completed
    ensures var p, t := BeforeReplan(s, maxRounds, input), Round(s, maxRounds, input);
            && (t.finalized <==> |p.nextSteps| == 1)
            && (t.Live() <==> |p.nextSteps| > 1)
  {
    hide ReplannedSteps, WillReplan, SharedStep, SaveSequence, HandledBatch, RanIsolated, SavedByBatch, Handled, ReachesGoal;
  }

  /** Without a verdict, a result of a batch is saved as COMPLETED exactly when its step succeeded and nothing
      outside the batch is PENDING any more. */
  lemma BatchSavesCompletedExactly(
      steps: seq<PlanStep>, batch: seq<nat>, k: nat, round: int, maxRounds: int, input: RoundInput)
    requires 0 < k <= |batch| && BatchInRange(batch, |steps|) && input.verdicts(k - 1).None?
    ensures var before := HandledBatch(steps, batch, k - 1, maxRounds, input);
            SavedByOne(steps, batch, k, round, maxRounds, input).completed <==>
              before[batch[k - 1]].status.Done? && PendingCount(before) == 0
  {
    hide HandledBatch;
    var before := HandledBatch(steps, batch, k - 1, maxRounds, input);
    HeuristicIsFaithful(before[batch[k - 1]].stepId, before[batch[k - 1]].status, PendingCount(before));
  }
}
