/** Running one plan step: the bounded ReAct sub-loop (core/react_kernel.py) and the
round budget of shared and isolated steps (planning/por_runner.py). */
module StepRunner {
  /** What one turn of the sub-loop does; the model and the clock decide.
      `CutShort` ends the loop before its round is counted (cancellation or timeout),
      `Raises` and `NoResult` after. */
  datatype Turn =
    | CutShort(message: string)
    | Raises(message: string)
    | NoResult
    | Answer(failed: bool, hasToolCalls: bool, content: string)

  /** How the sub-loop ended and how many rounds it counted. */
  datatype StepEnd = StepEnd(rounds: nat, ok: bool, content: string)

  const NO_RESULT := "LLM call failed: no result"
  const STEP_ROUNDS_EXCEEDED := "step exceeded its round limit"
  const TOTAL_ROUNDS_EXCEEDED := "step exceeded the total round limit"

  predicate WantsMore(t: Turn) {
    t.Answer? && t.hasToolCalls
  }

  /** The sub-loop from turn `k` on. */
  function StepLoop(turns: nat -> Turn, k: nat, maxRounds: nat): (end: StepEnd)
    requires k <= maxRounds
    ensures k <= end.rounds <= maxRounds
    decreases maxRounds - k
  {
    if k == maxRounds then StepEnd(k, false, STEP_ROUNDS_EXCEEDED)
    else match turns(k)
      case CutShort(m) => StepEnd(k, false, m)
      case Raises(m) => StepEnd(k + 1, false, m)
      case NoResult => StepEnd(k + 1, false, NO_RESULT)
      case Answer(failed, more, c) =>
        if more then StepLoop(turns, k + 1, maxRounds) else StepEnd(k + 1, !failed, c)
  }

  /** The answer that ends the loop successfully, if there is one within the limit. */
  ghost predicate SucceedsAt(turns: nat -> Turn, n: nat) {
    && turns(n).Answer? && !turns(n).hasToolCalls && !turns(n).failed
    && forall j: nat :: j < n ==> WantsMore(turns(j))
  }

  /** A step succeeds exactly when, within the limit, tool-call turns lead to a good final answer. */
  lemma {:induction false} StepLoopSucceeds(turns: nat -> Turn, k: nat, maxRounds: nat)
    requires k <= maxRounds && forall j: nat :: j < k ==> WantsMore(turns(j))
    ensures StepLoop(turns, k, maxRounds).ok <==> exists n: nat :: n < maxRounds && SucceedsAt(turns, n)
    decreases maxRounds - k
  {
    if k < maxRounds && WantsMore(turns(k)) {
      StepLoopSucceeds(turns, k + 1, maxRounds);
    } else if k < maxRounds {
      if StepLoop(turns, k, maxRounds).ok {
        assert SucceedsAt(turns, k);
      }
      forall n: nat | n < maxRounds && SucceedsAt(turns, n)
        ensures n == k
      {
      }
    } else {
      forall n: nat | n < maxRounds
        ensures !SucceedsAt(turns, n)
      {
      }
    }
  }

  /** The first turn that does not call tools ends the step and says how; its round counts unless it was cut
      short before it began. A step whose turns all call tools ends at the limit. */
  lemma {:induction false} FirstOtherTurnEnds(turns: nat -> Turn, k: nat, n: nat, maxRounds: nat)
    requires k <= n <= maxRounds && forall j: nat :: k <= j < n ==> turns(j).Answer? && turns(j).hasToolCalls
    requires n < maxRounds ==> !(turns(n).Answer? && turns(n).hasToolCalls)
    ensures var end := StepLoop(turns, k, maxRounds);
            if n == maxRounds then end.rounds == n && !end.ok
            else
              && end.rounds == (if turns(n).CutShort? then n else n + 1)
              && (end.ok <==> turns(n).Answer? && !turns(n).failed)
              && (turns(n).Answer? ==> end.content == turns(n).content)
              && (turns(n).CutShort? || turns(n).Raises? ==> end.content == turns(n).message)
    decreases n - k
  {
    if k < n {
      FirstOtherTurnEnds(turns, k + 1, n, maxRounds);
    }
  }

  method RunStep(turns: nat -> Turn, maxRounds: nat) returns (end: StepEnd)
    ensures end == StepLoop(turns, 0, maxRounds)
  {
    var k := 0;
    while k < maxRounds
      invariant k <= maxRounds
      invariant StepLoop(turns, 0, maxRounds) == StepLoop(turns, k, maxRounds)
    {
      match turns(k) {
        case CutShort(m) => return StepEnd(k, false, m);
        case Raises(m) => return StepEnd(k + 1, false, m);
        case NoResult => return StepEnd(k + 1, false, NO_RESULT);
        case Answer(failed, more, c) =>
          if !more {
            return StepEnd(k + 1, !failed, c);
          }
      }
      k := k + 1;
    }
    return StepEnd(k, false, STEP_ROUNDS_EXCEEDED);
  }

  // ---------- Round budget ----------

  const MAX_STEP_ROUNDS_RATIO: nat := 4
  const MIN_STEP_ROUNDS: nat := 5

  function Max(a: int, b: int): int { if a >= b then a else b }
  function Min(a: int, b: int): int { if a <= b then a else b }

  function ConfiguredBudget(maxRounds: int): (b: nat)
    ensures b >= MIN_STEP_ROUNDS
  {
    Max(MIN_STEP_ROUNDS, maxRounds / MAX_STEP_ROUNDS_RATIO)
  }

  function SharedBudget(round: int, maxRounds: int): (b: nat)
    ensures b >= MIN_STEP_ROUNDS
  {
    Min(ConfiguredBudget(maxRounds), Max(MIN_STEP_ROUNDS, maxRounds - round))
  }

  /** A step on the shared context: outcome and new total round count. */
  function SharedStep(round: int, maxRounds: int, turns: nat -> Turn): (StepEnd, int) {
    if round >= maxRounds then (StepEnd(0, false, TOTAL_ROUNDS_EXCEEDED), round)
    else
      var end := StepLoop(turns, 0, SharedBudget(round, maxRounds));
      (end, round + end.rounds)
  }

  /** A step on a forked context counts its rounds there, not in the parent. */
  function IsolatedStep(maxRounds: int, turns: nat -> Turn): StepEnd {
    StepLoop(turns, 0, ConfiguredBudget(maxRounds))
  }

  /** One shared step keeps the total within the limit plus four. */
  lemma SharedStepRounds(round: int, maxRounds: int, turns: nat -> Turn)
    requires round <= maxRounds + 4
    ensures round <= SharedStep(round, maxRounds, turns).1 <= maxRounds + 4
  {
  }

  /** The step that keeps calling tools until its budget is spent. */
  lemma {:induction false} AllToolCalls(turns: nat -> Turn, k: nat, maxRounds: nat)
    requires k <= maxRounds && forall j: nat :: WantsMore(turns(j))
    ensures StepLoop(turns, k, maxRounds).rounds == maxRounds
    decreases maxRounds - k
  {
    if k < maxRounds {
      assert WantsMore(turns(k));
      AllToolCalls(turns, k + 1, maxRounds);
    }
  }

  /** What the budgets promise: a step may use five rounds, and more of them as long as they are at most a
      quarter of the configured total and, on the shared context, as many are left. */
  lemma BusyStepUses(round: int, maxRounds: int, turns: nat -> Turn, b: nat)
    requires forall j: nat :: WantsMore(turns(j))
    ensures IsolatedStep(maxRounds, turns).rounds >= b <==> b <= 5 || 4 * b <= maxRounds
    ensures round < maxRounds ==>
              (SharedStep(round, maxRounds, turns).1 - round >= b <==> b <= 5 || (4 * b <= maxRounds && b <= maxRounds - round))
    ensures round >= maxRounds ==> SharedStep(round, maxRounds, turns).1 == round && !SharedStep(round, maxRounds, turns).0.ok
  {
    AllToolCalls(turns, 0, ConfiguredBudget(maxRounds));
    AllToolCalls(turns, 0, SharedBudget(round, maxRounds));
  }

  /** The configured total is respected by every behaviour of a step exactly when either it is
      used up already or at least five rounds are left. */
  lemma TotalLimitRespected(round: int, maxRounds: int)
    requires round <= maxRounds
    ensures (forall turns: nat -> Turn :: SharedStep(round, maxRounds, turns).1 <= maxRounds)
            <==> (round == maxRounds || maxRounds - round >= MIN_STEP_ROUNDS)
  {
    var busy: nat -> Turn := n => Answer(false, true, "");
    AllToolCalls(busy, 0, SharedBudget(round, maxRounds));
    if round < maxRounds && maxRounds - round < MIN_STEP_ROUNDS {
      assert SharedStep(round, maxRounds, busy).1 > maxRounds;
    }
  }

  /** The bound of `SharedStepRounds` is reached: one round before the limit a step may overrun it by four. */
  lemma TotalLimitOverrun(round: int, maxRounds: int)
    requires round == maxRounds - 1
    ensures exists turns: nat -> Turn :: SharedStep(round, maxRounds, turns).1 == maxRounds + 4
  {
    var busy: nat -> Turn := n => Answer(false, true, "");
    AllToolCalls(busy, 0, SharedBudget(round, maxRounds));
    assert SharedStep(round, maxRounds, busy).1 == maxRounds + 4;
  }
}
