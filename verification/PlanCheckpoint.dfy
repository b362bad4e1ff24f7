/** Plan checkpoints: serialization (planning/checkpointing.py) and resuming a run from one
(planning/por_runner.py). */
module PlanCheckpoint {
  import opened Wrappers
  import opened Planner
  import opened Scheduler
  import opened Replanner
  import opened PorMachine
  import opened PorRuns

  datatype Json =
    | JNull
    | JBool(b: bool)
    | JInt(n: int)
    | JReal(r: real)
    | JStr(s: string)
    | JArr(items: seq<Json>)
    | JObj(fields: map<string, Json>)

  datatype PlanValue = PlanValue(goal: string, steps: seq<PlanStep>, replanCount: int)

  // ---------- Writing ----------

  function StatusText(s: StepStatus): string {
    match s
    case Pending => "pending"
    case Running => "running"
    case Done => "done"
    case Failed => "failed"
    case Skipped => "skipped"
  }

  function IntsToJson(xs: seq<int>): seq<Json> {
    seq(|xs|, i requires 0 <= i < |xs| => JInt(xs[i]))
  }

  function StringsToJson(xs: seq<string>): seq<Json> {
    seq(|xs|, i requires 0 <= i < |xs| => JStr(xs[i]))
  }

  function StepToJson(s: PlanStep): (j: Json)
    ensures j.JObj?
  {
    JObj(map[
      "step_id" := JInt(s.stepId),
      "description" := JStr(s.description),
      "depends_on" := JArr(IntsToJson(s.dependsOn)),
      "tools_needed" := JArr(StringsToJson(s.toolsNeeded)),
      "status" := JStr(StatusText(s.status)),
      "result" := JStr(s.result),
      "error" := JStr(s.error)])
  }

  function StepsToJson(steps: seq<PlanStep>): (items: seq<Json>)
    ensures |items| == |steps|
  {
    seq(|steps|, i requires 0 <= i < |steps| => StepToJson(steps[i]))
  }

  function PlanToState(p: PlanValue, currentStepId: Option<int>, phase: string): map<string, Json> {
    var plan := map["goal" := JStr(p.goal), "replan_count" := JInt(p.replanCount), "steps" := JArr(StepsToJson(p.steps))];
    map[
      "kind" := JStr("por"),
      "phase" := JStr(phase),
      "cursor" := JObj(map["current_step_id" := if currentStepId.Some? then JInt(currentStepId.value) else JNull]),
      "payload" := JObj(map["plan" := JObj(plan)]),
      "metadata" := JObj(map[])]
  }

  // ---------- Reading ----------

  /** `NoPlan`: there is no plan object. `Foreign`: some field holds a value of a type that is never
      written; the code would raise or turn it into text. */
  datatype Restored<+T> = NoPlan | Foreign | Restored(value: T)

  function GetOr(fields: map<string, Json>, key: string, default: Json): Json {
    if key in fields then fields[key] else default
  }

  predicate IsSpace(c: char) {
    c in " \t\n\r" || c as int in {11, 12, 28, 29, 30, 31}
  }

  predicate IsDigit(c: char) {
    '0' <= c <= '9'
  }

  /** Decimal digits, with single underscores between them allowed. */
  function ReadDigits(s: string): Option<int> {
    if s == "" || !IsDigit(s[|s| - 1]) then None
    else
      var digit, rest := s[|s| - 1] as int - '0' as int, s[..|s| - 1];
      if rest == "" then Some(digit)
      else match ReadDigits(if rest[|rest| - 1] == '_' then rest[..|rest| - 1] else rest)
        case None => None
        case Some(n) => Some(10 * n + digit)
  }

  function Trim(s: string): string {
    if s == "" then ""
    else if IsSpace(s[0]) then Trim(s[1..])
    else if IsSpace(s[|s| - 1]) then Trim(s[..|s| - 1])
    else s
  }

  /** What `int` makes of a text: surrounding space, a sign, digits. */
  function ReadInt(text: string): Option<int> {
    var s := Trim(text);
    if s != "" && s[0] == '-' then
      match ReadDigits(s[1..])
      case None => None
      case Some(n) => Some(-n)
    else
      match ReadDigits(if s != "" && s[0] == '+' then s[1..] else s)
      case None => None
      case Some(n) => Some(n)
  }

  /** What `int` makes of a value, `None` where it raises. Fractions are cut off towards zero. */
  function AsInt(j: Json): Option<int> {
    match j
    case JBool(b) => Some(if b then 1 else 0)
    case JInt(n) => Some(n)
    case JReal(x) => Some(if x >= 0.0 then x.Floor else -(-x).Floor)
    case JStr(s) => ReadInt(s)
    case _ => None
  }

  /** An unknown status text reads as PENDING. */
  function ParseStatus(j: Json): StepStatus {
    if j == JStr("running") then Running
    else if j == JStr("done") then Done
    else if j == JStr("failed") then Failed
    else if j == JStr("skipped") then Skipped
    else Pending
  }

  /** `list(value or [])` of integers. */
  function ParseInts(j: Json): Restored<seq<int>> {
    match j
    case JNull => Restored([])
    case JArr(items) =>
      if forall x :: x in items ==> x.JInt?
      then Restored(seq(|items|, i requires 0 <= i < |items| => if items[i].JInt? then items[i].n else 0))
      else Foreign
    case _ => Foreign
  }

  function ParseStrings(j: Json): Restored<seq<string>> {
    match j
    case JNull => Restored([])
    case JArr(items) =>
      if forall x :: x in items ==> x.JStr?
      then Restored(seq(|items|, i requires 0 <= i < |items| => if items[i].JStr? then items[i].s else ""))
      else Foreign
    case _ => Foreign
  }

  function ParseStep(f: map<string, Json>): Restored<PlanStep> {
    var id := AsInt(GetOr(f, "step_id", JInt(0)));
    var description := GetOr(f, "description", JStr(""));
    var deps := ParseInts(GetOr(f, "depends_on", JNull));
    var tools := ParseStrings(GetOr(f, "tools_needed", JNull));
    var status := ParseStatus(GetOr(f, "status", JStr("pending")));
    var result := GetOr(f, "result", JStr(""));
    var error := GetOr(f, "error", JStr(""));
    if id.Some? && description.JStr? && deps.Restored? && tools.Restored? && result.JStr? && error.JStr?
    then Restored(PlanStep(id.value, description.s, deps.value, tools.value, status, result.s, error.s))
    else Foreign
  }

  /** The steps of the first `n` items; items that are not objects are passed over. */
  function ParseSteps(items: seq<Json>, n: nat): Restored<seq<PlanStep>>
    requires n <= |items|
  {
    if n == 0 then Restored([])
    else
      var before := ParseSteps(items, n - 1);
      if before.Foreign? || !items[n - 1].JObj? then before
      else
        var step := ParseStep(items[n - 1].fields);
        if before.Restored? && step.Restored? then Restored(before.value + [step.value]) else Foreign
  }

  function ParsePlan(raw: map<string, Json>): Restored<PlanValue> {
    var items := GetOr(raw, "steps", JArr([]));
    var goal := GetOr(raw, "goal", JStr(""));
    var count := AsInt(GetOr(raw, "replan_count", JInt(0)));
    if items.JArr? && goal.JStr? && count.Some? then
      var steps := ParseSteps(items.items, |items.items|);
      if steps.Restored? then Restored(PlanValue(goal.s, steps.value, count.value)) else Foreign
    else Foreign
  }

  function PlanFromState(state: map<string, Json>): Restored<PlanValue> {
    var payload := GetOr(state, "payload", JNull);
    if !payload.JObj? then NoPlan
    else
      var raw := GetOr(payload.fields, "plan", JNull);
      if raw.JObj? then ParsePlan(raw.fields) else NoPlan
  }

  /** The reading loop of the code. */
  method ReadSteps(items: seq<Json>) returns (steps: Restored<seq<PlanStep>>)
    ensures steps == ParseSteps(items, |items|)
  {
    steps := Restored([]);
    for n := 0 to |items|
      invariant steps == ParseSteps(items, n)
    {
      if items[n].JObj? {
        var step := ParseStep(items[n].fields);
        steps := if steps.Restored? && step.Restored? then Restored(steps.value + [step.value]) else Foreign;
      }
    }
  }

  // ---------- Round trip ----------

  lemma StepRoundTrip(s: PlanStep)
    ensures ParseStep(StepToJson(s).fields) == Restored(s)
  {
    hide ReadInt;
    var f := StepToJson(s).fields;
    assert ParseInts(f["depends_on"]) == Restored(s.dependsOn) by {
      var items := IntsToJson(s.dependsOn);
      assert seq(|items|, i requires 0 <= i < |items| => if items[i].JInt? then items[i].n else 0) == s.dependsOn;
    }
    assert ParseStrings(f["tools_needed"]) == Restored(s.toolsNeeded) by {
      var items := StringsToJson(s.toolsNeeded);
      assert seq(|items|, i requires 0 <= i < |items| => if items[i].JStr? then items[i].s else "") == s.toolsNeeded;
    }
    assert ParseStatus(f["status"]) == s.status;
  }

  lemma {:induction false} StepsRoundTrip(steps: seq<PlanStep>, n: nat)
    requires n <= |steps|
    ensures ParseSteps(StepsToJson(steps), n) == Restored(steps[..n])
  {
    hide StepToJson, ParseStep;
    if n > 0 {
      StepsRoundTrip(steps, n - 1);
      StepRoundTrip(steps[n - 1]);
      assert steps[..n] == steps[..n - 1] + [steps[n - 1]];
    }
  }

  /** Reading back a written plan gives the plan, whatever cursor and phase were stored with it. */
  lemma PlanRoundTrip(p: PlanValue, currentStepId: Option<int>, phase: string)
    ensures PlanFromState(PlanToState(p, currentStepId, phase)) == Restored(p)
  {
    hide ParseSteps, StepsToJson, ReadInt;
    var state := PlanToState(p, currentStepId, phase);
    var raw := state["payload"].fields["plan"].fields;
    assert raw["steps"] == JArr(StepsToJson(p.steps));
    StepsRoundTrip(p.steps, |p.steps|);
    assert p.steps[..|p.steps|] == p.steps;
  }

  /** What is read where a field of a step is missing: identifier 0, empty texts and lists, and PENDING. */
  lemma MissingFieldsHaveDefaults(s: PlanStep, kept: set<string>)
    ensures var f := StepToJson(s).fields;
            ParseStep(map k | k in f && k in kept :: f[k]) == Restored(PlanStep(
              if "step_id" in kept then s.stepId else 0,
              if "description" in kept then s.description else "",
              if "depends_on" in kept then s.dependsOn else [],
              if "tools_needed" in kept then s.toolsNeeded else [],
              if "status" in kept then s.status else Pending,
              if "result" in kept then s.result else "",
              if "error" in kept then s.error else ""))
  {
    hide ReadInt, ParseInts, ParseStrings, ParseStatus, IntsToJson, StringsToJson, StatusText;
    StepRoundTrip(s);
    NothingReads();
  }

  lemma NothingReads()
    ensures ParseInts(JNull) == Restored([]) && ParseStrings(JNull) == Restored([])
    ensures ParseStatus(JStr("pending")) == Pending
  {
  }

  /** Each status is read from its own text, and everything else reads as PENDING. */
  lemma StatusIsReadExactly(j: Json, status: StepStatus)
    requires !status.Pending?
    ensures ParseStatus(j) == status <==> j == JStr(StatusText(status))
    ensures StatusText(status) != StatusText(Pending)
  {
  }

  /** There is no plan exactly when the payload or the plan in it is missing or not an object. */
  lemma NoPlanExactly(state: map<string, Json>)
    ensures PlanFromState(state).NoPlan? <==>
              !("payload" in state && state["payload"].JObj? &&
                "plan" in state["payload"].fields && state["payload"].fields["plan"].JObj?)
  {
    hide ParsePlan;
    if "payload" in state && state["payload"].JObj? && "plan" in state["payload"].fields && state["payload"].fields["plan"].JObj? {
      PlanOrForeign(state["payload"].fields["plan"].fields);
    }
  }

  lemma PlanOrForeign(raw: map<string, Json>)
    ensures !ParsePlan(raw).NoPlan?
  {
    hide ReadInt;
  }

  // ---------- Resuming ----------

  /** The cursor the resume code reads: the top-level key, as an integer if it can be read as one. */
  function ResumeCursor(state: map<string, Json>): Option<int> {
    AsInt(GetOr(state, "current_step_id", JNull))
  }

  /** The decimal text of a number. */
  function Decimal(n: nat): string {
    (if n < 10 then "" else Decimal(n / 10)) + [('0' as int + n % 10) as char]
  }

  lemma {:induction false} DecimalReadsBack(n: nat)
    ensures ReadDigits(Decimal(n)) == Some(n)
    ensures Decimal(n) != "" && forall i :: 0 <= i < |Decimal(n)| ==> IsDigit(Decimal(n)[i])
  {
    var s := Decimal(n);
    if n >= 10 {
      DecimalReadsBack(n / 10);
      assert s[..|s| - 1] == Decimal(n / 10);
      var rest := Decimal(n / 10);
      assert IsDigit(rest[|rest| - 1]);
    } else {
      assert s[..0] == "";
    }
  }

  /** A cursor given as a number or as its decimal text is the same cursor. */
  lemma CursorTextIsRead(n: nat)
    ensures ResumeCursor(map["current_step_id" := JStr(Decimal(n))]) == ResumeCursor(map["current_step_id" := JInt(n)]) == Some(n)
  {
    hide Decimal, ReadDigits;
    DecimalReadsBack(n);
    var s := Decimal(n);
    assert IsDigit(s[0]) && IsDigit(s[|s| - 1]);
    assert Trim(s) == s;
  }

  predicate AllSpace(s: string) {
    forall i :: 0 <= i < |s| ==> 9 <= s[i] as int <= 13 || 28 <= s[i] as int <= 32
  }

  lemma SpaceIsSpace(c: char)
    requires 9 <= c as int <= 13 || 28 <= c as int <= 32
    ensures IsSpace(c)
  {
    assert c as int == 32 ==> c == ' ';
    assert c as int == 9 ==> c == '\t';
    assert c as int == 10 ==> c == '\n';
    assert c as int == 13 ==> c == '\r';
  }

  lemma {:induction false} TrimStrips(left: string, s: string, right: string)
    requires AllSpace(left) && AllSpace(right) && s != "" && !IsSpace(s[0]) && !IsSpace(s[|s| - 1])
    ensures Trim(left + s + right) == s
    decreases |left| + |right|
  {
    hide IsSpace;
    var all := left + s + right;
    if left != "" {
      SpaceIsSpace(left[0]);
      assert all[0] == left[0];
      assert all[1..] == left[1..] + s + right;
      TrimStrips(left[1..], s, right);
    } else if right != "" {
      SpaceIsSpace(right[|right| - 1]);
      assert all[0] == s[0] && all[|all| - 1] == right[|right| - 1];
      assert all[..|all| - 1] == left + s + right[..|right| - 1];
      TrimStrips(left, s, right[..|right| - 1]);
    } else {
      assert all == s;
    }
  }

  /** A decimal text may carry a sign and space around it. */
  lemma SignedTextIsRead(left: string, sign: string, n: nat, right: string)
    requires AllSpace(left) && AllSpace(right) && sign in {"", "+", "-"}
    ensures var read := ReadInt(left + sign + Decimal(n) + right);
            read.Some? && read.value == if sign == "-" then -(n as int) else n as int
  {
    hide Trim, Decimal, ReadDigits;
    var d := Decimal(n);
    DecimalReadsBack(n);
    assert IsDigit(d[0]) && IsDigit(d[|d| - 1]);
    var s := sign + d;
    assert s[|s| - 1] == d[|d| - 1] && s[0] == if sign == "" then d[0] else sign[0];
    assert sign != "" ==> s[1..] == d;
    assert sign == "" ==> s == d;
    TrimStrips(left, s, right);
    assert left + s + right == left + sign + d + right;
  }

  /** Fractions are cut off towards zero, and truth values count as 1 and 0. */
  lemma FractionsAreCut(x: real, b: bool)
    ensures AsInt(JReal(x)).Some? && AsInt(JBool(b)) == Some(if b then 1 else 0)
    ensures var n := AsInt(JReal(x)).value as real;
            if x >= 0.0 then n <= x < n + 1.0 else n - 1.0 < x <= n
  {
  }

  function ResumedStep(step: PlanStep, cursor: Option<int>): PlanStep {
    var once := if step.status.Running? then step.(status := Pending) else step;
    if cursor == Some(once.stepId) && !once.status.Done? then once.(status := Pending) else once
  }

  function ResumedSteps(steps: seq<PlanStep>, cursor: Option<int>): (r: seq<PlanStep>)
    ensures |r| == |steps| && forall i :: 0 <= i < |steps| ==> r[i] == ResumedStep(steps[i], cursor)
  {
    seq(|steps|, i requires 0 <= i < |steps| => ResumedStep(steps[i], cursor))
  }

  method ResumePlan(state: map<string, Json>) returns (plan: Option<Plan>)
    ensures plan.Some? <==> PlanFromState(state).Restored?
    ensures plan.Some? ==> fresh(plan.value)
    ensures plan.Some? ==> plan.value.steps == ResumedSteps(PlanFromState(state).value.steps, ResumeCursor(state))
    ensures plan.Some? ==> plan.value.replanCount == PlanFromState(state).value.replanCount
  {
    var restored := PlanFromState(state);
    if !restored.Restored? {
      return None;
    }
    var p := new Plan(restored.value.goal, restored.value.steps, restored.value.replanCount);
    var cursor := ResumeCursor(state);
    for i := 0 to |p.steps|
      invariant p.replanCount == restored.value.replanCount && |p.steps| == |restored.value.steps|
      invariant forall j :: 0 <= j < i ==> p.steps[j] == ResumedStep(restored.value.steps[j], cursor)
      invariant forall j :: i <= j < |p.steps| ==> p.steps[j] == restored.value.steps[j]
    {
      if p.steps[i].status.Running? {
        p.steps := p.steps[i := p.steps[i].(status := Pending)];
      }
      if cursor == Some(p.steps[i].stepId) && !p.steps[i].status.Done? {
        p.steps := p.steps[i := p.steps[i].(status := Pending)];
      }
    }
    assert p.steps == ResumedSteps(restored.value.steps, cursor);
    return Some(p);
  }

  /** A checkpoint written by the engine stores its cursor where the resume code does not look:
      the resumed plan never depends on it. */
  lemma StoredCursorIsNotRead(p: PlanValue, currentStepId: Option<int>, phase: string)
    ensures ResumeCursor(PlanToState(p, currentStepId, phase)) == None
  {
  }

  /** Exactly when that matters: the current step had FAILED or been SKIPPED, and would have been reopened. */
  lemma CursorMattersExactlyWhenLost(steps: seq<PlanStep>, c: int)
    ensures ResumedSteps(steps, Some(c)) == ResumedSteps(steps, None)
            <==> forall i :: 0 <= i < |steps| && steps[i].stepId == c ==> steps[i].status !in {Failed, Skipped}
  {
  }

  /** A checkpoint written right after its current step failed: the resumed step stays FAILED, where the stored
      cursor would have made it PENDING. */
  lemma MissedCursorLeavesStepFailed()
    ensures var step := PlanStep(1, "work", [], [], Failed, "", "no");
            var state := PlanToState(PlanValue("goal", [step], 0), Some(1), "step_failed");
            && PlanFromState(state).Restored? && PlanFromState(state).value.steps == [step]
            && ResumedSteps([step], ResumeCursor(state))[0].status.Failed?
            && ResumedSteps([step], Some(1))[0].status.Pending?
  {
    PlanRoundTrip(PlanValue("goal", [PlanStep(1, "work", [], [], Failed, "", "no")], 0), Some(1), "step_failed");
  }

  /** Resuming keeps a plan's DONE steps, keeps validity, and leaves it ready for the loop. */
  lemma ResumeIsQuiescent(steps: seq<PlanStep>, cursor: Option<int>)
    requires UniqueIds(steps) && DoneClosed(steps)
    ensures Quiescent(ResumedSteps(steps, cursor))
    ensures DoneIds(ResumedSteps(steps, cursor)) == DoneIds(steps) && DonePreserved(steps, ResumedSteps(steps, cursor))
    ensures ValidSteps(steps) ==> ValidSteps(ResumedSteps(steps, cursor))
  {
    var r := ResumedSteps(steps, cursor);
    assert forall i :: 0 <= i < |steps| && (steps[i].status.Done? || r[i].status.Done?) ==> r[i] == steps[i];
    assert DonePreserved(steps, r) && DonePreserved(r, steps);
    DonePreservedIds(steps, r);
    DonePreservedIds(r, steps);
    forall i | 0 <= i < |r| && r[i].status.Done?
      ensures DependenciesDone(r, r[i])
    {
      assert DependenciesDone(steps, steps[i]);
    }
    if ValidSteps(steps) {
      SameShapesKeepValid(steps, r);
    }
  }

  /** A sound plan is resumed as a sound plan. */
  lemma ResumeKeepsSound(steps: seq<PlanStep>, cursor: Option<int>)
    requires Sound(steps)
    ensures Sound(ResumedSteps(steps, cursor))
  {
    hide ValidSteps;
    var r := ResumedSteps(steps, cursor);
    ResumeIsQuiescent(steps, cursor);
    forall i | 0 <= i < |r| && Settled(r[i])
      ensures DependenciesDone(r, r[i])
    {
      assert r[i] == steps[i] && DependenciesDone(steps, steps[i]);
    }
  }

  /** No run resumed from a plan the loop saved executes a step that the checkpoint has as DONE. */
  lemma ResumedRunSkipsDone(saved: seq<PlanStep>, cursor: Option<int>, s: RunState, maxRounds: int, inputs: Inputs, n: nat, i: nat, j: nat)
    requires Quiescent(saved) && i < |saved| && saved[i].status.Done?
    requires s.steps == ResumedSteps(saved, cursor) && AllQuiescent(s.saved) && FreshUpTo(s, maxRounds, inputs, n)
    requires j in ReadySteps(Nth(s, maxRounds, inputs, n).steps)
    ensures Nth(s, maxRounds, inputs, n).steps[j].stepId != saved[i].stepId
  {
    ResumeIsQuiescent(saved, cursor);
    assert s.steps[i] == saved[i];
    DoneIsNeverReexecuted(s, maxRounds, inputs, 0, n, i, j);
  }
}
