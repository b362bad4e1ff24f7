/** The simulation runner (sidecar/simulation/runner.py) with its default observation builder, selectors and
stop condition (sidecar/simulation/defaults.py). What a policy, the environment and the evaluator make
of the n-th step is an input. */
module Simulation {
  import opened Wrappers
  import opened WorldStates

  datatype Profile = Profile(name: Name, privateFacts: seq<Name>)

  datatype Observation = Observation(agent: Name, visibleState: World, knownFacts: seq<Name>, privateFacts: seq<Name>)

  datatype SimStep = SimStep(stepId: nat, actor: Name, observation: Observation, delta: Delta, success: bool)

  /** A step's change and whether it is scored a success, or an exception. */
  datatype Turn = Acts(delta: Delta, success: bool) | Raises

  datatype Selector = RoundRobin | AllActors | Custom(choose: seq<SimStep> -> seq<Name>)

  datatype Setup = Setup(
    maxSteps: int, profiles: seq<Profile>, policies: seq<Name>, selector: Selector, turns: nat -> Turn)

  datatype Ending = NoActors | NoneSelected | ReachedMaxSteps | StepFailed

  datatype Sim =
    | Running(world: World, timeline: seq<SimStep>)
    | Ended(world: World, timeline: seq<SimStep>, ending: Ending)

  datatype Report = Report(finalState: World, timeline: seq<SimStep>, ending: Ending, success: bool, finalWorldStep: int)

  /** The scenario's agents, or the actors that have a policy when it names none. */
  function Actors(s: Setup): seq<Name> {
    if s.profiles != [] then seq(|s.profiles|, i requires 0 <= i < |s.profiles| => s.profiles[i].name) else s.policies
  }

  function PrivateFacts(profiles: seq<Profile>, actor: Name): seq<Name> {
    if profiles == [] then []
    else if profiles[0].name == actor then profiles[0].privateFacts
    else PrivateFacts(profiles[1..], actor)
  }

  function Observe(s: Setup, w: World, actor: Name): Observation {
    Observation(actor, w, w.facts, PrivateFacts(s.profiles, actor))
  }

  function Select(s: Setup, timeline: seq<SimStep>): seq<Name> {
    var actors := Actors(s);
    match s.selector
    case RoundRobin => if actors == [] then [] else [actors[|timeline| % |actors|]]
    case AllActors => actors
    case Custom(choose) => choose(timeline)
  }

  predicate ShouldStop(s: Setup, timeline: seq<SimStep>) {
    |timeline| >= s.maxSteps
  }

  /** The selected actors take their turns. Those without a policy are passed over. */
  function TakeTurns(s: Setup, w: World, timeline: seq<SimStep>, selected: seq<Name>): Sim
    decreases |selected|
  {
    if selected == [] then Running(w, timeline)
    else if selected[0] !in s.policies then TakeTurns(s, w, timeline, selected[1..])
    else match s.turns(|timeline|)
      case Raises => Ended(w, timeline, StepFailed)
      case Acts(delta, success) =>
        var next := timeline + [SimStep(|timeline| + 1, selected[0], Observe(s, w, selected[0]), delta, success)];
        if ShouldStop(s, next) then Ended(Applied(w, delta), next, ReachedMaxSteps)
        else TakeTurns(s, Applied(w, delta), next, selected[1..])
  }

  /** One pass of the runner's loop. */
  function Tick(s: Setup, w: World, timeline: seq<SimStep>): Sim {
    if ShouldStop(s, timeline) then Ended(w, timeline, ReachedMaxSteps)
    else if Select(s, timeline) == [] then Ended(w, timeline, NoneSelected)
    else TakeTurns(s, w, timeline, Select(s, timeline))
  }

  function Ticks(s: Setup, initial: World, n: nat): Sim {
    if n == 0 then if Actors(s) == [] then Ended(initial, [], NoActors) else Running(initial, [])
    else match Ticks(s, initial, n - 1)
      case Running(w, timeline) => Tick(s, w, timeline)
      case Ended(w, timeline, ending) => Ended(w, timeline, ending)
  }

  ghost predicate Halts(s: Setup, initial: World) {
    exists n: nat :: Ticks(s, initial, n).Ended?
  }

  /** However far one looks, an ended run stays as it ended: its outcome is unique. */
  lemma {:induction false} EndedStays(s: Setup, initial: World, m: nat, n: nat)
    requires m <= n && Ticks(s, initial, m).Ended?
    ensures Ticks(s, initial, n) == Ticks(s, initial, m)
  {
    if m < n {
      EndedStays(s, initial, m, n - 1);
    }
  }

  // Replay

  function Replay(initial: World, timeline: seq<SimStep>): World {
    if timeline == [] then initial else Applied(Replay(initial, timeline[..|timeline| - 1]), timeline[|timeline| - 1].delta)
  }

  /** Step k is numbered k + 1 and was taken by an actor with a policy who saw the world that the first k
      changes make; it records what came of the turn. */
  ghost predicate StepFits(s: Setup, initial: World, timeline: seq<SimStep>, k: nat)
    requires k < |timeline|
  {
    && timeline[k].stepId == k + 1
    && timeline[k].actor in s.policies
    && timeline[k].observation == Observe(s, Replay(initial, timeline[..k]), timeline[k].actor)
    && s.turns(k) == Acts(timeline[k].delta, timeline[k].success)
  }

  ghost predicate Replayable(s: Setup, initial: World, w: World, timeline: seq<SimStep>) {
    && w == Replay(initial, timeline)
    && w.step == initial.step + |timeline|
    && |timeline| <= (if s.maxSteps > 0 then s.maxSteps else 0)
    && (forall k :: 0 <= k < |timeline| ==> StepFits(s, initial, timeline, k))
    && (Unique(initial.facts) ==> Unique(w.facts))
  }

  lemma StepKeepsReplayable(s: Setup, initial: World, w: World, timeline: seq<SimStep>, actor: Name, delta: Delta, success: bool)
    requires Replayable(s, initial, w, timeline) && !ShouldStop(s, timeline) && actor in s.policies
    requires s.turns(|timeline|) == Acts(delta, success)
    ensures Replayable(s, initial, Applied(w, delta),
              timeline + [SimStep(|timeline| + 1, actor, Observe(s, w, actor), delta, success)])
  {
    hide Observe, Unique;
    var next := timeline + [SimStep(|timeline| + 1, actor, Observe(s, w, actor), delta, success)];
    assert next[..|timeline|] == timeline;
    forall k | 0 <= k < |next|
      ensures StepFits(s, initial, next, k)
    {
      if k < |timeline| {
        assert StepFits(s, initial, timeline, k);
        assert next[..k] == timeline[..k];
      }
    }
    if Unique(initial.facts) {
      FactsAfter(w, delta);
    }
  }

  lemma {:induction false} TurnsKeepReplayable(s: Setup, initial: World, w: World, timeline: seq<SimStep>, selected: seq<Name>)
    requires Replayable(s, initial, w, timeline) && !ShouldStop(s, timeline)
    ensures var after := TakeTurns(s, w, timeline, selected);
            && Replayable(s, initial, after.world, after.timeline) && timeline <= after.timeline
            && (after.Running? ==> !ShouldStop(s, after.timeline))
            && (after.Ended? && after.ending.ReachedMaxSteps? ==> |after.timeline| == s.maxSteps)
    decreases |selected|
  {
    hide Replayable, Observe, Applied;
    if selected != [] {
      if selected[0] !in s.policies {
        TurnsKeepReplayable(s, initial, w, timeline, selected[1..]);
      } else {
        match s.turns(|timeline|)
        case Raises =>
        case Acts(delta, success) =>
          StepKeepsReplayable(s, initial, w, timeline, selected[0], delta, success);
          var next := timeline + [SimStep(|timeline| + 1, selected[0], Observe(s, w, selected[0]), delta, success)];
          if !ShouldStop(s, next) {
            TurnsKeepReplayable(s, initial, Applied(w, delta), next, selected[1..]);
          }
      }
    }
  }

  /** At every point of every run, replaying the timeline over the initial world gives the world, and every
      recorded step fits. A run that stops at the step limit has exactly that many steps. */
  lemma {:induction false} RunsAreReplayable(s: Setup, initial: World, n: nat)
    ensures var sim := Ticks(s, initial, n);
            && Replayable(s, initial, sim.world, sim.timeline)
            && (sim.Ended? && sim.ending.ReachedMaxSteps? ==> |sim.timeline| == if s.maxSteps > 0 then s.maxSteps else 0)
  {
    hide Select;
    if n > 0 {
      RunsAreReplayable(s, initial, n - 1);
      var before := Ticks(s, initial, n - 1);
      if before.Running? && !ShouldStop(s, before.timeline) {
        TurnsKeepReplayable(s, initial, before.world, before.timeline, Select(s, before.timeline));
      }
    }
  }

  // What the actors see, and whose turn it is

  lemma {:induction false} FirstProfileCounts(profiles: seq<Profile>, actor: Name)
    ensures var facts := PrivateFacts(profiles, actor);
            || ((forall i :: 0 <= i < |profiles| ==> profiles[i].name != actor) && facts == [])
            || exists i :: && 0 <= i < |profiles| && profiles[i].name == actor && facts == profiles[i].privateFacts
                           && forall j :: 0 <= j < i ==> profiles[j].name != actor
  {
    if profiles != [] && profiles[0].name != actor {
      var rest := profiles[1..];
      FirstProfileCounts(rest, actor);
      if i :| && 0 <= i < |rest| && rest[i].name == actor && PrivateFacts(rest, actor) == rest[i].privateFacts
              && forall j :: 0 <= j < i ==> rest[j].name != actor {
        assert profiles[i + 1] == rest[i];
        forall j | 0 <= j < i + 1
          ensures profiles[j].name != actor
        {
          assert j > 0 ==> profiles[j] == rest[j - 1];
        }
      } else {
        forall i | 0 <= i < |profiles|
          ensures profiles[i].name != actor
        {
          assert i > 0 ==> profiles[i] == rest[i - 1];
        }
      }
    }
  }

  /** Every actor saw the world as the changes before its step made it, its facts, and the private facts of the
      first profile that bears its name. */
  lemma ActorsSeeTheWorld(s: Setup, initial: World, n: nat, k: nat)
    requires k < |Ticks(s, initial, n).timeline|
    ensures var timeline := Ticks(s, initial, n).timeline;
            var o := timeline[k].observation;
            && o.agent == timeline[k].actor && o.visibleState == Replay(initial, timeline[..k])
            && o.knownFacts == o.visibleState.facts
            && (o.privateFacts == [] || exists i :: && 0 <= i < |s.profiles| && s.profiles[i].name == o.agent
                                                    && o.privateFacts == s.profiles[i].privateFacts)
            && forall i :: (0 <= i < |s.profiles| && s.profiles[i].name == o.agent &&
                            forall j :: 0 <= j < i ==> s.profiles[j].name != o.agent) ==>
                 o.privateFacts == s.profiles[i].privateFacts
  {
    RunsAreReplayable(s, initial, n);
    assert StepFits(s, initial, Ticks(s, initial, n).timeline, k);
    FirstProfileCounts(s.profiles, Ticks(s, initial, n).timeline[k].actor);
  }

  /** The actors of a selection who have a policy. */
  function Acting(s: Setup, selected: seq<Name>): seq<Name> {
    if selected == [] then []
    else (if selected[0] in s.policies then [selected[0]] else []) + Acting(s, selected[1..])
  }

  /** From `start` on the steps are taken by these actors, one after the other. */
  ghost predicate TakenBy(timeline: seq<SimStep>, start: nat, names: seq<Name>) {
    |timeline| <= start + |names| && forall k :: start <= k < |timeline| ==> timeline[k].actor == names[k - start]
  }

  lemma {:induction false} TurnsInOrder(s: Setup, w: World, timeline: seq<SimStep>, selected: seq<Name>)
    ensures var after := TakeTurns(s, w, timeline, selected);
            && timeline <= after.timeline && TakenBy(after.timeline, |timeline|, Acting(s, selected))
            && (after.Running? ==> |after.timeline| == |timeline| + |Acting(s, selected)|)
    decreases |selected|
  {
    hide Observe, Applied;
    if selected != [] {
      if selected[0] !in s.policies {
        TurnsInOrder(s, w, timeline, selected[1..]);
      } else if s.turns(|timeline|).Acts? {
        var turn := s.turns(|timeline|);
        var next := timeline + [SimStep(|timeline| + 1, selected[0], Observe(s, w, selected[0]), turn.delta, turn.success)];
        TurnsInOrder(s, Applied(w, turn.delta), next, selected[1..]);
      }
    }
  }

  /** Whose turn it is at step `k` when these actors take turns. */
  function OnTurn(names: seq<Name>, k: nat): Name
    requires names != []
  {
    names[k % |names|]
  }

  ghost predicate GoesRound(timeline: seq<SimStep>, names: seq<Name>) {
    forall k :: 0 <= k < |timeline| ==> names != [] && timeline[k].actor == OnTurn(names, k)
  }

  lemma RoundRobinTick(s: Setup, w: World, timeline: seq<SimStep>)
    requires s.selector.RoundRobin?
    ensures var after := Tick(s, w, timeline).timeline;
            after == timeline ||
            (timeline <= after && |after| == |timeline| + 1 && Actors(s) != [] && after[|timeline|].actor == OnTurn(Actors(s), |timeline|))
  {
    hide Actors, TakeTurns;
    if Actors(s) != [] {
      var actor := OnTurn(Actors(s), |timeline|);
      TurnsInOrder(s, w, timeline, [actor]);
      assert [actor][1..] == [] && Acting(s, []) == [];
      assert Acting(s, [actor]) == if actor in s.policies then [actor] else [];
    }
  }

  /** Under round robin the scenario's actors take turns. */
  lemma {:induction false} RoundRobinGoesRound(s: Setup, initial: World, n: nat)
    requires s.selector.RoundRobin?
    ensures GoesRound(Ticks(s, initial, n).timeline, Actors(s))
  {
    hide Actors, Tick, OnTurn;
    if n > 0 {
      RoundRobinGoesRound(s, initial, n - 1);
      var before := Ticks(s, initial, n - 1);
      if before.Running? {
        RoundRobinTick(s, before.world, before.timeline);
      }
    }
  }

  lemma Within(m: nat, t: nat, q: nat)
    requires q < m
    ensures (m * t + q) % m == q
  {
    var x := m * t + q;
    var d := x / m;
    assert x == m * d + x % m;
    assert m * (t - d) == m * t - m * d;
    if t > d {
      AtLeastOnce(m, t - d);
    } else if t < d {
      assert m * (d - t) == m * d - m * t;
      AtLeastOnce(m, d - t);
    }
  }

  lemma AtLeastOnce(m: nat, k: nat)
    requires k > 0
    ensures m * k >= m
  {
  }

  lemma GoesOnRound(timeline: seq<SimStep>, after: seq<SimStep>, names: seq<Name>, n: nat)
    requires GoesRound(timeline, names) && |timeline| == |names| * n
    requires timeline <= after && TakenBy(after, |timeline|, names)
    ensures GoesRound(after, names)
  {
    forall k | |timeline| <= k < |after|
      ensures names != [] && after[k].actor == OnTurn(names, k)
    {
      Within(|names|, n, k - |timeline|);
    }
  }

  /** With all actors selected, those with a policy take turns in the scenario's order. */
  lemma {:induction false} AllActorsGoRound(s: Setup, initial: World, n: nat)
    requires s.selector.AllActors?
    ensures var sim, names := Ticks(s, initial, n), Acting(s, Actors(s));
            GoesRound(sim.timeline, names) && (sim.Running? ==> |sim.timeline| == |names| * n)
  {
    hide Actors, TakeTurns, Acting, GoesRound, TakenBy;
    if n == 0 {
      NobodyYet(Acting(s, Actors(s)));
    } else {
      AllActorsGoRound(s, initial, n - 1);
      var before, names := Ticks(s, initial, n - 1), Acting(s, Actors(s));
      if before.Running? {
        TurnsInOrder(s, before.world, before.timeline, Actors(s));
        GoesOnRound(before.timeline, TakeTurns(s, before.world, before.timeline, Actors(s)).timeline, names, n - 1);
        assert |names| * n == |names| * (n - 1) + |names|;
      }
    }
  }

  lemma NobodyYet(names: seq<Name>)
    ensures GoesRound([], names)
  {
  }

  /** The actors are the scenario's profiles in order, or whoever has a policy when it names none. */
  lemma ActorsByProfile(s: Setup)
    ensures s.profiles == [] ==> Actors(s) == s.policies
    ensures s.profiles != [] ==> |Actors(s)| == |s.profiles| && forall i :: 0 <= i < |s.profiles| ==> Actors(s)[i] == s.profiles[i].name
  {
  }

  lemma {:induction false} TurnsEndBy(s: Setup, w: World, timeline: seq<SimStep>, selected: seq<Name>)
    ensures var after := TakeTurns(s, w, timeline, selected);
            after.Ended? ==> if after.ending.StepFailed? then s.turns(|after.timeline|).Raises?
                             else after.ending.ReachedMaxSteps? && |after.timeline| >= s.maxSteps
    decreases |selected|
  {
    hide Observe, Applied;
    if selected != [] {
      if selected[0] !in s.policies {
        TurnsEndBy(s, w, timeline, selected[1..]);
      } else if s.turns(|timeline|).Acts? {
        var turn := s.turns(|timeline|);
        var next := timeline + [SimStep(|timeline| + 1, selected[0], Observe(s, w, selected[0]), turn.delta, turn.success)];
        TurnsEndBy(s, Applied(w, turn.delta), next, selected[1..]);
      }
    }
  }

  /** Why a run ended: nobody could act, nobody was selected, enough steps were taken, or a turn raised. */
  lemma {:induction false} EndingsAreEarned(s: Setup, initial: World, n: nat)
    ensures var sim := Ticks(s, initial, n);
            && (sim.Ended? ==>
                  match sim.ending
                  case NoActors => s.profiles == [] && s.policies == []
                  case NoneSelected => Select(s, sim.timeline) == [] && |sim.timeline| < s.maxSteps
                  case ReachedMaxSteps => |sim.timeline| >= s.maxSteps
                  case StepFailed => s.turns(|sim.timeline|).Raises?)
            && (sim.Running? ==> s.profiles != [] || s.policies != [])
  {
    hide Select, TakeTurns;
    if n > 0 {
      EndingsAreEarned(s, initial, n - 1);
      var before := Ticks(s, initial, n - 1);
      if before.Running? {
        TurnsEndBy(s, before.world, before.timeline, Select(s, before.timeline));
      }
    }
  }

  // Which runs end

  /** After `k` ticks the run goes on, is not to stop, and selects actors of whom none has a policy. */
  ghost predicate Starved(s: Setup, initial: World, k: nat) {
    var sim := Ticks(s, initial, k);
    && sim.Running? && !ShouldStop(s, sim.timeline)
    && Select(s, sim.timeline) != [] && !SomeoneActs(s, Select(s, sim.timeline))
  }

  predicate SomeoneActs(s: Setup, selected: seq<Name>) {
    selected != [] && (selected[0] in s.policies || SomeoneActs(s, selected[1..]))
  }

  lemma {:induction false} TurnsMoveOn(s: Setup, w: World, timeline: seq<SimStep>, selected: seq<Name>)
    ensures var after := TakeTurns(s, w, timeline, selected);
            && (!SomeoneActs(s, selected) ==> after == Running(w, timeline))
            && (after.Running? ==> |after.timeline| >= |timeline| + if SomeoneActs(s, selected) then 1 else 0)
    decreases |selected|
  {
    hide Observe, Applied;
    if selected != [] {
      if selected[0] !in s.policies {
        TurnsMoveOn(s, w, timeline, selected[1..]);
      } else if s.turns(|timeline|).Acts? {
        var turn := s.turns(|timeline|);
        var next := timeline + [SimStep(|timeline| + 1, selected[0], Observe(s, w, selected[0]), turn.delta, turn.success)];
        TurnsMoveOn(s, Applied(w, turn.delta), next, selected[1..]);
      }
    }
  }

  /** A starved run stays as it is for ever. */
  lemma {:induction false} StarvedStays(s: Setup, initial: World, k: nat, n: nat)
    requires Starved(s, initial, k) && k <= n
    ensures Ticks(s, initial, n) == Ticks(s, initial, k)
  {
    hide Select, SomeoneActs, TakeTurns;
    if k < n {
      StarvedStays(s, initial, k, n - 1);
      var sim := Ticks(s, initial, k);
      TurnsMoveOn(s, sim.world, sim.timeline, Select(s, sim.timeline));
    }
  }

  /** A run that is never starved takes a step in every tick. */
  lemma {:induction false} FedTakesSteps(s: Setup, initial: World, n: nat)
    requires forall k: nat :: !Starved(s, initial, k)
    ensures Ticks(s, initial, n).Running? ==> |Ticks(s, initial, n).timeline| >= n
  {
    hide Select, SomeoneActs, TakeTurns;
    if n > 0 && Ticks(s, initial, n - 1).Running? {
      FedTakesSteps(s, initial, n - 1);
      var sim := Ticks(s, initial, n - 1);
      assert !Starved(s, initial, n - 1);
      TurnsMoveOn(s, sim.world, sim.timeline, Select(s, sim.timeline));
    }
  }

  /** For every selector a run ends exactly when it is never starved. */
  lemma EndsExactlyUnlessStarved(s: Setup, initial: World)
    ensures Halts(s, initial) <==> !exists k: nat :: Starved(s, initial, k)
  {
    hide Ticks, Select, SomeoneActs;
    if k: nat :| Starved(s, initial, k) {
      StarvedRuns(s, initial, k);
      forall n: nat
        ensures !Ticks(s, initial, n).Ended?
      {
        if n <= k {
          if Ticks(s, initial, n).Ended? {
            EndedStays(s, initial, n, k);
          }
        } else {
          StarvedStays(s, initial, k, n);
        }
      }
    } else {
      var n := if s.maxSteps > 0 then s.maxSteps + 1 else 1;
      FedTakesSteps(s, initial, n);
      RunsAreReplayable(s, initial, n);
      assert Ticks(s, initial, n).Ended?;
    }
  }

  lemma StarvedRuns(s: Setup, initial: World, k: nat)
    requires Starved(s, initial, k)
    ensures Ticks(s, initial, k).Running?
  {
  }

  /** If every selection is empty or has an actor with a policy, every run ends. */
  lemma ActingSelectionsEnd(s: Setup, initial: World)
    requires forall timeline :: Select(s, timeline) == [] || SomeoneActs(s, Select(s, timeline))
    ensures Halts(s, initial)
  {
    EndsExactlyUnlessStarved(s, initial);
  }

  /** A turn at which round robin selects an actor without a policy, after steps that all went well. */
  ghost predicate StarvesAt(s: Setup, t: nat)
    requires Actors(s) != []
  {
    && t < s.maxSteps
    && Actors(s)[t % |Actors(s)|] !in s.policies
    && forall u :: 0 <= u < t ==> Actors(s)[u % |Actors(s)|] in s.policies && s.turns(u).Acts?
  }

  lemma OneTurn(s: Setup, w: World, timeline: seq<SimStep>)
    requires s.selector.RoundRobin? && Actors(s) != [] && !ShouldStop(s, timeline)
    ensures var actor := Actors(s)[|timeline| % |Actors(s)|];
            var after := Tick(s, w, timeline);
            if actor !in s.policies then after == Running(w, timeline)
            else if s.turns(|timeline|).Raises? then after.Ended?
            else |after.timeline| == |timeline| + 1 && (after.Running? <==> |timeline| + 1 < s.maxSteps)
  {
    hide Actors, Observe, Applied;
    var actor := Actors(s)[|timeline| % |Actors(s)|];
    assert Select(s, timeline) == [actor] && [actor][1..] == [];
    assert TakeTurns(s, w, timeline, []) == Running(w, timeline);
    if actor in s.policies && s.turns(|timeline|).Acts? {
      var turn := s.turns(|timeline|);
      var next := timeline + [SimStep(|timeline| + 1, actor, Observe(s, w, actor), turn.delta, turn.success)];
      assert TakeTurns(s, Applied(w, turn.delta), next, []) == Running(Applied(w, turn.delta), next);
    }
  }

  lemma {:induction false} StarvedRunsOn(s: Setup, initial: World, t: nat, n: nat)
    requires s.selector.RoundRobin? && Actors(s) != [] && StarvesAt(s, t)
    ensures var sim := Ticks(s, initial, n); sim.Running? && |sim.timeline| == if n < t then n else t
  {
    hide Tick, Actors;
    if n > 0 {
      StarvedRunsOn(s, initial, t, n - 1);
      var before := Ticks(s, initial, n - 1);
      OneTurn(s, before.world, before.timeline);
    }
  }

  lemma {:induction false} FedRunsForward(s: Setup, initial: World, n: nat)
    requires s.selector.RoundRobin? && Actors(s) != [] && forall t: nat :: !StarvesAt(s, t)
    ensures var sim := Ticks(s, initial, n);
            sim.Running? ==> && |sim.timeline| == n && (n > 0 ==> n < s.maxSteps)
                             && forall u :: 0 <= u < n ==> Actors(s)[u % |Actors(s)|] in s.policies && s.turns(u).Acts?
  {
    hide Tick, Actors;
    if n > 0 {
      FedRunsForward(s, initial, n - 1);
      var before := Ticks(s, initial, n - 1);
      if before.Running? {
        assert !StarvesAt(s, n - 1);
        if ShouldStop(s, before.timeline) {
          StopsNow(s, before.world, before.timeline);
        } else {
          OneTurn(s, before.world, before.timeline);
        }
      }
    }
  }

  lemma StopsNow(s: Setup, w: World, timeline: seq<SimStep>)
    requires ShouldStop(s, timeline)
    ensures Tick(s, w, timeline).Ended?
  {
  }

  /** Under round robin a run ends exactly when it never comes to an actor without a policy: such a turn
      records no step, so the same actor is selected again for ever. */
  lemma RoundRobinEndsExactly(s: Setup, initial: World)
    requires s.selector.RoundRobin? && Actors(s) != []
    ensures Halts(s, initial) <==> !exists t: nat :: StarvesAt(s, t)
  {
    hide Ticks, Actors;
    if t: nat :| StarvesAt(s, t) {
      forall n: nat
        ensures !Ticks(s, initial, n).Ended?
      {
        StarvedRunsOn(s, initial, t, n);
      }
    } else {
      var n := if s.maxSteps > 0 then s.maxSteps else 1;
      FedRunsForward(s, initial, n);
      assert Ticks(s, initial, n).Ended?;
    }
  }

  /** One actor and no policy: the run goes on for ever without a step. */
  lemma ActorWithoutPolicyRunsForever(initial: World, turns: nat -> Turn)
    ensures !Halts(Setup(1, [Profile(Name("a"), [])], [], RoundRobin, turns), initial)
  {
    var s := Setup(1, [Profile(Name("a"), [])], [], RoundRobin, turns);
    assert StarvesAt(s, 0);
    RoundRobinEndsExactly(s, initial);
  }

  /** With all actors selected a run ends exactly when no step is asked for or some actor has a policy. */
  lemma AllActorsEndsExactly(s: Setup, initial: World)
    requires s.selector.AllActors? && Actors(s) != []
    ensures Halts(s, initial) <==> s.maxSteps <= 0 || SomeoneActs(s, Actors(s))
  {
    hide Actors, SomeoneActs;
    EndsExactlyUnlessStarved(s, initial);
    assert Starved(s, initial, 0) <==> s.maxSteps > 0 && !SomeoneActs(s, Actors(s));
  }

  // The runner

  function ReportOf(sim: Sim): Report
    requires sim.Ended?
  {
    var steps := sim.timeline;
    Report(sim.world, steps, sim.ending, steps != [] && steps[|steps| - 1].success, sim.world.step)
  }

  ghost predicate Reported(s: Setup, initial: World, r: Report) {
    exists n: nat :: Ticks(s, initial, n).Ended? && r == ReportOf(Ticks(s, initial, n))
  }

  method BuildReport(state: WorldState, timeline: seq<SimStep>, ending: Ending) returns (r: Report)
    ensures r == ReportOf(Ended(state.Value(), timeline, ending))
  {
    var success := false;
    if timeline != [] {
      success := timeline[|timeline| - 1].success;
    }
    r := Report(state.Value(), timeline, ending, success, state.step);
  }

  class SimulationRunner {
    const setup: Setup

    constructor (setup: Setup)
      ensures this.setup == setup
    {
      this.setup := setup;
    }

    /** Runs a scenario that ends, on a copy of the initial world. */
    method Run(initial: WorldState) returns (r: Report)
      requires Halts(setup, initial.Value())
      ensures Reported(setup, initial.Value(), r)
      ensures initial.Value() == old(initial.Value())
    {
      hide TakeTurns, ReportOf, Replay, Select;
      ghost var start := initial.Value();
      ghost var last: nat :| Ticks(setup, start, last).Ended?;
      var state := initial.Clone();
      var timeline: seq<SimStep> := [];
      if Actors(setup) == [] {
        r := BuildReport(state, timeline, NoActors);
        assert Ticks(setup, start, 0) == Ended(state.Value(), timeline, NoActors);
        return;
      }
      ghost var n: nat := 0;
      while true
        invariant fresh(state) && initial.Value() == start
        invariant n <= last && Ticks(setup, start, n) == Running(state.Value(), timeline)
        decreases last - n
      {
        ghost var next := Ticks(setup, start, n + 1);
        if n == last {
          assert false;
        }
        if |timeline| >= setup.maxSteps {
          r := BuildReport(state, timeline, ReachedMaxSteps);
          return;
        }
        var selected := Select(setup, timeline);
        if selected == [] {
          r := BuildReport(state, timeline, NoneSelected);
          return;
        }
        var ending;
        ending, timeline := TakeTurnsOf(state, timeline, selected);
        n := n + 1;
        if ending.Some? {
          r := BuildReport(state, timeline, ending.value);
          return;
        }
      }
    }

    /** The inner loop over the selected actors. */
    method TakeTurnsOf(state: WorldState, steps: seq<SimStep>, selected: seq<Name>)
      returns (ending: Option<Ending>, timeline: seq<SimStep>)
      modifies state
      ensures var now := state.Value();
              TakeTurns(setup, old(state.Value()), steps, selected) ==
                if ending.Some? then Ended(now, timeline, ending.value) else Running(now, timeline)
    {
      hide Applied, Observe;
      ghost var before := state.Value();
      timeline := steps;
      assert selected[0..] == selected;
      for i := 0 to |selected|
        invariant TakeTurns(setup, state.Value(), timeline, selected[i..]) == TakeTurns(setup, before, steps, selected)
      {
        assert selected[i..][1..] == selected[i + 1..];
        var actor := selected[i];
        if actor !in setup.policies {
          continue;
        }
        var observation := Observe(setup, state.Value(), actor);
        match setup.turns(|timeline|) {
          case Raises =>
            return Some(StepFailed), timeline;
          case Acts(delta, success) =>
            timeline := timeline + [SimStep(|timeline| + 1, actor, observation, delta, success)];
            state.ApplyDelta(delta);
            if |timeline| >= setup.maxSteps {
              return Some(ReachedMaxSteps), timeline;
            }
        }
      }
      ending := None;
    }
  }

  /** A report shows the world its timeline replays to, and no more steps than asked for. */
  lemma ReportsReplay(s: Setup, initial: World, r: Report)
    requires Reported(s, initial, r)
    ensures r.finalState == Replay(initial, r.timeline)
    ensures r.finalWorldStep == initial.step + |r.timeline|
    ensures |r.timeline| <= if s.maxSteps > 0 then s.maxSteps else 0
    ensures forall k :: 0 <= k < |r.timeline| ==> StepFits(s, initial, r.timeline, k)
    ensures Unique(initial.facts) ==> Unique(r.finalState.facts)
    ensures r.success <==> r.timeline != [] && r.timeline[|r.timeline| - 1].success
  {
    hide Ticks;
    var n: nat :| Ticks(s, initial, n).Ended? && r == ReportOf(Ticks(s, initial, n));
    RunsAreReplayable(s, initial, n);
  }

  lemma OneReport(s: Setup, initial: World, p: Report, q: Report)
    requires Reported(s, initial, p) && Reported(s, initial, q)
    ensures p == q
  {
    hide Ticks;
    var m: nat :| Ticks(s, initial, m).Ended? && p == ReportOf(Ticks(s, initial, m));
    var n: nat :| Ticks(s, initial, n).Ended? && q == ReportOf(Ticks(s, initial, n));
    if m <= n {
      EndedStays(s, initial, m, n);
    } else {
      EndedStays(s, initial, n, m);
    }
  }
}
