/** Which replacement steps keep a plan valid (planning/replanner.py adopts any; planning/planner.py says
what valid is). */
module ReplanValidity {
  import opened Digraph
  import opened Planner
  import opened Scheduler
  import opened Replanner

  /** A step that is DONE or FAILED was run, so all it depends on is DONE. */
  ghost predicate SettledClosed(steps: seq<PlanStep>) {
    forall i :: 0 <= i < |steps| && Settled(steps[i]) ==> DependenciesDone(steps, steps[i])
  }

  /** What a caller would have to ask of replacement steps: new and distinct identifiers, positive ones,
      descriptions, dependencies on other steps that are kept or new, and no cycle among the new steps. */
  ghost predicate Fits(steps: seq<PlanStep>, items: seq<NewStep>) {
    && FreshItems(steps, items)
    && AllFit(steps, items)
    && !Cyclic(DependencyGraph(FreshAll(items)))
  }

  ghost predicate AllFit(steps: seq<PlanStep>, items: seq<NewStep>) {
    forall i :: 0 <= i < |items| ==> ItemFits(steps, items, items[i])
  }

  ghost predicate ItemFits(steps: seq<PlanStep>, items: seq<NewStep>, item: NewStep) {
    && item.stepId > 0 && item.description != ""
    && forall d :: d in item.dependsOn ==> d != item.stepId && (d in Ids(Kept(steps)) || d in Ids(FreshAll(items)))
  }

  lemma IdsOfBoth(a: seq<PlanStep>, b: seq<PlanStep>)
    ensures Ids(a + b) == Ids(a) + Ids(b)
  {
    var all := a + b;
    forall i | 0 <= i < |a|
      ensures a[i].stepId in Ids(all)
    {
      assert all[i] == a[i];
    }
    forall i | 0 <= i < |b|
      ensures b[i].stepId in Ids(all)
    {
      assert all[|a| + i] == b[i];
    }
  }

  lemma DoneIsKept(steps: seq<PlanStep>)
    ensures DoneIds(steps) <= Ids(Kept(steps))
  {
    forall id | id in DoneIds(steps)
      ensures id in Ids(Kept(steps))
    {
      var i :| 0 <= i < |steps| && steps[i].status.Done? && steps[i].stepId == id;
      assert steps[i] in Kept(steps);
    }
  }

  /** Kept steps depend on kept steps, and never on themselves. */
  lemma KeptIsClosed(steps: seq<PlanStep>, i: nat)
    requires WellFormedSteps(steps) && SettledClosed(steps) && i < |Kept(steps)|
    ensures var step := Kept(steps)[i];
            && step.stepId > 0 && step.description != ""
            && forall d :: d in step.dependsOn ==> d in Ids(Kept(steps)) && d != step.stepId
  {
    var step := Kept(steps)[i];
    assert step in Kept(steps);
    var j :| 0 <= j < |steps| && steps[j] == step;
    assert DependenciesPresent(steps, steps[j]) && DependenciesDone(steps, steps[j]);
    DoneIsKept(steps);
  }

  /** What well-formedness asks of one step, apart from unique identifiers. */
  ghost predicate WellPlaced(steps: seq<PlanStep>, step: PlanStep) {
    step.stepId > 0 && step.description != "" && DependenciesPresent(steps, step)
  }

  ghost predicate AllWellPlaced(steps: seq<PlanStep>, part: seq<PlanStep>) {
    forall i :: 0 <= i < |part| ==> WellPlaced(steps, part[i])
  }

  lemma WellFormedIsWellPlaced(steps: seq<PlanStep>)
    ensures WellFormedSteps(steps) <==> UniqueIds(steps) && AllWellPlaced(steps, steps)
  {
    if AllWellPlaced(steps, steps) {
      assert forall i :: 0 <= i < |steps| ==> WellPlaced(steps, steps[i]);
    }
  }

  lemma BothWellPlaced(steps: seq<PlanStep>, a: seq<PlanStep>, b: seq<PlanStep>)
    ensures AllWellPlaced(steps, a + b) <==> AllWellPlaced(steps, a) && AllWellPlaced(steps, b)
  {
    hide WellPlaced;
    var all := a + b;
    assert forall i :: 0 <= i < |a| ==> all[i] == a[i];
    assert forall i :: 0 <= i < |b| ==> all[|a| + i] == b[i];
  }

  lemma NewAreWellPlacedExactly(steps: seq<PlanStep>, items: seq<NewStep>)
    ensures AllWellPlaced(Kept(steps) + FreshAll(items), FreshAll(items)) <==> AllFit(steps, items)
  {
    var all, added := Kept(steps) + FreshAll(items), FreshAll(items);
    IdsOfBoth(Kept(steps), added);
    forall i | 0 <= i < |items|
      ensures WellPlaced(all, added[i]) <==> ItemFits(steps, items, items[i])
    {
      assert added[i] == Fresh(items[i]);
    }
  }

  lemma KeptAreWellPlaced(steps: seq<PlanStep>, items: seq<NewStep>)
    requires WellFormedSteps(steps) && SettledClosed(steps)
    ensures AllWellPlaced(Kept(steps) + FreshAll(items), Kept(steps))
  {
    hide WellFormedSteps, SettledClosed;
    IdsOfBoth(Kept(steps), FreshAll(items));
    forall i | 0 <= i < |Kept(steps)|
      ensures WellPlaced(Kept(steps) + FreshAll(items), Kept(steps)[i])
    {
      KeptIsClosed(steps, i);
    }
  }

  lemma UniqueExactly(steps: seq<PlanStep>, items: seq<NewStep>)
    requires WellFormedSteps(steps) && items != []
    ensures UniqueIds(Kept(steps) + FreshAll(items)) <==> FreshItems(steps, items)
  {
    hide UniqueIds, FreshItems;
    UniqueIffFresh(steps, items);
  }

  /** Apart from cycles, the new plan is well formed exactly when the items fit one by one. */
  lemma WellFormedExactly(steps: seq<PlanStep>, items: seq<NewStep>)
    requires WellFormedSteps(steps) && SettledClosed(steps) && items != []
    ensures WellFormedSteps(Kept(steps) + FreshAll(items)) <==> FreshItems(steps, items) && AllFit(steps, items)
  {
    hide SettledClosed, FreshItems, WellFormedSteps, UniqueIds, AllWellPlaced, AllFit, Kept, FreshAll;
    var all := Kept(steps) + FreshAll(items);
    WellFormedIsWellPlaced(all);
    UniqueExactly(steps, items);
    BothWellPlaced(all, Kept(steps), FreshAll(items));
    NewAreWellPlacedExactly(steps, items);
    KeptAreWellPlaced(steps, items);
  }

  // ---------- Cycles ----------

  /** Where the smaller graph has the node, it agrees with the larger one. */
  ghost predicate AgreesOn(h: Graph<int>, g: Graph<int>) {
    forall n :: n in h && n in g ==> h[n] == g[n]
  }

  lemma WalkIn(g: Graph<int>, h: Graph<int>, p: seq<int>)
    requires Walk(g, p) && forall i :: 0 <= i < |p| ==> p[i] in g && p[i] in h && h[p[i]] == g[p[i]]
    ensures Walk(h, p)
  {
    forall i, j | 0 <= i && j == i + 1 && j < |p|
      ensures p[j] in h[p[i]]
    {
      assert p[j] in g[p[i]];
    }
  }

  /** A walk that enters a closed set of nodes stays there. */
  lemma {:induction false} WalkStays(g: Graph<int>, nodes: set<int>, p: seq<int>, i: nat, j: nat)
    requires Walk(g, p) && i <= j < |p| && p[i] in nodes
    requires forall n :: n in nodes && n in g ==> forall m :: m in g[n] ==> m in nodes
    ensures p[j] in nodes
  {
    if i < j {
      WalkStays(g, nodes, p, i, j - 1);
      assert p[j] in g[p[j - 1]];
    }
  }

  /** A cycle lies in the closed set of nodes or avoids it. */
  lemma CycleSplits(g: Graph<int>, nodes: set<int>, p: seq<int>)
    requires Cycle(g, p)
    requires forall n :: n in nodes && n in g ==> forall m :: m in g[n] ==> m in nodes
    ensures (forall i :: 0 <= i < |p| ==> p[i] in nodes) || (forall i :: 0 <= i < |p| ==> p[i] !in nodes)
  {
    if k :| 0 <= k < |p| && p[k] in nodes {
      WalkStays(g, nodes, p, k, |p| - 1);
      forall i | 0 <= i < |p|
        ensures p[i] in nodes
      {
        WalkStays(g, nodes, p, 0, i);
      }
    }
  }

  /** Steps of a part of the plan have the dependencies they have in the plan. */
  lemma PartAgrees(part: seq<PlanStep>, all: seq<PlanStep>)
    requires UniqueIds(part) && UniqueIds(all) && forall s :: s in part ==> s in all
    ensures AgreesOn(DependencyGraph(part), DependencyGraph(all)) && DependencyGraph(part).Keys <= DependencyGraph(all).Keys
  {
    GraphOfSteps(part);
    GraphOfSteps(all);
    forall n | n in DependencyGraph(part)
      ensures n in DependencyGraph(all) && DependencyGraph(part)[n] == DependencyGraph(all)[n]
    {
      var i :| 0 <= i < |part| && part[i].stepId == n;
      assert part[i] in all;
      var j :| 0 <= j < |all| && all[j] == part[i];
      assert all[j].stepId == n;
    }
  }

  /** A cycle of the new plan is one of the old plan or one among the new steps. */
  lemma CycleIsOldOrNew(steps: seq<PlanStep>, items: seq<NewStep>, p: seq<int>)
    requires WellFormedSteps(steps) && SettledClosed(steps) && WellFormedSteps(Kept(steps) + FreshAll(items))
    requires Cycle(DependencyGraph(Kept(steps) + FreshAll(items)), p)
    ensures Cycle(DependencyGraph(steps), p) || Cycle(DependencyGraph(FreshAll(items)), p)
  {
    hide SettledClosed, WellFormedSteps, DependencyGraph;
    var kept, added := Kept(steps), FreshAll(items);
    var g := DependencyGraph(kept + added);
    Parts(steps, items);
    KeptNodesClosed(steps, items);
    CycleSplits(g, Ids(kept), p);
    if p[0] in Ids(kept) {
      WalkIn(g, DependencyGraph(steps), p);
    } else {
      WalkIn(g, DependencyGraph(added), p);
    }
  }

  lemma NewCycleStays(steps: seq<PlanStep>, items: seq<NewStep>, p: seq<int>)
    requires WellFormedSteps(steps) && WellFormedSteps(Kept(steps) + FreshAll(items))
    requires Cycle(DependencyGraph(FreshAll(items)), p)
    ensures Cycle(DependencyGraph(Kept(steps) + FreshAll(items)), p)
  {
    hide WellFormedSteps, DependencyGraph;
    Parts(steps, items);
    WalkIn(DependencyGraph(FreshAll(items)), DependencyGraph(Kept(steps) + FreshAll(items)), p);
  }

  /** In a well-formed new plan every cycle is one among the new steps. */
  lemma CyclesAreNew(steps: seq<PlanStep>, items: seq<NewStep>)
    requires ValidSteps(steps) && SettledClosed(steps) && WellFormedSteps(Kept(steps) + FreshAll(items))
    ensures Cyclic(DependencyGraph(Kept(steps) + FreshAll(items))) <==> Cyclic(DependencyGraph(FreshAll(items)))
  {
    hide SettledClosed, WellFormedSteps, DependencyGraph, Cycle;
    var before, added, all := DependencyGraph(steps), DependencyGraph(FreshAll(items)), DependencyGraph(Kept(steps) + FreshAll(items));
    if p :| Cycle(added, p) {
      NewCycleStays(steps, items, p);
      assert Cycle(all, p);
    }
    if p :| Cycle(all, p) {
      CycleIsOldOrNew(steps, items, p);
      assert !Cycle(before, p);
    }
  }

  lemma Parts(steps: seq<PlanStep>, items: seq<NewStep>)
    requires WellFormedSteps(steps) && WellFormedSteps(Kept(steps) + FreshAll(items))
    ensures var kept, added := Kept(steps), FreshAll(items);
            var g, h, f := DependencyGraph(kept + added), DependencyGraph(steps), DependencyGraph(added);
            && AgreesOn(f, g) && AgreesOn(g, f) && f.Keys == Ids(added) && g.Keys == Ids(kept) + Ids(added)
            && (forall n :: n in Ids(kept) ==> n in h && n in g && h[n] == g[n])
  {
    var kept, added := Kept(steps), FreshAll(items);
    var all := kept + added;
    IdsOfBoth(kept, added);
    PartsAreUnique(kept, added);
    GraphOfSteps(all);
    GraphOfSteps(added);
    GraphOfSteps(kept);
    PartAgrees(added, all);
    PartAgrees(kept, all);
    PartAgrees(kept, steps);
  }

  lemma PartsAreUnique(a: seq<PlanStep>, b: seq<PlanStep>)
    requires UniqueIds(a + b)
    ensures UniqueIds(a) && UniqueIds(b)
  {
    var all := a + b;
    assert forall i :: 0 <= i < |a| ==> all[i] == a[i];
    assert forall i :: 0 <= i < |b| ==> all[|a| + i] == b[i];
  }

  lemma KeptNodesClosed(steps: seq<PlanStep>, items: seq<NewStep>)
    requires WellFormedSteps(steps) && SettledClosed(steps) && WellFormedSteps(Kept(steps) + FreshAll(items))
    ensures var g := DependencyGraph(Kept(steps) + FreshAll(items));
            forall n :: n in Ids(Kept(steps)) && n in g ==> forall m :: m in g[n] ==> m in Ids(Kept(steps))
  {
    var kept, all := Kept(steps), Kept(steps) + FreshAll(items);
    var g := DependencyGraph(all);
    GraphOfSteps(all);
    forall n | n in Ids(kept) && n in g
      ensures forall m :: m in g[n] ==> m in Ids(kept)
    {
      var i :| 0 <= i < |kept| && kept[i].stepId == n;
      assert all[i] == kept[i];
      KeptIsClosed(steps, i);
    }
  }

  /** An adopted reply leads to a valid plan again exactly when its steps fit. */
  lemma ValidIffFits(steps: seq<PlanStep>, items: seq<NewStep>)
    requires ValidSteps(steps) && SettledClosed(steps) && items != []
    ensures ValidSteps(ReplannedSteps(steps, NewSteps(items))) <==> Fits(steps, items)
  {
    hide SettledClosed, FreshItems, AllFit, WellFormedSteps, DependencyGraph, Cyclic, Kept, FreshAll;
    WellFormedExactly(steps, items);
    if WellFormedSteps(Kept(steps) + FreshAll(items)) {
      CyclesAreNew(steps, items);
    }
  }

  /** Replanning keeps the DONE and FAILED steps and all they depend on. */
  lemma ReplanKeepsSettledClosed(steps: seq<PlanStep>, reply: ReplanReply)
    requires SettledClosed(steps)
    ensures SettledClosed(ReplannedSteps(steps, reply))
  {
    var after := ReplannedSteps(steps, reply);
    ReplanPreservesDone(steps, reply);
    DonePreservedIds(steps, after);
    forall i | 0 <= i < |after| && Settled(after[i])
      ensures DependenciesDone(after, after[i])
    {
      assert after[i] in steps;
      var j :| 0 <= j < |steps| && steps[j] == after[i];
      assert DependenciesDone(steps, steps[j]);
    }
  }
}
