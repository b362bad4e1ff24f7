/** The simulated world and its changes (sidecar/simulation/models.py). Values of variables, events and
artifacts are stood for by numbers. */
module WorldStates {
  datatype Name = Name(text: string)

  type Values = map<Name, int>

  datatype World = World(
    step: int, facts: seq<Name>, variables: Values, resources: Values, risks: map<Name, real>,
    openEvents: seq<int>, artifacts: Values, metadata: Values)

  datatype Delta = Delta(
    factsAdded: seq<Name>, factsRemoved: seq<Name>, variablesChanged: Values, resourcesChanged: Values,
    risksChanged: map<Name, real>, eventsAdded: seq<int>, artifactsAdded: Values, metadata: Values)

  /** The list without the first occurrence of `f`. */
  function RemoveFirst(facts: seq<Name>, f: Name): seq<Name> {
    if facts == [] then [] else if facts[0] == f then facts[1..] else [facts[0]] + RemoveFirst(facts[1..], f)
  }

  function RemoveAll(facts: seq<Name>, removed: seq<Name>): seq<Name> {
    if removed == [] then facts
    else RemoveFirst(RemoveAll(facts, removed[..|removed| - 1]), removed[|removed| - 1])
  }

  function AddOnce(facts: seq<Name>, f: Name): seq<Name> {
    if f in facts then facts else facts + [f]
  }

  function AddAll(facts: seq<Name>, added: seq<Name>): seq<Name> {
    if added == [] then facts
    else AddOnce(AddAll(facts, added[..|added| - 1]), added[|added| - 1])
  }

  function Applied(w: World, d: Delta): World {
    World(
      w.step + 1,
      AddAll(RemoveAll(w.facts, d.factsRemoved), d.factsAdded),
      w.variables + d.variablesChanged,
      w.resources + d.resourcesChanged,
      w.risks + d.risksChanged,
      w.openEvents + d.eventsAdded,
      w.artifacts + d.artifactsAdded,
      w.metadata + d.metadata)
  }

  predicate Unique(facts: seq<Name>) {
    forall i, j :: 0 <= i < j < |facts| ==> facts[i] != facts[j]
  }

  lemma {:induction false} RemoveFirstFacts(facts: seq<Name>, f: Name)
    requires Unique(facts)
    ensures Unique(RemoveFirst(facts, f))
    ensures forall g :: g in RemoveFirst(facts, f) <==> g in facts && g != f
  {
    if facts != [] {
      assert facts == [facts[0]] + facts[1..];
      RemoveFirstFacts(facts[1..], f);
      assert facts[0] !in facts[1..];
      var rest := RemoveFirst(facts[1..], f);
      assert forall j :: 0 <= j < |rest| ==> rest[j] in rest;
    }
  }

  lemma {:induction false} RemoveAllFacts(facts: seq<Name>, removed: seq<Name>)
    requires Unique(facts)
    ensures Unique(RemoveAll(facts, removed))
    ensures forall g :: g in RemoveAll(facts, removed) <==> g in facts && g !in removed
  {
    if removed != [] {
      var k := |removed| - 1;
      assert removed == removed[..k] + [removed[k]];
      RemoveAllFacts(facts, removed[..k]);
      RemoveFirstFacts(RemoveAll(facts, removed[..k]), removed[k]);
    }
  }

  lemma {:induction false} AddAllFacts(facts: seq<Name>, added: seq<Name>)
    requires Unique(facts)
    ensures Unique(AddAll(facts, added))
    ensures forall g :: g in AddAll(facts, added) <==> g in facts || g in added
  {
    if added != [] {
      var k := |added| - 1;
      assert added == added[..k] + [added[k]];
      AddAllFacts(facts, added[..k]);
    }
  }

  /** On a list of facts without duplicates, a change removes and adds what it says, additions last, and
      leaves no duplicates. */
  lemma FactsAfter(w: World, d: Delta)
    requires Unique(w.facts)
    ensures Unique(Applied(w, d).facts)
    ensures forall f :: f in Applied(w, d).facts <==> f in d.factsAdded || (f in w.facts && f !in d.factsRemoved)
  {
    RemoveAllFacts(w.facts, d.factsRemoved);
    AddAllFacts(RemoveAll(w.facts, d.factsRemoved), d.factsAdded);
  }

  /** Removing takes out the first occurrence and nothing else. */
  lemma {:induction false} RemovesFirstExactly(facts: seq<Name>, f: Name, i: nat)
    requires i <= |facts| && f !in facts[..i] && (i < |facts| ==> facts[i] == f)
    ensures RemoveFirst(facts, f) == if i < |facts| then facts[..i] + facts[i + 1..] else facts
  {
    if i > 0 {
      assert facts[0] == facts[..i][0];
      assert facts[1..][..i - 1] == facts[..i][1..];
      RemovesFirstExactly(facts[1..], f, i - 1);
    }
  }

  /** Additions come last, each new fact once, in the order given. */
  lemma {:induction false} AddsInOrder(facts: seq<Name>, added: seq<Name>, f: Name)
    ensures facts <= AddAll(facts, added)
    ensures AddAll(facts, added + [f]) == AddAll(facts, added) + if f in facts || f in added then [] else [f]
  {
    assert (added + [f])[..|added|] == added;
    AddAllHas(facts, added, f);
    if added != [] {
      AddsInOrder(facts, added[..|added| - 1], added[|added| - 1]);
      assert added == added[..|added| - 1] + [added[|added| - 1]];
    }
  }

  lemma {:induction false} RemoveFirstCounts(facts: seq<Name>, f: Name, g: Name)
    ensures multiset(RemoveFirst(facts, f))[g] ==
              if f == g && multiset(facts)[g] > 0 then multiset(facts)[g] - 1 else multiset(facts)[g]
  {
    if facts != [] {
      assert facts == [facts[0]] + facts[1..];
      RemoveFirstCounts(facts[1..], f, g);
    }
  }

  /** How often a fact is left, whatever duplicates there are. */
  lemma {:induction false} RemoveAllCounts(facts: seq<Name>, removed: seq<Name>, g: Name)
    ensures multiset(RemoveAll(facts, removed))[g] ==
              if multiset(facts)[g] > multiset(removed)[g] then multiset(facts)[g] - multiset(removed)[g] else 0
  {
    if removed != [] {
      var k := |removed| - 1;
      assert removed == removed[..k] + [removed[k]];
      RemoveAllCounts(facts, removed[..k], g);
      RemoveFirstCounts(RemoveAll(facts, removed[..k]), removed[k], g);
    }
  }

  lemma {:induction false} AddAllHas(facts: seq<Name>, added: seq<Name>, g: Name)
    ensures g in AddAll(facts, added) <==> g in facts || g in added
  {
    if added != [] {
      var k := |added| - 1;
      assert added == added[..k] + [added[k]];
      AddAllHas(facts, added[..k], g);
    }
  }

  /** Which facts hold after a change, for every list of facts: those added, and those that were there more
      often than they are removed. */
  lemma FactsHoldExactly(w: World, d: Delta, f: Name)
    ensures f in Applied(w, d).facts <==> f in d.factsAdded || multiset(w.facts)[f] > multiset(d.factsRemoved)[f]
  {
    var kept := RemoveAll(w.facts, d.factsRemoved);
    RemoveAllCounts(w.facts, d.factsRemoved, f);
    AddAllHas(kept, d.factsAdded, f);
    assert f in kept <==> multiset(kept)[f] > 0;
  }

  /** A table after a change: the changed keys have their new values, the others their old ones. */
  ghost predicate Overwritten<V(!new)>(before: map<Name, V>, changed: map<Name, V>, after: map<Name, V>) {
    && (forall k :: k in after <==> k in before || k in changed)
    && (forall k :: k in changed ==> k in after && after[k] == changed[k])
    && (forall k :: k in before && k !in changed ==> k in after && after[k] == before[k])
  }

  /** The rest of a change: every table is overwritten by its own part of the change, the events are appended
      in order, and one step is counted. */
  lemma ChangesAreTaken(w: World, d: Delta)
    ensures var after := Applied(w, d);
            && Overwritten(w.variables, d.variablesChanged, after.variables)
            && Overwritten(w.resources, d.resourcesChanged, after.resources)
            && Overwritten(w.risks, d.risksChanged, after.risks)
            && Overwritten(w.artifacts, d.artifactsAdded, after.artifacts)
            && Overwritten(w.metadata, d.metadata, after.metadata)
            && w.openEvents <= after.openEvents && after.openEvents[|w.openEvents|..] == d.eventsAdded
            && after.step == w.step + 1
  {
  }

  /** With duplicates a removed fact may stay. */
  lemma DuplicatesSurviveRemoval(f: Name)
    ensures var d := Delta([], [f], map[], map[], map[], [], map[], map[]);
            f in Applied(World(0, [f, f], map[], map[], map[], [], map[], map[]), d).facts
  {
    assert [f][..0] == [];
    assert RemoveAll([f, f], [f]) == RemoveFirst([f, f], f);
    assert RemoveFirst([f, f], f) == [f];
  }

  class WorldState {
    var step: int
    var facts: seq<Name>
    var variables: Values
    var resources: Values
    var risks: map<Name, real>
    var openEvents: seq<int>
    var artifacts: Values
    var metadata: Values

    function Value(): World
      reads this
    {
      World(step, facts, variables, resources, risks, openEvents, artifacts, metadata)
    }

    constructor (w: World)
      ensures Value() == w
    {
      step, facts, variables, resources, risks := w.step, w.facts, w.variables, w.resources, w.risks;
      openEvents, artifacts, metadata := w.openEvents, w.artifacts, w.metadata;
    }

    method Clone() returns (copy: WorldState)
      ensures fresh(copy) && copy.Value() == Value()
    {
      copy := new WorldState(Value());
    }

    method RemoveFacts(removed: seq<Name>)
      modifies this`facts
      ensures facts == RemoveAll(old(facts), removed)
    {
      for i := 0 to |removed|
        invariant facts == RemoveAll(old(facts), removed[..i])
      {
        assert removed[..i + 1][..i] == removed[..i];
        if removed[i] in facts {
          facts := RemoveFirst(facts, removed[i]);
        } else {
          NothingToRemove(facts, removed[i]);
        }
      }
      assert removed[..|removed|] == removed;
    }

    method AddFacts(added: seq<Name>)
      modifies this`facts
      ensures facts == AddAll(old(facts), added)
    {
      for i := 0 to |added|
        invariant facts == AddAll(old(facts), added[..i])
      {
        assert added[..i + 1][..i] == added[..i];
        if added[i] !in facts {
          facts := facts + [added[i]];
        }
      }
      assert added[..|added|] == added;
    }

    method ApplyDelta(d: Delta)
      modifies this
      ensures Value() == Applied(old(Value()), d)
    {
      RemoveFacts(d.factsRemoved);
      AddFacts(d.factsAdded);
      variables := variables + d.variablesChanged;
      resources := resources + d.resourcesChanged;
      risks := risks + d.risksChanged;
      openEvents := openEvents + d.eventsAdded;
      artifacts := artifacts + d.artifactsAdded;
      metadata := metadata + d.metadata;
      step := step + 1;
    }
  }

  lemma {:induction false} NothingToRemove(facts: seq<Name>, f: Name)
    requires f !in facts
    ensures RemoveFirst(facts, f) == facts
  {
    if facts != [] {
      NothingToRemove(facts[1..], f);
    }
  }
}
