/** Plugin ordering (plugins/loader.py): a stable pre-sort by phase and priority, then Kahn's
topological sort with the same keys as tie-breakers. */
module PluginLoader {
  import opened Digraph
  import opened StableSorting

  datatype Name = Name(text: string)

  datatype Plugin = Plugin(name: Name, phase: string, priority: int, dependsOn: seq<Name>)

  function PhaseOrder(phase: string): int {
    if phase == "pre" then 0 else if phase == "post" then 2 else 1
  }

  function PluginKey(p: Plugin): Key {
    (PhaseOrder(p.phase), p.priority)
  }

  /** `Missing` names a dependency that is not loaded, `Circular` the plugins left over. */
  datatype LoadResult =
    | Duplicate(name: Name)
    | Missing(plugin: Name, dependency: Name)
    | Circular(remaining: seq<Name>)
    | Ordered(plugins: seq<Plugin>)

  // ---------- Vocabulary ----------

  ghost predicate UniqueNames(plugins: seq<Plugin>) {
    forall i, j :: 0 <= i < j < |plugins| ==> plugins[i].name != plugins[j].name
  }

  /** The dictionary from names to plugins; a later plugin wins. */
  function ByName(plugins: seq<Plugin>): map<Name, Plugin> {
    if plugins == [] then map[]
    else var last := plugins[|plugins| - 1]; ByName(plugins[..|plugins| - 1])[last.name := last]
  }

  lemma {:induction false} ByNameIsSound(plugins: seq<Plugin>, n: Name)
    requires n in ByName(plugins)
    ensures ByName(plugins)[n].name == n && ByName(plugins)[n] in plugins
  {
    var init, last := plugins[..|plugins| - 1], plugins[|plugins| - 1];
    assert plugins == init + [last];
    if n != last.name {
      ByNameIsSound(init, n);
    }
  }

  lemma {:induction false} ByNameFinds(plugins: seq<Plugin>, p: Plugin)
    requires UniqueNames(plugins) && p in plugins
    ensures p.name in ByName(plugins) && ByName(plugins)[p.name] == p
  {
    var i :| 0 <= i < |plugins| && plugins[i] == p;
    if i < |plugins| - 1 {
      assert plugins[..|plugins| - 1][i] == p;
      ByNameFinds(plugins[..|plugins| - 1], p);
    }
  }

  lemma LastNameIsNew(plugins: seq<Plugin>)
    requires UniqueNames(plugins) && plugins != []
    ensures plugins[|plugins| - 1].name !in ByName(plugins[..|plugins| - 1])
  {
    var init, last := plugins[..|plugins| - 1], plugins[|plugins| - 1];
    forall n | n in ByName(init)
      ensures n != last.name
    {
      ByNameIsSound(init, n);
      var i :| 0 <= i < |init| && init[i] == ByName(init)[n];
      assert plugins[i].name == n;
    }
  }

  lemma {:induction false} NameCount(plugins: seq<Plugin>)
    requires UniqueNames(plugins)
    ensures |ByName(plugins).Keys| == |plugins|
  {
    if plugins != [] {
      var init, last := plugins[..|plugins| - 1], plugins[|plugins| - 1];
      NameCount(init);
      LastNameIsNew(plugins);
      assert ByName(plugins).Keys == ByName(init).Keys + {last.name};
    }
  }

  ghost function DependencyGraph(plugins: seq<Plugin>): Graph<Name> {
    var m := ByName(plugins);
    map n | n in m :: m[n].dependsOn
  }

  ghost predicate AllPresent(plugins: seq<Plugin>) {
    Closed(DependencyGraph(plugins))
  }

  // ---------- Counting ----------

  function Occurrences(xs: seq<Name>, x: Name): nat {
    if xs == [] then 0 else Occurrences(xs[..|xs| - 1], x) + if xs[|xs| - 1] == x then 1 else 0
  }

  lemma {:induction false} OccurrencesAppend(xs: seq<Name>, ys: seq<Name>, x: Name)
    ensures Occurrences(xs + ys, x) == Occurrences(xs, x) + Occurrences(ys, x)
  {
    if ys == [] {
      assert xs + ys == xs;
    } else {
      assert (xs + ys)[..|xs + ys| - 1] == xs + ys[..|ys| - 1];
      OccurrencesAppend(xs, ys[..|ys| - 1], x);
    }
  }

  lemma {:induction false} OccursIffMember(xs: seq<Name>, x: Name)
    ensures Occurrences(xs, x) > 0 <==> x in xs
  {
    if xs != [] {
      assert xs == xs[..|xs| - 1] + [xs[|xs| - 1]];
      OccursIffMember(xs[..|xs| - 1], x);
    }
  }

  function Repeat(x: Name, n: nat): (r: seq<Name>)
    ensures |r| == n
  {
    if n == 0 then [] else Repeat(x, n - 1) + [x]
  }

  lemma {:induction false} RepeatCount(x: Name, n: nat, y: Name)
    ensures Occurrences(Repeat(x, n), y) == if y == x then n else 0
  {
    if n > 0 {
      RepeatCount(x, n - 1, y);
    }
  }

  /** The dependents of `d`, in load order, each as often as it lists `d`. */
  function Dependents(plugins: seq<Plugin>, d: Name): seq<Name> {
    if plugins == [] then []
    else
      var last := plugins[|plugins| - 1];
      Dependents(plugins[..|plugins| - 1], d) + Repeat(last.name, Occurrences(last.dependsOn, d))
  }

  lemma {:induction false} NoOtherDependents(plugins: seq<Plugin>, d: Name, n: Name)
    requires forall i :: 0 <= i < |plugins| ==> plugins[i].name != n
    ensures Occurrences(Dependents(plugins, d), n) == 0
  {
    if plugins != [] {
      var init, last := plugins[..|plugins| - 1], plugins[|plugins| - 1];
      NoOtherDependents(init, d, n);
      var more := Repeat(last.name, Occurrences(last.dependsOn, d));
      OccurrencesAppend(Dependents(init, d), more, n);
      RepeatCount(last.name, Occurrences(last.dependsOn, d), n);
    }
  }

  lemma {:induction false} DependentsCount(plugins: seq<Plugin>, d: Name, p: Plugin)
    requires UniqueNames(plugins) && p in plugins
    ensures Occurrences(Dependents(plugins, d), p.name) == Occurrences(p.dependsOn, d)
  {
    var init, last := plugins[..|plugins| - 1], plugins[|plugins| - 1];
    var more := Repeat(last.name, Occurrences(last.dependsOn, d));
    OccurrencesAppend(Dependents(init, d), more, p.name);
    RepeatCount(last.name, Occurrences(last.dependsOn, d), p.name);
    if p == last {
      NoOtherDependents(init, d, p.name);
    } else {
      var i :| 0 <= i < |plugins| && plugins[i] == p;
      assert init[i] == p;
      DependentsCount(init, d, p);
    }
  }

  /** How many entries of the list are still open. */
  function OpenCount(deps: seq<Name>, done: set<Name>): nat {
    if deps == [] then 0
    else OpenCount(deps[..|deps| - 1], done) + if deps[|deps| - 1] in done then 0 else 1
  }

  lemma {:induction false} NothingDone(deps: seq<Name>)
    ensures OpenCount(deps, {}) == |deps|
  {
    if deps != [] {
      NothingDone(deps[..|deps| - 1]);
    }
  }

  lemma {:induction false} OneMoreDone(deps: seq<Name>, done: set<Name>, node: Name)
    requires node !in done
    ensures OpenCount(deps, done) == OpenCount(deps, done + {node}) + Occurrences(deps, node)
  {
    if deps != [] {
      assert deps == deps[..|deps| - 1] + [deps[|deps| - 1]];
      OneMoreDone(deps[..|deps| - 1], done, node);
    }
  }

  lemma {:induction false} NoneOpen(deps: seq<Name>, done: set<Name>)
    ensures OpenCount(deps, done) == 0 <==> forall d :: d in deps ==> d in done
  {
    if deps != [] {
      assert deps == deps[..|deps| - 1] + [deps[|deps| - 1]];
      NoneOpen(deps[..|deps| - 1], done);
    }
  }

  lemma {:induction false} OccurrencesAreMultiplicity(xs: seq<Name>, x: Name)
    ensures Occurrences(xs, x) == multiset(xs)[x]
  {
    if xs != [] {
      assert xs == xs[..|xs| - 1] + [xs[|xs| - 1]];
      OccurrencesAreMultiplicity(xs[..|xs| - 1], x);
    }
  }

  // ---------- Kahn's algorithm: what the variables mean ----------

  type Plugins = map<Name, Plugin>

  ghost function Elements(xs: seq<Name>): set<Name> {
    set x | x in xs
  }

  /** All dependencies are done, the plugin itself is not. */
  ghost predicate IsReady(m: Plugins, done: set<Name>, n: Name) {
    n in m && n !in done && OpenCount(m[n].dependsOn, done) == 0
  }

  ghost predicate QueueHoldsReady(m: Plugins, done: set<Name>, queue: seq<Name>) {
    forall n :: Occurrences(queue, n) == if IsReady(m, done, n) then 1 else 0
  }

  ghost predicate DegreesCountOpen(m: Plugins, done: set<Name>, inDegree: map<Name, int>) {
    inDegree.Keys == m.Keys && forall n :: n in m ==> inDegree[n] == OpenCount(m[n].dependsOn, done)
  }

  /** The plugin is smallest by (phase, priority) among those ready after `done`. */
  ghost predicate LeastReady(m: Plugins, done: set<Name>, node: Name) {
    IsReady(m, done, node) && forall n :: IsReady(m, done, n) ==> KeyLe(PluginKey(m[node]), PluginKey(m[n]))
  }

  /** Each emitted plugin was the least ready one when it was emitted. */
  ghost predicate GreedyOrder(m: Plugins, sorted: seq<Name>) {
    forall i :: 0 <= i < |sorted| ==> LeastReady(m, Elements(sorted[..i]), sorted[i])
  }

  lemma GreedyExtends(m: Plugins, sorted: seq<Name>, node: Name)
    requires GreedyOrder(m, sorted) && LeastReady(m, Elements(sorted), node)
    ensures GreedyOrder(m, sorted + [node])
  {
    var longer := sorted + [node];
    forall i | 0 <= i < |longer|
      ensures LeastReady(m, Elements(longer[..i]), longer[i])
    {
      if i < |sorted| {
        assert longer[..i] == sorted[..i];
      } else {
        assert longer[..i] == sorted;
      }
    }
  }

  /** A greedy order lists distinct names, each after its dependencies. */
  lemma GreedyIsTopological(m: Plugins, sorted: seq<Name>, i: nat)
    requires GreedyOrder(m, sorted) && i < |sorted|
    ensures sorted[i] in m && sorted[i] !in sorted[..i] && forall d :: d in m[sorted[i]].dependsOn ==> d in sorted[..i]
  {
    assert LeastReady(m, Elements(sorted[..i]), sorted[i]);
    NoneOpen(m[sorted[i]].dependsOn, Elements(sorted[..i]));
  }

  lemma ElementsOfPrefix(sorted: seq<Name>, k: nat)
    requires k < |sorted|
    ensures Elements(sorted[..k + 1]) == Elements(sorted[..k]) + {sorted[k]}
  {
    assert sorted[..k + 1] == sorted[..k] + [sorted[k]];
  }

  lemma {:induction false} GreedyCount(m: Plugins, sorted: seq<Name>, k: nat)
    requires GreedyOrder(m, sorted) && k <= |sorted|
    ensures |Elements(sorted[..k])| == k && Elements(sorted[..k]) <= m.Keys
  {
    hide GreedyOrder;
    if k > 0 {
      GreedyCount(m, sorted, k - 1);
      GreedyIsTopological(m, sorted, k - 1);
      ElementsOfPrefix(sorted, k - 1);
    }
  }

  /** When every name is emitted, the positions rank the graph, so it has no cycle. */
  lemma EmittedAllIsAcyclic(plugins: seq<Plugin>, sorted: seq<Name>)
    requires GreedyOrder(ByName(plugins), sorted) && Elements(sorted) == ByName(plugins).Keys
    ensures !Cyclic(DependencyGraph(plugins))
  {
    hide GreedyOrder;
    var m, g := ByName(plugins), DependencyGraph(plugins);
    var rank := RankByPosition(m, sorted, |sorted|);
    assert sorted[..|sorted|] == sorted;
    forall n | n in g
      ensures RankedNode(g, rank, n)
    {
      assert n in sorted;
      var i :| 0 <= i < |sorted| && sorted[i] == n;
      GreedyIsTopological(m, sorted, i);
      assert rank[sorted[i]] == i;
      forall d | d in g[n]
        ensures d in rank && rank[d] < rank[n]
      {
        var j :| 0 <= j < i && sorted[..i][j] == d;
        assert rank[sorted[j]] == j;
      }
    }
    RankedIsAcyclic(g, rank);
  }

  lemma {:induction false} RankByPosition(m: Plugins, sorted: seq<Name>, k: nat) returns (rank: map<Name, nat>)
    requires GreedyOrder(m, sorted) && k <= |sorted|
    ensures rank.Keys == Elements(sorted[..k])
    ensures forall i :: 0 <= i < k ==> sorted[i] in rank && rank[sorted[i]] == i
  {
    hide GreedyOrder;
    if k == 0 {
      rank := map[];
    } else {
      var before := RankByPosition(m, sorted, k - 1);
      GreedyIsTopological(m, sorted, k - 1);
      forall i | 0 <= i < k - 1
        ensures sorted[i] != sorted[k - 1]
      {
        assert sorted[..k - 1][i] == sorted[i];
      }
      ElementsOfPrefix(sorted, k - 1);
      rank := before[sorted[k - 1] := k - 1];
    }
  }

  /** When nothing is ready but names are left, each of them waits for another: a cycle. */
  lemma StuckIsCyclic(plugins: seq<Plugin>, done: set<Name>)
    requires AllPresent(plugins) && done < ByName(plugins).Keys
    requires forall n :: !IsReady(ByName(plugins), done, n)
    ensures Cyclic(DependencyGraph(plugins))
  {
    var m, g := ByName(plugins), DependencyGraph(plugins);
    var rest := m.Keys - done;
    var x :| x in m.Keys && x !in done;
    assert x in rest;
    forall n | n in rest
      ensures HasSuccessorIn(g, n, rest)
    {
      assert !IsReady(m, done, n);
      NoneOpen(m[n].dependsOn, done);
      var d :| d in m[n].dependsOn && d !in done;
      assert d in g[n] && d in g;
    }
    DeadEndFreeIsCyclic(g, rest);
  }

  // ---------- Kahn's algorithm: the code ----------

  /** Every name has its list of dependents among the first `n` plugins. */
  ghost predicate GraphBuilt(plugins: seq<Plugin>, n: nat, graph: map<Name, seq<Name>>)
    requires n <= |plugins|
  {
    forall d :: d in graph ==> graph[d] == Dependents(plugins[..n], d)
  }

  /** The degree of a plugin counts its dependencies once it has been entered. */
  ghost predicate DegreesBuilt(plugins: seq<Plugin>, n: nat, inDegree: map<Name, int>) {
    forall j :: 0 <= j < |plugins| ==>
      plugins[j].name in inDegree && inDegree[plugins[j].name] == if j < n then |plugins[j].dependsOn| else 0
  }

  /** The plugin has been added to the lists of its first dependencies. */
  ghost predicate Linked(graph: map<Name, seq<Name>>, graph': map<Name, seq<Name>>, name: Name, deps: seq<Name>) {
    graph'.Keys == graph.Keys && forall d :: d in graph ==> graph'[d] == graph[d] + Repeat(name, Occurrences(deps, d))
  }

  lemma LinkStart(graph: map<Name, seq<Name>>, name: Name)
    ensures Linked(graph, graph, name, [])
  {
  }

  lemma LinkStep(graph: map<Name, seq<Name>>, graph': map<Name, seq<Name>>, name: Name, deps: seq<Name>, k: nat)
    requires k < |deps| && Linked(graph, graph', name, deps[..k]) && deps[k] in graph
    ensures Linked(graph, graph'[deps[k] := graph'[deps[k]] + [name]], name, deps[..k + 1])
  {
    assert deps[..k + 1][..k] == deps[..k];
    var next := graph'[deps[k] := graph'[deps[k]] + [name]];
    forall d | d in graph
      ensures next[d] == graph[d] + Repeat(name, Occurrences(deps[..k + 1], d))
    {
      assert Occurrences(deps[..k + 1], d) == Occurrences(deps[..k], d) + if deps[k] == d then 1 else 0;
    }
  }

  /** Enters the dependencies of one plugin, or reports one that is not loaded. */
  method EnterDependencies(p: Plugin, graph: map<Name, seq<Name>>, inDegree: map<Name, int>)
    returns (missing: seq<Name>, graph': map<Name, seq<Name>>, inDegree': map<Name, int>)
    requires p.name in inDegree
    ensures missing == [] <==> Satisfied(p, graph.Keys)
    ensures missing != [] ==> missing[0] in p.dependsOn && missing[0] !in graph
    ensures missing == [] ==> Linked(graph, graph', p.name, p.dependsOn)
    ensures missing == [] ==> inDegree' == inDegree[p.name := inDegree[p.name] + |p.dependsOn|]
  {
    var deps := p.dependsOn;
    graph', inDegree' := graph, inDegree;
    LinkStart(graph, p.name);
    hide Linked;
    for k := 0 to |deps|
      invariant graph'.Keys == graph.Keys && Linked(graph, graph', p.name, deps[..k])
      invariant inDegree' == inDegree[p.name := inDegree[p.name] + k]
      invariant forall j :: 0 <= j < k ==> deps[j] in graph
    {
      if deps[k] !in graph {
        return [deps[k]], graph', inDegree';
      }
      LinkStep(graph, graph', p.name, deps, k);
      graph' := graph'[deps[k] := graph'[deps[k]] + [p.name]];
      inDegree' := inDegree'[p.name := inDegree'[p.name] + 1];
    }
    assert deps[..|deps|] == deps;
    return [], graph', inDegree';
  }

  lemma EnteringBuilds(plugins: seq<Plugin>, i: nat, graph: map<Name, seq<Name>>, graph': map<Name, seq<Name>>)
    requires i < |plugins| && GraphBuilt(plugins, i, graph)
    requires Linked(graph, graph', plugins[i].name, plugins[i].dependsOn)
    ensures GraphBuilt(plugins, i + 1, graph') && graph'.Keys == graph.Keys
  {
    assert plugins[..i + 1][..i] == plugins[..i];
  }

  lemma DegreesStart(plugins: seq<Plugin>, inDegree: map<Name, int>)
    requires UniqueNames(plugins) && inDegree.Keys == ByName(plugins).Keys && DegreesBuilt(plugins, |plugins|, inDegree)
    ensures DegreesCountOpen(ByName(plugins), {}, inDegree)
  {
    var m := ByName(plugins);
    forall n | n in m
      ensures inDegree[n] == OpenCount(m[n].dependsOn, {})
    {
      ByNameIsSound(plugins, n);
      var j :| 0 <= j < |plugins| && plugins[j] == m[n];
      assert inDegree[plugins[j].name] == |plugins[j].dependsOn|;
      NothingDone(m[n].dependsOn);
    }
  }

  /** All dependencies of the plugin are among the names. */
  ghost predicate Satisfied(p: Plugin, names: set<Name>) {
    forall d :: d in p.dependsOn ==> d in names
  }

  lemma PresentByPosition(plugins: seq<Plugin>)
    requires UniqueNames(plugins)
    ensures AllPresent(plugins) <==>
            forall j :: 0 <= j < |plugins| ==> Satisfied(plugins[j], ByName(plugins).Keys)
  {
    var m, g := ByName(plugins), DependencyGraph(plugins);
    forall j | 0 <= j < |plugins|
      ensures plugins[j].name in g && g[plugins[j].name] == plugins[j].dependsOn
    {
      ByNameFinds(plugins, plugins[j]);
    }
    forall n | n in g
      ensures exists j :: 0 <= j < |plugins| && plugins[j].dependsOn == g[n]
    {
      ByNameIsSound(plugins, n);
      var j :| 0 <= j < |plugins| && plugins[j] == m[n];
    }
  }

  /** The dependency is listed by a plugin of that name and is not loaded. */
  ghost predicate Lost(plugins: seq<Plugin>, name: Name, dep: Name) {
    dep !in ByName(plugins) && exists j :: 0 <= j < |plugins| && plugins[j].name == name && dep in plugins[j].dependsOn
  }

  method BuildGraph(plugins: seq<Plugin>)
    returns (missing: seq<Name>, graph: map<Name, seq<Name>>, inDegree: map<Name, int>)
    requires UniqueNames(plugins)
    ensures missing == [] <==> AllPresent(plugins)
    ensures missing != [] ==> |missing| == 2 && Lost(plugins, missing[0], missing[1])
    ensures missing == [] ==> graph.Keys == ByName(plugins).Keys && GraphBuilt(plugins, |plugins|, graph)
    ensures missing == [] ==> DegreesCountOpen(ByName(plugins), {}, inDegree)
  {
    hide GraphBuilt, DegreesCountOpen, UniqueNames, AllPresent, DegreesBuilt, Satisfied, ByName, Lost, Linked, Names;
    var m := ByName(plugins);
    graph := map n | n in m :: [];
    inDegree := map n | n in m :: 0;
    NamesAreKeys(plugins);
    PresentByPosition(plugins);
    EmptyGraphBuilt(plugins, graph);
    EmptyDegreesBuilt(plugins, inDegree);
    for i := 0 to |plugins|
      invariant graph.Keys == m.Keys && inDegree.Keys == m.Keys
      invariant GraphBuilt(plugins, i, graph) && DegreesBuilt(plugins, i, inDegree)
      invariant forall j :: 0 <= j < i ==> Satisfied(plugins[j], m.Keys)
    {
      var lost, graph', inDegree' := EnterDependencies(plugins[i], graph, inDegree);
      if lost != [] {
        LostAt(plugins, i, lost[0]);
        return [plugins[i].name, lost[0]], graph, inDegree;
      }
      EnteringBuilds(plugins, i, graph, graph');
      DegreesStep(plugins, i, inDegree);
      graph, inDegree := graph', inDegree';
    }
    DegreesStart(plugins, inDegree);
    return [], graph, inDegree;
  }

  lemma LostAt(plugins: seq<Plugin>, i: nat, dep: Name)
    requires i < |plugins| && dep in plugins[i].dependsOn && dep !in ByName(plugins)
    ensures Lost(plugins, plugins[i].name, dep)
  {
  }

  lemma NamesAreKeys(plugins: seq<Plugin>)
    requires UniqueNames(plugins)
    ensures forall j :: 0 <= j < |plugins| ==> plugins[j].name in ByName(plugins)
  {
  }

  lemma EmptyDegreesBuilt(plugins: seq<Plugin>, inDegree: map<Name, int>)
    requires forall j :: 0 <= j < |plugins| ==> plugins[j].name in inDegree
    requires forall n :: n in inDegree ==> inDegree[n] == 0
    ensures DegreesBuilt(plugins, 0, inDegree)
  {
  }

  lemma EmptyGraphBuilt(plugins: seq<Plugin>, graph: map<Name, seq<Name>>)
    requires forall d :: d in graph ==> graph[d] == []
    ensures GraphBuilt(plugins, 0, graph)
  {
  }

  lemma DegreesStep(plugins: seq<Plugin>, i: nat, inDegree: map<Name, int>)
    requires UniqueNames(plugins) && i < |plugins| && DegreesBuilt(plugins, i, inDegree)
    ensures DegreesBuilt(plugins, i + 1, inDegree[plugins[i].name := inDegree[plugins[i].name] + |plugins[i].dependsOn|])
  {
  }

  /** Degrees are lowered by the occurrences, and the queue gained exactly the names that reached zero. */
  ghost predicate Released(dependents: seq<Name>, inDegree: map<Name, int>, queue: seq<Name>,
                           inDegree': map<Name, int>, queue': seq<Name>) {
    && inDegree'.Keys == inDegree.Keys
    && (forall n :: n in inDegree ==> inDegree'[n] == inDegree[n] - Occurrences(dependents, n))
    && (forall n :: Occurrences(queue', n) == Occurrences(queue, n)
                    + if n in inDegree && 0 < Occurrences(dependents, n) == inDegree[n] then 1 else 0)
  }

  /** Every dependent has a degree, and enough of it. */
  ghost predicate Releasable(dependents: seq<Name>, inDegree: map<Name, int>) {
    && (forall n :: n in dependents ==> n in inDegree)
    && (forall n :: n in inDegree ==> Occurrences(dependents, n) <= inDegree[n])
  }

  /** Lowers the degree of every dependent of an emitted node; those that reach zero join the queue. */
  method ReleaseDependents(dependents: seq<Name>, inDegree: map<Name, int>, queue: seq<Name>)
    returns (inDegree': map<Name, int>, queue': seq<Name>)
    requires Releasable(dependents, inDegree)
    ensures Released(dependents, inDegree, queue, inDegree', queue')
    ensures dependents == [] ==> queue' == queue
  {
    hide Released, Occurrences;
    inDegree', queue' := inDegree, queue;
    NoneReleased(inDegree, queue);
    for k := 0 to |dependents|
      invariant inDegree'.Keys == inDegree.Keys
      invariant Released(dependents[..k], inDegree, queue, inDegree', queue')
      invariant k == 0 ==> queue' == queue
    {
      var neighbor := dependents[k];
      OneMoreReleased(dependents, k, inDegree, queue, inDegree', queue');
      inDegree' := inDegree'[neighbor := inDegree'[neighbor] - 1];
      if inDegree'[neighbor] == 0 {
        queue' := queue' + [neighbor];
      }
    }
    assert dependents[..|dependents|] == dependents;
  }

  lemma NoneReleased(inDegree: map<Name, int>, queue: seq<Name>)
    ensures Released([], inDegree, queue, inDegree, queue)
  {
  }

  lemma OneMoreReleased(dependents: seq<Name>, k: nat, inDegree: map<Name, int>, queue: seq<Name>,
                        inDegree': map<Name, int>, queue': seq<Name>)
    requires k < |dependents| && Releasable(dependents, inDegree)
    requires Released(dependents[..k], inDegree, queue, inDegree', queue')
    ensures dependents[k] in inDegree'
    ensures var next := inDegree'[dependents[k] := inDegree'[dependents[k]] - 1];
            Released(dependents[..k + 1], inDegree, queue, next, if next[dependents[k]] == 0 then queue' + [dependents[k]] else queue')
  {
    assert dependents[..k + 1][..k] == dependents[..k];
    PrefixOccurrences(dependents, k + 1, dependents[k]);
    assert (queue' + [dependents[k]])[..|queue'|] == queue';
  }

  lemma PrefixOccurrences(xs: seq<Name>, k: nat, x: Name)
    requires k <= |xs|
    ensures Occurrences(xs[..k], x) <= Occurrences(xs, x)
  {
    assert xs == xs[..k] + xs[k..];
    OccurrencesAppend(xs[..k], xs[k..], x);
  }

  function NameKey(m: Plugins): Name -> Key {
    n => if n in m then PluginKey(m[n]) else (0, 0)
  }

  function Names(plugins: seq<Plugin>): (names: seq<Name>)
    ensures |names| == |plugins| && forall i :: 0 <= i < |plugins| ==> names[i] == plugins[i].name
  {
    seq(|plugins|, i requires 0 <= i < |plugins| => plugins[i].name)
  }

  /** Emitted plugins have no open dependency. */
  ghost predicate DoneIsClosed(m: Plugins, done: set<Name>) {
    done <= m.Keys && forall n :: n in done ==> OpenCount(m[n].dependsOn, done) == 0
  }

  /** The head of the sorted queue is a least ready plugin. */
  lemma HeadIsLeast(m: Plugins, done: set<Name>, queue: seq<Name>)
    requires QueueHoldsReady(m, done, queue) && queue != []
    ensures var s := StableSort(queue, NameKey(m));
            LeastReady(m, done, s[0]) && QueueHoldsReady(m, done, s)
  {
    var s := StableSort(queue, NameKey(m));
    StableSortIsSorted(queue, NameKey(m));
    forall n
      ensures Occurrences(s, n) == Occurrences(queue, n)
    {
      OccurrencesAreMultiplicity(s, n);
      OccurrencesAreMultiplicity(queue, n);
    }
    OccursIffMember(s, s[0]);
    forall n | IsReady(m, done, n)
      ensures KeyLe(PluginKey(m[s[0]]), PluginKey(m[n]))
    {
      OccursIffMember(s, n);
      var i :| 0 <= i < |s| && s[i] == n;
      assert KeyLe(NameKey(m)(s[0]), NameKey(m)(s[i]));
    }
  }

  lemma PoppedOccurrences(s: seq<Name>, n: Name)
    requires s != []
    ensures Occurrences(s[1..], n) == Occurrences(s, n) - if n == s[0] then 1 else 0
  {
    assert s == [s[0]] + s[1..];
    OccurrencesAppend([s[0]], s[1..], n);
    assert [s[0]][..0] == [];
  }

  lemma DependentsOfName(plugins: seq<Plugin>, d: Name, n: Name)
    requires UniqueNames(plugins)
    ensures n in ByName(plugins) ==> Occurrences(Dependents(plugins, d), n) == Occurrences(ByName(plugins)[n].dependsOn, d)
    ensures n !in ByName(plugins) ==> Occurrences(Dependents(plugins, d), n) == 0
  {
    if n in ByName(plugins) {
      ByNameIsSound(plugins, n);
      DependentsCount(plugins, d, ByName(plugins)[n]);
    } else {
      NamesAreKeys(plugins);
      NoOtherDependents(plugins, d, n);
    }
  }

  /** Emitting a node: the degrees count what is still open, and the queue holds what is now ready. */
  lemma ReleaseKeepsQueue(plugins: seq<Plugin>, done: set<Name>, s: seq<Name>, inDegree: map<Name, int>, n: Name,
                          degree: int, occurs: nat)
    requires UniqueNames(plugins)
    requires var m := ByName(plugins);
             QueueHoldsReady(m, done, s) && s != [] && DegreesCountOpen(m, done, inDegree) && DoneIsClosed(m, done)
    requires s[0] !in done
    requires var l := Occurrences(Dependents(plugins, s[0]), n);
             && (n in inDegree ==> degree == inDegree[n] - l)
             && occurs == Occurrences(s[1..], n) + if n in inDegree && 0 < l == inDegree[n] then 1 else 0
    ensures var m := ByName(plugins);
            && (n in m ==> degree == OpenCount(m[n].dependsOn, done + {s[0]}))
            && occurs == if IsReady(m, done + {s[0]}, n) then 1 else 0
  {
    var m := ByName(plugins);
    PoppedOccurrences(s, n);
    DependentsOfName(plugins, s[0], n);
    if n in m {
      OneMoreDone(m[n].dependsOn, done, s[0]);
    }
  }

  lemma DoneStaysClosed(m: Plugins, done: set<Name>, node: Name)
    requires DoneIsClosed(m, done) && IsReady(m, done, node)
    ensures DoneIsClosed(m, done + {node})
  {
    forall n | n in done + {node}
      ensures OpenCount(m[n].dependsOn, done + {node}) == 0
    {
      OneMoreDone(m[n].dependsOn, done, node);
    }
  }

  /** The names with degree zero, in load order. */
  method InitialQueue(plugins: seq<Plugin>, inDegree: map<Name, int>) returns (queue: seq<Name>)
    requires UniqueNames(plugins) && DegreesCountOpen(ByName(plugins), {}, inDegree)
    ensures QueueHoldsReady(ByName(plugins), {}, queue)
    ensures NoDependencies(plugins) ==> queue == Names(plugins)[0..]
  {
    var m := ByName(plugins);
    NamesAreKeys(plugins);
    assert inDegree.Keys == m.Keys;
    hide DegreesCountOpen, IsReady, QueueHoldsReady;
    queue := [];
    for i := 0 to |plugins|
      invariant forall n :: Occurrences(queue, n) == if IsReady(m, {}, n) && n in Names(plugins)[..i] then 1 else 0
      invariant NoDependencies(plugins) ==> queue == Names(plugins)[..i]
    {
      var name := plugins[i].name;
      assert Names(plugins)[..i + 1] == Names(plugins)[..i] + [name];
      ReadyAtStart(plugins, inDegree, i);
      if inDegree[name] == 0 {
        assert (queue + [name])[..|queue|] == queue;
        queue := queue + [name];
      }
    }
    assert Names(plugins)[..|plugins|] == Names(plugins) == Names(plugins)[0..];
    QueueIsComplete(plugins, queue);
  }

  lemma ReadyAtStart(plugins: seq<Plugin>, inDegree: map<Name, int>, i: nat)
    requires UniqueNames(plugins) && DegreesCountOpen(ByName(plugins), {}, inDegree) && i < |plugins|
    ensures plugins[i].name in inDegree
    ensures IsReady(ByName(plugins), {}, plugins[i].name) <==> inDegree[plugins[i].name] == 0
    ensures plugins[i].dependsOn == [] ==> inDegree[plugins[i].name] == 0
    ensures plugins[i].name !in Names(plugins)[..i]
  {
    ByNameFinds(plugins, plugins[i]);
  }

  lemma QueueIsComplete(plugins: seq<Plugin>, queue: seq<Name>)
    requires UniqueNames(plugins)
    requires forall n :: Occurrences(queue, n) == if IsReady(ByName(plugins), {}, n) && n in Names(plugins) then 1 else 0
    ensures QueueHoldsReady(ByName(plugins), {}, queue)
  {
    forall n
      ensures n in Names(plugins) <==> n in ByName(plugins)
    {
      NamesAreAll(plugins, n);
    }
  }

  /** What the loop variables mean between two emissions. */
  ghost predicate LoopInv(plugins: seq<Plugin>, sorted: seq<Name>, queue: seq<Name>, inDegree: map<Name, int>) {
    var m, done := ByName(plugins), Elements(sorted);
    && GreedyOrder(m, sorted) && DoneIsClosed(m, done)
    && QueueHoldsReady(m, done, queue) && DegreesCountOpen(m, done, inDegree)
  }

  lemma DependentsAreReleasable(plugins: seq<Plugin>, done: set<Name>, node: Name, inDegree: map<Name, int>)
    requires UniqueNames(plugins) && DegreesCountOpen(ByName(plugins), done, inDegree) && node !in done
    ensures Releasable(Dependents(plugins, node), inDegree)
  {
    var m := ByName(plugins);
    forall n
      ensures n in Dependents(plugins, node) ==> n in inDegree
      ensures n in inDegree ==> Occurrences(Dependents(plugins, node), n) <= inDegree[n]
    {
      DependentsOfName(plugins, node, n);
      OccursIffMember(Dependents(plugins, node), n);
      if n in m {
        OneMoreDone(m[n].dependsOn, done, node);
      }
    }
  }

  lemma ReleaseKeepsAll(plugins: seq<Plugin>, done: set<Name>, s: seq<Name>, inDegree: map<Name, int>,
                        inDegree': map<Name, int>, queue': seq<Name>)
    requires UniqueNames(plugins)
    requires var m := ByName(plugins);
             QueueHoldsReady(m, done, s) && s != [] && DegreesCountOpen(m, done, inDegree) && DoneIsClosed(m, done)
    requires s[0] !in done && Released(Dependents(plugins, s[0]), inDegree, s[1..], inDegree', queue')
    ensures DegreesCountOpen(ByName(plugins), done + {s[0]}, inDegree')
    ensures QueueHoldsReady(ByName(plugins), done + {s[0]}, queue')
  {
    hide OpenCount, IsReady, UniqueNames;
    var m := ByName(plugins);
    forall n
      ensures n in m ==> inDegree'[n] == OpenCount(m[n].dependsOn, done + {s[0]})
      ensures Occurrences(queue', n) == if IsReady(m, done + {s[0]}, n) then 1 else 0
    {
      ReleaseKeepsQueue(plugins, done, s, inDegree, n, if n in inDegree then inDegree'[n] else 0, Occurrences(queue', n));
    }
  }

  /** Emits the head of the sorted queue and releases its dependents. */
  method EmitNext(plugins: seq<Plugin>, m: Plugins, graph: map<Name, seq<Name>>, sorted: seq<Name>,
                  queue: seq<Name>, inDegree: map<Name, int>)
    returns (sorted': seq<Name>, queue': seq<Name>, inDegree': map<Name, int>)
    requires UniqueNames(plugins) && m == ByName(plugins) && graph.Keys == m.Keys && GraphBuilt(plugins, |plugins|, graph)
    requires LoopInv(plugins, sorted, queue, inDegree) && queue != []
    ensures LoopInv(plugins, sorted', queue', inDegree')
    ensures sorted' == sorted + [StableSort(queue, NameKey(m))[0]]
    ensures sorted'[|sorted|] in graph
    ensures graph[sorted'[|sorted|]] == [] ==> queue' == StableSort(queue, NameKey(m))[1..]
  {
    hide GreedyOrder, UniqueNames, QueueHoldsReady, DegreesCountOpen, DoneIsClosed, OpenCount, Releasable, Released, StableSort;
    ghost var done := Elements(sorted);
    var s := StableSort(queue, NameKey(m));
    HeadIsLeast(m, done, queue);
    var node := s[0];
    assert plugins[..|plugins|] == plugins;
    DependentsAreReleasable(plugins, done, node, inDegree);
    inDegree', queue' := ReleaseDependents(graph[node], inDegree, s[1..]);
    ReleaseKeepsAll(plugins, done, s, inDegree, inDegree', queue');
    GreedyExtends(m, sorted, node);
    DoneStaysClosed(m, done, node);
    sorted' := sorted + [node];
    assert Elements(sorted') == done + {node};
  }

  // ---------- The result ----------

  ghost predicate NoDependencies(plugins: seq<Plugin>) {
    forall p :: p in plugins ==> p.dependsOn == []
  }

  /** The plugins of the given names. */
  function Named(m: Plugins, names: seq<Name>): (ps: seq<Plugin>)
    requires forall n :: n in names ==> n in m
    ensures |ps| == |names| && forall i :: 0 <= i < |names| ==> names[i] in m && ps[i] == m[names[i]]
  {
    seq(|names|, i requires 0 <= i < |names| => m[names[i]])
  }

  ghost predicate Permutes(r: seq<Plugin>, plugins: seq<Plugin>) {
    |r| == |plugins| && forall p :: p in r <==> p in plugins
  }

  lemma AllEmitted(plugins: seq<Plugin>, sorted: seq<Name>)
    requires UniqueNames(plugins) && GreedyOrder(ByName(plugins), sorted)
    ensures |sorted| <= |plugins| && Elements(sorted) <= ByName(plugins).Keys
    ensures |sorted| == |plugins| <==> Elements(sorted) == ByName(plugins).Keys
  {
    hide GreedyOrder;
    GreedyCount(ByName(plugins), sorted, |sorted|);
    assert sorted[..|sorted|] == sorted;
    NameCount(plugins);
    var names, all := Elements(sorted), ByName(plugins).Keys;
    assert all == names + (all - names);
    assert |all| == |names| + |all - names|;
  }

  lemma NamedPermutes(plugins: seq<Plugin>, sorted: seq<Name>)
    requires UniqueNames(plugins) && |sorted| == |plugins| && Elements(sorted) == ByName(plugins).Keys
    requires forall n :: n in sorted ==> n in ByName(plugins)
    ensures Permutes(Named(ByName(plugins), sorted), plugins) && Names(Named(ByName(plugins), sorted)) == sorted
  {
    var m := ByName(plugins);
    var r := Named(m, sorted);
    forall p
      ensures p in r <==> p in plugins
    {
      if p in plugins {
        ByNameFinds(plugins, p);
        assert p.name in sorted;
        var i :| 0 <= i < |sorted| && sorted[i] == p.name;
        assert r[i] == p;
      }
      if p in r {
        var i :| 0 <= i < |r| && r[i] == p;
        ByNameIsSound(plugins, sorted[i]);
      }
    }
    forall i | 0 <= i < |sorted|
      ensures r[i].name == sorted[i]
    {
      ByNameIsSound(plugins, sorted[i]);
    }
  }

  /** Without dependencies, sorting the rest of a pre-sorted list of names changes nothing. */
  lemma PresortedQueueStays(plugins: seq<Plugin>, k: nat)
    requires UniqueNames(plugins) && SortedBy(plugins, PluginKey) && k <= |plugins|
    ensures StableSort(Names(plugins)[k..], NameKey(ByName(plugins))) == Names(plugins)[k..]
  {
  }

  lemma {:induction false} NoDependents(plugins: seq<Plugin>, d: Name)
    requires NoDependencies(plugins)
    ensures Dependents(plugins, d) == []
  {
    if plugins != [] {
      var init, last := plugins[..|plugins| - 1], plugins[|plugins| - 1];
      assert last in plugins && forall p :: p in init ==> p in plugins;
      NoDependents(init, d);
    }
  }

  /** The order the plugins run in. It exists exactly when all dependencies are loaded and acyclic; it is a
      permutation in which every plugin was, when its turn came, the least by (phase, priority) of those whose
      dependencies had all come before; and a pre-sorted list without dependencies is left as it is. */
  method ValidateDependencies(plugins: seq<Plugin>) returns (result: LoadResult)
    requires UniqueNames(plugins)
    ensures !result.Duplicate?
    ensures result.Ordered? <==> AllPresent(plugins) && !Cyclic(DependencyGraph(plugins))
    ensures result.Circular? <==> AllPresent(plugins) && Cyclic(DependencyGraph(plugins))
    ensures result.Circular? ==> WaitsWithin(ByName(plugins), result.remaining)
    ensures result.Missing? ==> Lost(plugins, result.plugin, result.dependency)
    ensures result.Ordered? ==> Permutes(result.plugins, plugins) && GreedyOrder(ByName(plugins), Names(result.plugins))
    ensures result.Ordered? && NoDependencies(plugins) && SortedBy(plugins, PluginKey) ==> result.plugins == plugins
  {
    hide GreedyOrder, QueueHoldsReady, DegreesCountOpen, DoneIsClosed, Cyclic, AllPresent, StableSort, GraphBuilt,
      UniqueNames, SortedBy, NoDependencies, ByName, WaitsWithin, Lost;
    var m := ByName(plugins);
    var missing, graph, inDegree := BuildGraph(plugins);
    if missing != [] {
      return Missing(missing[0], missing[1]);
    }
    var sorted: seq<Name> := [];
    var queue := InitialQueue(plugins, inDegree);
    LoopStarts(plugins, queue, inDegree);
    ghost var plain := NoDependencies(plugins) && SortedBy(plugins, PluginKey);
    while queue != []
      invariant LoopInv(plugins, sorted, queue, inDegree)
      invariant |sorted| <= |plugins|
      invariant plain ==> sorted == Names(plugins)[..|sorted|] && queue == Names(plugins)[|sorted|..]
      decreases |plugins| - |sorted|
    {
      ghost var k := |sorted|;
      if plain {
        PresortedQueueStays(plugins, k);
      }
      sorted, queue, inDegree := EmitNext(plugins, m, graph, sorted, queue, inDegree);
      AllEmitted(plugins, sorted);
      if plain {
        PlainGraph(plugins, graph, sorted[k]);
      }
    }
    AllEmitted(plugins, sorted);
    if |sorted| != |plugins| {
      EmptyQueueMeansStuck(m, Elements(sorted), queue);
      StuckIsCyclic(plugins, Elements(sorted));
      var remaining := Leftovers(plugins, sorted);
      return Circular(remaining);
    }
    EmittedAllIsAcyclic(plugins, sorted);
    assert forall n :: n in sorted ==> n in Elements(sorted);
    NamedPermutes(plugins, sorted);
    if plain {
      PlainResult(plugins, sorted);
    }
    return Ordered(Named(m, sorted));
  }

  /** The names not emitted, in load order, when nothing is ready any more. */
  method Leftovers(plugins: seq<Plugin>, sorted: seq<Name>) returns (remaining: seq<Name>)
    requires UniqueNames(plugins) && AllPresent(plugins) && Elements(sorted) < ByName(plugins).Keys
    requires forall n :: !IsReady(ByName(plugins), Elements(sorted), n)
    ensures WaitsWithin(ByName(plugins), remaining)
    ensures forall n :: n in remaining <==> n in Names(plugins) && n !in sorted
  {
    hide UniqueNames, AllPresent, ByName, IsReady, WaitsWithin;
    remaining := [];
    for i := 0 to |plugins|
      invariant forall n :: n in remaining <==> n in Names(plugins)[..i] && n !in sorted
    {
      assert Names(plugins)[..i + 1] == Names(plugins)[..i] + [plugins[i].name];
      if plugins[i].name !in sorted {
        remaining := remaining + [plugins[i].name];
      }
    }
    assert Names(plugins)[..|plugins|] == Names(plugins);
    RemainingIsStuck(plugins, Elements(sorted), remaining);
  }

  ghost predicate WaitsFor(p: Plugin, names: seq<Name>) {
    exists d :: d in p.dependsOn && d in names
  }

  /** Each plugin left over waits for another one left over. */
  ghost predicate WaitsWithin(m: Plugins, remaining: seq<Name>) {
    remaining != [] && forall n :: n in remaining ==> n in m && WaitsFor(m[n], remaining)
  }

  lemma NamesAreAll(plugins: seq<Plugin>, n: Name)
    requires UniqueNames(plugins)
    ensures n in Names(plugins) <==> n in ByName(plugins)
  {
  }

  lemma OneWaits(plugins: seq<Plugin>, done: set<Name>, n: Name) returns (d: Name)
    requires AllPresent(plugins) && n in ByName(plugins) && n !in done && !IsReady(ByName(plugins), done, n)
    ensures d in ByName(plugins)[n].dependsOn && d in ByName(plugins) && d !in done
  {
    var m := ByName(plugins);
    NoneOpen(m[n].dependsOn, done);
    d :| d in m[n].dependsOn && d !in done;
    assert n in DependencyGraph(plugins) && d in DependencyGraph(plugins)[n];
  }

  lemma LeftOverWaits(plugins: seq<Plugin>, done: set<Name>, remaining: seq<Name>, n: Name)
    requires UniqueNames(plugins) && AllPresent(plugins)
    requires n in Names(plugins) && n !in done && !IsReady(ByName(plugins), done, n)
    requires forall d :: d in Names(plugins) && d !in done ==> d in remaining
    ensures n in ByName(plugins) && WaitsFor(ByName(plugins)[n], remaining)
  {
    hide AllPresent, UniqueNames, IsReady, Names, ByName, DependencyGraph;
    NamesAreAll(plugins, n);
    var d := OneWaits(plugins, done, n);
    NamesAreAll(plugins, d);
    assert d in remaining;
  }

  lemma RemainingIsStuck(plugins: seq<Plugin>, done: set<Name>, remaining: seq<Name>)
    requires UniqueNames(plugins) && AllPresent(plugins) && done < ByName(plugins).Keys
    requires forall n :: !IsReady(ByName(plugins), done, n)
    requires forall n :: n in remaining <==> n in Names(plugins) && n !in done
    ensures WaitsWithin(ByName(plugins), remaining)
  {
    hide AllPresent, UniqueNames, IsReady, Names, ByName, WaitsFor;
    var x :| x in ByName(plugins).Keys && x !in done;
    NamesAreAll(plugins, x);
    assert x in remaining;
    forall n | n in remaining
      ensures n in ByName(plugins) && WaitsFor(ByName(plugins)[n], remaining)
    {
      LeftOverWaits(plugins, done, remaining, n);
    }
  }

  lemma LoopStarts(plugins: seq<Plugin>, queue: seq<Name>, inDegree: map<Name, int>)
    requires QueueHoldsReady(ByName(plugins), {}, queue) && DegreesCountOpen(ByName(plugins), {}, inDegree)
    ensures LoopInv(plugins, [], queue, inDegree)
  {
    assert Elements([]) == {};
  }

  lemma PlainGraph(plugins: seq<Plugin>, graph: map<Name, seq<Name>>, d: Name)
    requires NoDependencies(plugins) && GraphBuilt(plugins, |plugins|, graph) && d in graph
    ensures graph[d] == []
  {
    assert plugins[..|plugins|] == plugins;
    NoDependents(plugins, d);
  }

  lemma EmptyQueueMeansStuck(m: Plugins, done: set<Name>, queue: seq<Name>)
    requires QueueHoldsReady(m, done, queue) && queue == []
    ensures forall n :: !IsReady(m, done, n)
  {
  }

  lemma PlainResult(plugins: seq<Plugin>, sorted: seq<Name>)
    requires UniqueNames(plugins) && sorted == Names(plugins) && forall n :: n in sorted ==> n in ByName(plugins)
    ensures Named(ByName(plugins), sorted) == plugins
  {
    forall i | 0 <= i < |plugins|
      ensures Named(ByName(plugins), sorted)[i] == plugins[i]
    {
      ByNameFinds(plugins, plugins[i]);
    }
  }

  lemma OccurrencesOfLast(a: seq<Plugin>, p: Plugin, n: Name)
    ensures Occurrences(Names(a + [p]), n) == Occurrences(Names(a), n) + if p.name == n then 1 else 0
  {
    assert Names(a + [p]) == Names(a) + [p.name];
    assert (Names(a) + [p.name])[..|a|] == Names(a);
  }

  lemma {:induction false} InsertNames(ys: seq<Plugin>, x: Plugin, n: Name)
    ensures Occurrences(Names(Insert(ys, x, PluginKey)), n) == Occurrences(Names(ys), n) + if x.name == n then 1 else 0
  {
    OccurrencesOfLast(ys, x, n);
    if ys == [] {
      assert ys + [x] == [x];
    } else {
      var k := |ys| - 1;
      assert ys == ys[..k] + [ys[k]];
      OccurrencesOfLast(ys[..k], ys[k], n);
      InsertNames(ys[..k], x, n);
      OccurrencesOfLast(Insert(ys[..k], x, PluginKey), ys[k], n);
    }
  }

  lemma {:induction false} SortNames(a: seq<Plugin>, n: Name)
    ensures Occurrences(Names(StableSort(a, PluginKey)), n) == Occurrences(Names(a), n)
  {
    if a != [] {
      var k := |a| - 1;
      assert a == a[..k] + [a[k]];
      SortNames(a[..k], n);
      InsertNames(StableSort(a[..k], PluginKey), a[k], n);
      OccurrencesOfLast(a[..k], a[k], n);
    } else {
      assert StableSort(a, PluginKey) == a;
    }
  }

  ghost predicate OccurOnce(names: seq<Name>) {
    forall n :: Occurrences(names, n) <= 1
  }

  lemma {:induction false} UniqueOccursOnce(a: seq<Plugin>, n: Name)
    requires UniqueNames(a)
    ensures Occurrences(Names(a), n) <= 1
  {
    if a != [] {
      var init, last := a[..|a| - 1], a[|a| - 1];
      assert a == init + [last];
      UniqueOccursOnce(init, n);
      OccurrencesOfLast(init, last, n);
      OccursIffMember(Names(init), n);
      assert last.name !in Names(init);
    }
  }

  lemma {:induction false} OnceIsUnique(a: seq<Plugin>)
    requires OccurOnce(Names(a))
    ensures UniqueNames(a)
  {
    if a != [] {
      var init, last := a[..|a| - 1], a[|a| - 1];
      assert a == init + [last];
      forall n
        ensures Occurrences(Names(init), n) <= if n == last.name then 0 else 1
      {
        OccurrencesOfLast(init, last, n);
      }
      OnceIsUnique(init);
      OccursIffMember(Names(init), last.name);
      forall i | 0 <= i < |init|
        ensures a[i].name != last.name
      {
        assert Names(init)[i] in Names(init);
      }
    }
  }

  lemma SortKeepsUnique(a: seq<Plugin>)
    ensures UniqueNames(StableSort(a, PluginKey)) <==> UniqueNames(a)
  {
    hide UniqueNames, StableSort;
    var s := StableSort(a, PluginKey);
    forall n
      ensures Occurrences(Names(s), n) == Occurrences(Names(a), n)
    {
      SortNames(a, n);
    }
    if UniqueNames(a) {
      forall n
        ensures Occurrences(Names(s), n) <= 1
      {
        UniqueOccursOnce(a, n);
      }
      OnceIsUnique(s);
    }
    if UniqueNames(s) {
      forall n
        ensures Occurrences(Names(a), n) <= 1
      {
        UniqueOccursOnce(s, n);
      }
      OnceIsUnique(a);
    }
  }

  // ---------- The order in plain words ----------

  /** `p` may come before `q`: phase "pre" is first, "post" last, every other phase between them, and within
      these three classes the lower priority is first. */
  ghost predicate MayPrecede(p: Plugin, q: Plugin) {
    && (q.phase == "pre" ==> p.phase == "pre")
    && (p.phase == "post" ==> q.phase == "post")
    && ((p.phase == "pre" <==> q.phase == "pre") && (p.phase == "post" <==> q.phase == "post") ==> p.priority <= q.priority)
  }

  lemma KeysAreInPlainWords(p: Plugin, q: Plugin)
    ensures KeyLe(PluginKey(p), PluginKey(q)) <==> MayPrecede(p, q)
  {
  }

  /** Every plugin comes after all it depends on. */
  ghost predicate DependenciesFirst(r: seq<Plugin>) {
    forall i, d :: 0 <= i < |r| && d in r[i].dependsOn ==> d in Names(r)[..i]
  }

  /** Every plugin may precede the later ones that could have come in its place. */
  ghost predicate NobodyOvertaken(r: seq<Plugin>) {
    forall i, j :: 0 <= i < j < |r| && (forall d :: d in r[j].dependsOn ==> d in Names(r)[..i]) ==> MayPrecede(r[i], r[j])
  }

  lemma GreedyInPlainWords(plugins: seq<Plugin>, r: seq<Plugin>)
    requires UniqueNames(plugins) && Permutes(r, plugins) && GreedyOrder(ByName(plugins), Names(r))
    ensures DependenciesFirst(r) && NobodyOvertaken(r)
  {
    hide UniqueNames, GreedyOrder, OpenCount, MayPrecede, ByName;
    var m, names := ByName(plugins), Names(r);
    forall i | 0 <= i < |r|
      ensures names[i] in m && m[names[i]] == r[i] && names[i] !in names[..i]
      ensures forall d :: d in r[i].dependsOn ==> d in names[..i]
    {
      assert r[i] in r;
      ByNameFinds(plugins, r[i]);
      GreedyIsTopological(m, names, i);
    }
    forall i, j | 0 <= i < j < |r| && (forall d :: d in r[j].dependsOn ==> d in names[..i])
      ensures MayPrecede(r[i], r[j])
    {
      assert names[..i] <= names[..j];
      GreedyBefore(m, names, i, j);
      KeysAreInPlainWords(r[i], r[j]);
    }
  }

  lemma GreedyBefore(m: Plugins, names: seq<Name>, i: nat, j: nat)
    requires GreedyOrder(m, names) && i < j < |names| && names[j] in m && names[j] !in names[..j]
    requires forall d :: d in m[names[j]].dependsOn ==> d in names[..i]
    ensures names[i] in m && KeyLe(PluginKey(m[names[i]]), PluginKey(m[names[j]]))
  {
    hide PluginKey, KeyLe;
    var done := Elements(names[..i]);
    NoneOpen(m[names[j]].dependsOn, done);
    assert names[..i] == names[..j][..i];
    assert IsReady(m, done, names[j]);
    assert LeastReady(m, done, names[i]);
  }

  lemma SamePlugins(a: seq<Plugin>, b: seq<Plugin>)
    requires multiset(a) == multiset(b)
    ensures |a| == |b| && forall p :: p in a <==> p in b
  {
    assert |multiset(a)| == |a| && |multiset(b)| == |b|;
    assert forall p :: p in a <==> p in multiset(a);
    assert forall p :: p in b <==> p in multiset(b);
  }

  /** Without dependencies nobody is overtaken by anybody. */
  lemma PlainOrder(r: seq<Plugin>)
    requires NobodyOvertaken(r) && NoDependencies(r)
    ensures forall i, j :: 0 <= i < j < |r| ==> MayPrecede(r[i], r[j])
  {
    hide MayPrecede;
    forall i, j | 0 <= i < j < |r|
      ensures MayPrecede(r[i], r[j])
    {
      assert r[j] in r && r[j].dependsOn == [];
    }
  }

  /** Sorting and checking the initialized plugins, as the loader does at its end. */
  method OrderPlugins(active: seq<Plugin>) returns (result: LoadResult)
    ensures result.Duplicate? <==> !UniqueNames(active)
    ensures UniqueNames(active) ==>
              (result.Ordered? <==> AllPresent(StableSort(active, PluginKey)) && !Cyclic(DependencyGraph(StableSort(active, PluginKey))))
    ensures result.Ordered? ==> Permutes(result.plugins, StableSort(active, PluginKey))
                                && multiset(StableSort(active, PluginKey)) == multiset(active)
    ensures result.Ordered? ==> GreedyOrder(ByName(StableSort(active, PluginKey)), Names(result.plugins))
    ensures result.Ordered? && NoDependencies(active) ==> result.plugins == StableSort(active, PluginKey)
    ensures result.Ordered? ==> |result.plugins| == |active| && forall p :: p in result.plugins <==> p in active
    ensures result.Ordered? ==> DependenciesFirst(result.plugins) && NobodyOvertaken(result.plugins)
    ensures result.Ordered? && (forall p :: p in active ==> p.dependsOn == []) ==>
              forall i, j :: 0 <= i < j < |result.plugins| ==> MayPrecede(result.plugins[i], result.plugins[j])
  {
    hide GreedyOrder, Cyclic, AllPresent, StableSort, MayPrecede, DependenciesFirst, NobodyOvertaken;
    var sorted := StableSort(active, PluginKey);
    StableSortIsSorted(active, PluginKey);
    SortKeepsUnique(active);
    var seen: set<Name> := {};
    for i := 0 to |sorted|
      invariant seen == set j | 0 <= j < i :: sorted[j].name
      invariant UniqueNames(sorted[..i])
    {
      if sorted[i].name in seen {
        return Duplicate(sorted[i].name);
      }
      seen := seen + {sorted[i].name};
    }
    assert sorted[..|sorted|] == sorted;
    assert NoDependencies(active) ==> NoDependencies(sorted) by {
      SamePlugins(sorted, active);
    }
    result := ValidateDependencies(sorted);
    if result.Ordered? {
      SamePlugins(sorted, active);
      GreedyInPlainWords(sorted, result.plugins);
      if forall p :: p in active ==> p.dependsOn == [] {
        PlainOrder(result.plugins);
      }
    }
  }
}
