/** The bounded in-memory checkpoint store (runtime/checkpoint.py). */
module CheckpointStore {
  import opened Wrappers
  import opened StableSorting

  datatype RunId = RunId(text: string)

  /** `snapshot` stands for the rest of a checkpoint. */
  datatype Checkpoint = Checkpoint(runId: RunId, sequence: int, snapshot: int)

  function SequenceKey(c: Checkpoint): Key { (c.sequence, 0) }

  function LastOf<T>(xs: seq<T>, n: nat): seq<T> {
    if |xs| <= n then xs else xs[|xs| - n..]
  }

  /** The last `limit` elements, or all of them when the limit is not positive. */
  function Limited<T>(xs: seq<T>, limit: int): seq<T> {
    if limit > 0 then LastOf(xs, limit) else xs
  }

  /** What is kept of a run's saves: the greatest by sequence, and by arrival among equal sequences. */
  function Kept(saves: seq<Checkpoint>, limit: int): seq<Checkpoint> {
    Limited(StableSort(saves, SequenceKey), limit)
  }

  /** Keeping the greatest and then adding one gives the greatest of all. */
  lemma InsertAfterDropping(sorted: seq<Checkpoint>, c: Checkpoint, n: nat)
    requires n > 0
    ensures LastOf(Insert(LastOf(sorted, n), c, SequenceKey), n) == LastOf(Insert(sorted, c, SequenceKey), n)
  {
    if |sorted| > n {
      var k := |sorted| - n;
      assert sorted == sorted[..k] + sorted[k..];
      InsertIntoSuffix(sorted[..k], sorted[k..], c);
    }
  }

  lemma InsertBeforeLast(init: seq<Checkpoint>, last: Checkpoint, c: Checkpoint)
    ensures Insert(init + [last], c, SequenceKey) ==
              if KeyLe(SequenceKey(last), SequenceKey(c)) then init + [last] + [c] else Insert(init, c, SequenceKey) + [last]
  {
    assert (init + [last])[..|init|] == init;
  }

  lemma LastOfMore(xs: seq<Checkpoint>, x: Checkpoint, n: nat)
    ensures LastOf(xs + [x], n + 1) == LastOf(xs, n) + [x]
  {
  }

  lemma LastOfSuffix(a: seq<Checkpoint>, b: seq<Checkpoint>, n: nat)
    requires n <= |b|
    ensures LastOf(a + b, n) == LastOf(b, n)
  {
  }

  lemma {:induction false} InsertIntoSuffix(dropped: seq<Checkpoint>, suffix: seq<Checkpoint>, c: Checkpoint)
    ensures LastOf(Insert(dropped + suffix, c, SequenceKey), |suffix|) == LastOf(Insert(suffix, c, SequenceKey), |suffix|)
  {
    hide Insert, LastOf;
    var n := |suffix|;
    if n == 0 {
      LastOfNone(Insert(dropped + suffix, c, SequenceKey));
      LastOfNone(Insert(suffix, c, SequenceKey));
    } else {
      var init, last := suffix[..n - 1], suffix[n - 1];
      assert suffix == init + [last] && dropped + suffix == (dropped + init) + [last];
      InsertBeforeLast(dropped + init, last, c);
      InsertBeforeLast(init, last, c);
      if KeyLe(SequenceKey(last), SequenceKey(c)) {
        LastOfMore(dropped + suffix, c, n - 1);
        LastOfMore(suffix, c, n - 1);
        LastOfSuffix(dropped, suffix, n - 1);
      } else {
        InsertIntoSuffix(dropped, init, c);
        LastOfMore(Insert(dropped + init, c, SequenceKey), last, n - 1);
        LastOfMore(Insert(init, c, SequenceKey), last, n - 1);
      }
    }
  }

  lemma LastOfNone(xs: seq<Checkpoint>)
    ensures LastOf(xs, 0) == []
  {
  }

  lemma SuffixSorted(xs: seq<Checkpoint>, n: nat)
    requires SortedBy(xs, SequenceKey)
    ensures SortedBy(LastOf(xs, n), SequenceKey)
  {
  }

  /** Appending, sorting and truncating the kept list keeps what the full history calls for. */
  lemma KeptStep(saves: seq<Checkpoint>, c: Checkpoint, limit: int)
    ensures Limited(StableSort(Kept(saves, limit) + [c], SequenceKey), limit) == Kept(saves + [c], limit)
  {
    hide Insert;
    var sorted := StableSort(saves, SequenceKey);
    var kept := Kept(saves, limit);
    StableSortIsSorted(saves, SequenceKey);
    if limit > 0 {
      SuffixSorted(sorted, limit);
      InsertAfterDropping(sorted, c, limit);
    }
    SortedStaysPut(kept, SequenceKey);
    assert (saves + [c])[..|saves|] == saves && (kept + [c])[..|kept|] == kept;
  }

  lemma {:induction false} WithKeyConcat(a: seq<Checkpoint>, b: seq<Checkpoint>, k: Key)
    ensures WithKey(a + b, SequenceKey, k) == WithKey(a, SequenceKey, k) + WithKey(b, SequenceKey, k)
  {
    if b == [] {
      assert a + b == a;
    } else {
      assert (a + b)[..|a + b| - 1] == a + b[..|b| - 1];
      WithKeyConcat(a, b[..|b| - 1], k);
    }
  }

  /** The two parts a run's saves fall into. */
  ghost predicate Splits(saves: seq<Checkpoint>, dropped: seq<Checkpoint>, kept: seq<Checkpoint>) {
    && multiset(dropped) + multiset(kept) == multiset(saves)
    && SortedBy(kept, SequenceKey)
    && (forall i, j :: 0 <= i < |dropped| && 0 <= j < |kept| ==> dropped[i].sequence <= kept[j].sequence)
    && forall k :: WithKey(saves, SequenceKey, k) == WithKey(dropped, SequenceKey, k) + WithKey(kept, SequenceKey, k)
  }

  /** The kept checkpoints are the greatest: what is dropped has no greater sequence, and among equal
      sequences it arrived earlier. */
  lemma KeptAreGreatest(saves: seq<Checkpoint>, limit: int) returns (dropped: seq<Checkpoint>)
    ensures Splits(saves, dropped, Kept(saves, limit))
    ensures |Kept(saves, limit)| == if 0 < limit < |saves| then limit else |saves|
  {
    hide StableSort, WithKey;
    var sorted := StableSort(saves, SequenceKey);
    var kept := Kept(saves, limit);
    dropped := sorted[..|sorted| - |kept|];
    StableSortIsSorted(saves, SequenceKey);
    assert sorted == dropped + kept;
    assert multiset(dropped + kept) == multiset(dropped) + multiset(kept);
    forall k
      ensures WithKey(saves, SequenceKey, k) == WithKey(dropped, SequenceKey, k) + WithKey(kept, SequenceKey, k)
    {
      StableSortIsStable(saves, SequenceKey, k);
      WithKeyConcat(dropped, kept, k);
    }
    forall i, j | 0 <= i < |dropped| && 0 <= j < |kept|
      ensures dropped[i].sequence <= kept[j].sequence
    {
      assert dropped[i] == sorted[i] && kept[j] == sorted[|dropped| + j];
      assert KeyLe(SequenceKey(sorted[i]), SequenceKey(sorted[|dropped| + j]));
    }
  }

  /** The latest checkpoint: no save has a greater sequence, and no later save has the same one. */
  ghost predicate IsLatest(saves: seq<Checkpoint>, c: Checkpoint) {
    exists i :: 0 <= i < |saves| && saves[i] == c && Leads(saves, i)
  }

  ghost predicate Leads(saves: seq<Checkpoint>, i: nat)
    requires i < |saves|
  {
    && (forall j :: 0 <= j < |saves| ==> saves[j].sequence <= saves[i].sequence)
    && forall j :: i < j < |saves| ==> saves[j].sequence < saves[i].sequence
  }

  lemma {:induction false} LatestOfSorted(saves: seq<Checkpoint>) returns (i: nat)
    requires saves != []
    ensures i < |saves| && Leads(saves, i)
    ensures var sorted := StableSort(saves, SequenceKey); sorted[|sorted| - 1] == saves[i]
  {
    var k := |saves| - 1;
    var init := saves[..k];
    if k == 0 {
      i := 0;
    } else {
      i := LatestOfSorted(init);
      if KeyLe(SequenceKey(saves[i]), SequenceKey(saves[k])) {
        i := k;
      }
    }
  }

  lemma LatestIsKeptLast(saves: seq<Checkpoint>, limit: int)
    requires saves != []
    ensures Kept(saves, limit) != []
    ensures IsLatest(saves, Kept(saves, limit)[|Kept(saves, limit)| - 1])
  {
    var i := LatestOfSorted(saves);
  }

  // The store

  function Without(order: seq<RunId>, run: RunId): seq<RunId> {
    if order == [] then [] else (if order[0] == run then [] else [order[0]]) + Without(order[1..], run)
  }

  predicate Unique(order: seq<RunId>) {
    forall i, j :: 0 <= i < j < |order| ==> order[i] != order[j]
  }

  lemma {:induction false} WithoutHas(order: seq<RunId>, run: RunId, r: RunId)
    ensures r in Without(order, run) <==> r in order && r != run
  {
    if order != [] {
      WithoutHas(order[1..], run, r);
      assert order == [order[0]] + order[1..];
    }
  }

  lemma {:induction false} WithoutUnique(order: seq<RunId>, run: RunId)
    requires Unique(order)
    ensures Unique(Without(order, run))
  {
    if order != [] {
      var rest := Without(order[1..], run);
      WithoutUnique(order[1..], run);
      WithoutHas(order[1..], run, order[0]);
      assert order[0] !in order[1..];
      assert forall j :: 0 <= j < |rest| ==> rest[j] in rest;
    }
  }

  /** The order after `run` is used. */
  function MovedToEnd(order: seq<RunId>, run: RunId): seq<RunId> {
    Without(order, run) + [run]
  }

  /** `order` lists the runs `keys`, each once. */
  ghost predicate Lists(order: seq<RunId>, keys: set<RunId>) {
    Unique(order) && forall r :: r in order <==> r in keys
  }

  lemma MovedLists(order: seq<RunId>, keys: set<RunId>, run: RunId)
    requires Lists(order, keys)
    ensures Lists(MovedToEnd(order, run), keys + {run})
    ensures Lists(Without(order, run), keys - {run})
    ensures |Without(order, run)| <= |order| - if run in keys then 1 else 0
  {
    hide Without;
    WithoutUnique(order, run);
    forall r
      ensures r in Without(order, run) <==> r in order && r != run
    {
      WithoutHas(order, run, r);
    }
    WithoutLength(order, run);
  }

  lemma {:induction false} WithoutLength(order: seq<RunId>, run: RunId)
    ensures |Without(order, run)| <= |order| - if run in order then 1 else 0
  {
    if order != [] {
      WithoutLength(order[1..], run);
    }
  }

  lemma TailLists(order: seq<RunId>, keys: set<RunId>)
    requires Lists(order, keys) && order != []
    ensures Lists(order[1..], keys - {order[0]})
  {
    assert order == [order[0]] + order[1..];
  }

  // Which runs stay

  /** The order of the runs after using them one after the other, when only `limit` of them are kept. */
  function Recency(uses: seq<RunId>, limit: int): seq<RunId> {
    if uses == [] then []
    else Limited(MovedToEnd(Recency(uses[..|uses| - 1], limit), uses[|uses| - 1]), limit)
  }

  /** When the run was last used, or -1. */
  function LastUse(uses: seq<RunId>, run: RunId): (k: int)
    ensures k < |uses| && (k == -1 || (0 <= k && uses[k] == run))
    ensures forall i :: k < i < |uses| ==> uses[i] != run
  {
    if uses == [] then -1
    else if uses[|uses| - 1] == run then |uses| - 1
    else LastUse(uses[..|uses| - 1], run)
  }

  /** All runs used, the longer ago the earlier. */
  ghost predicate ByLastUse(order: seq<RunId>, uses: seq<RunId>) {
    && (forall r :: r in order <==> r in uses)
    && Ordered(order, uses)
  }

  ghost predicate Ordered(order: seq<RunId>, uses: seq<RunId>) {
    forall i, j :: 0 <= i < j < |order| ==> LastUse(uses, order[i]) < LastUse(uses, order[j])
  }

  lemma {:induction false} WithoutKeepsOrder(order: seq<RunId>, run: RunId, uses: seq<RunId>)
    requires Ordered(order, uses)
    ensures Ordered(Without(order, run), uses)
  {
    hide LastUse;
    if order != [] {
      WithoutKeepsOrder(order[1..], run, uses);
      var rest := Without(order[1..], run);
      forall j | 0 <= j < |rest|
        ensures LastUse(uses, order[0]) < LastUse(uses, rest[j])
      {
        WithoutHas(order[1..], run, rest[j]);
        assert rest[j] in order[1..];
      }
    }
  }

  /** Unless a run is dropped the order lists all runs used, by their last use. */
  lemma {:induction false} OrderIsByLastUse(uses: seq<RunId>)
    ensures ByLastUse(Recency(uses, 0), uses)
  {
    hide Without;
    if uses != [] {
      var init, run := uses[..|uses| - 1], uses[|uses| - 1];
      assert uses == init + [run];
      var before := Recency(init, 0);
      OrderIsByLastUse(init);
      WithoutKeepsOrder(before, run, init);
      forall r
        ensures r in Without(before, run) <==> r in before && r != run
      {
        WithoutHas(before, run, r);
      }
      var w := Without(before, run);
      forall i | 0 <= i < |w|
        ensures w[i] != run && LastUse(uses, w[i]) == LastUse(init, w[i]) < |init|
      {
        assert w[i] in w;
      }
      var order := w + [run];
      assert Recency(uses, 0) == order && Ordered(w, init);
      forall r
        ensures r in order <==> r in uses
      {
        assert r in order <==> r in w || r == run;
        assert r in uses <==> r in init || r == run;
      }
      forall i, j | 0 <= i < j < |order|
        ensures LastUse(uses, order[i]) < LastUse(uses, order[j])
      {
        assert LastUse(uses, run) == |uses| - 1;
        assert order[i] == w[i];
        assert LastUse(uses, w[i]) == LastUse(init, w[i]) < |init|;
        if j < |w| {
          assert order[j] == w[j];
          assert LastUse(uses, w[j]) == LastUse(init, w[j]);
          assert LastUse(init, w[i]) < LastUse(init, w[j]);
        } else {
          assert order[j] == run;
        }
      }
    }
  }

  lemma {:induction false} WithoutConcat(a: seq<RunId>, b: seq<RunId>, run: RunId)
    ensures Without(a + b, run) == Without(a, run) + Without(b, run)
  {
    if a == [] {
      assert a + b == b;
    } else {
      assert (a + b)[1..] == a[1..] + b;
      WithoutConcat(a[1..], b, run);
    }
  }

  lemma {:induction false} WithoutOne(order: seq<RunId>, run: RunId)
    requires Unique(order)
    ensures |Without(order, run)| == |order| - if run in order then 1 else 0
  {
    if order != [] {
      WithoutOne(order[1..], run);
    }
  }

  /** Using a run after the longest unused ones were dropped keeps what using it before would keep. */
  lemma DroppedStayOut(order: seq<RunId>, run: RunId, limit: int)
    requires Unique(order)
    ensures Limited(MovedToEnd(Limited(order, limit), run), limit) == Limited(MovedToEnd(order, run), limit)
  {
    hide Without;
    if 0 < limit < |order| {
      var k := |order| - limit;
      var kept := order[k..];
      assert order == order[..k] + kept;
      WithoutConcat(order[..k], kept, run);
      WithoutOne(kept, run);
      var w, v := Without(order[..k], run), Without(kept, run);
      assert MovedToEnd(order, run) == w + (v + [run]);
    }
  }

  lemma {:induction false} ByLastUseIsUnique(order: seq<RunId>, uses: seq<RunId>)
    requires ByLastUse(order, uses)
    ensures Unique(order)
  {
    forall i, j | 0 <= i < j < |order|
      ensures order[i] != order[j]
    {
      assert LastUse(uses, order[i]) < LastUse(uses, order[j]);
    }
  }

  /** Dropping runs along the way leaves the end of the order that drops none. */
  lemma {:induction false} MostRecentStay(uses: seq<RunId>, limit: int)
    ensures Recency(uses, limit) == Limited(Recency(uses, 0), limit)
  {
    hide MovedToEnd, Limited;
    if uses == [] {
      NothingLimited(limit);
    } else {
      var init, run := uses[..|uses| - 1], uses[|uses| - 1];
      MostRecentStay(init, limit);
      OrderIsByLastUse(init);
      ByLastUseIsUnique(Recency(init, 0), init);
      DroppedStayOut(Recency(init, 0), run, limit);
      NotLimited(MovedToEnd(Recency(init, 0), run));
    }
  }

  lemma NothingLimited(limit: int)
    ensures Limited<RunId>([], limit) == []
  {
  }

  lemma NotLimited(order: seq<RunId>)
    ensures Limited(order, 0) == order
  {
  }

  /** The runs kept are the most recently used ones: as many as the limit allows, and none of them was last used
      before one that was dropped. */
  lemma KeptRunsAreMostRecent(uses: seq<RunId>, limit: int, kept: RunId, dropped: RunId)
    requires kept in Recency(uses, limit) && dropped in uses && dropped !in Recency(uses, limit)
    ensures LastUse(uses, dropped) < LastUse(uses, kept)
    ensures |Recency(uses, limit)| == limit
  {
    hide Recency, LastUse;
    MostRecentStay(uses, limit);
    OrderIsByLastUse(uses);
    var all := Recency(uses, 0);
    var n := |all| - limit;
    var i :| 0 <= i < |all| && all[i] == dropped;
    assert limit > 0 && n > 0;
    var j :| 0 <= j < limit && all[n..][j] == kept;
    assert kept == all[n + j];
    assert i < n;
  }

  type Saves = map<RunId, seq<Checkpoint>>

  /** `part` is what `all` says of some runs. */
  ghost predicate PartOf(part: Saves, all: Saves) {
    forall r :: r in part ==> r in all && part[r] == all[r]
  }

  /** Each run's list is what its history calls for. */
  ghost predicate Refines(runs: Saves, history: Saves, limit: int) {
    history.Keys == runs.Keys && forall r :: r in runs ==> history[r] != [] && runs[r] == Kept(history[r], limit)
  }

  lemma RefinesStep(runs: Saves, history: Saves, limit: int, c: Checkpoint)
    requires Refines(runs, history, limit)
    ensures var saves, items := SavesOf(history, c.runId), SavesOf(runs, c.runId);
            Refines(runs[c.runId := Limited(StableSort(items + [c], SequenceKey), limit)],
                    history[c.runId := saves + [c]], limit)
  {
    hide Kept, StableSort;
    NothingKept(limit);
    KeptStep(SavesOf(history, c.runId), c, limit);
  }

  function SavesOf(saves: Saves, run: RunId): seq<Checkpoint> {
    if run in saves then saves[run] else []
  }

  lemma NothingKept(limit: int)
    ensures Kept([], limit) == []
  {
  }

  class InMemoryCheckpointStore {
    const maxRuns: int
    const maxCheckpointsPerRun: int
    var order: seq<RunId>
    var runs: map<RunId, seq<Checkpoint>>
    /** All saves of each retained run since its entry was created. */
    ghost var history: map<RunId, seq<Checkpoint>>

    ghost predicate Valid()
      reads this
    {
      && Lists(order, runs.Keys)
      && Refines(runs, history, maxCheckpointsPerRun)
      && (maxRuns > 0 ==> |order| <= maxRuns)
    }

    constructor (maxRuns: int, maxCheckpointsPerRun: int)
      ensures Valid() && order == [] && history == map[]
      ensures this.maxRuns == maxRuns && this.maxCheckpointsPerRun == maxCheckpointsPerRun
    {
      this.maxRuns, this.maxCheckpointsPerRun := maxRuns, maxCheckpointsPerRun;
      order, runs, history := [], map[], map[];
    }

    /** Saving adds to the run's history and makes the run the last in order. The runs that stay are the
        last ones, the saved run among them, and the others keep their history. */
    method Save(c: Checkpoint) returns (saved: bool)
      requires Valid()
      modifies this
      ensures Valid()
      ensures saved <==> c.runId.text != ""
      ensures !saved ==> order == old(order) && runs == old(runs) && history == old(history)
      ensures saved ==> order == Limited(MovedToEnd(old(order), c.runId), maxRuns) && c.runId in order
      ensures saved ==> PartOf(history, old(history)[c.runId := SavesOf(old(history), c.runId) + [c]])
    {
      hide Kept, Without, StableSort, Lists, Refines;
      var run := c.runId;
      if run.text == "" {
        return false;
      }
      RefinesStep(runs, history, maxCheckpointsPerRun, c);
      MovedLists(order, runs.Keys, run);
      var items := StableSort(SavesOf(runs, run) + [c], SequenceKey);
      if maxCheckpointsPerRun > 0 && |items| > maxCheckpointsPerRun {
        items := items[|items| - maxCheckpointsPerRun..];
      }
      order := MovedToEnd(order, run);
      history := history[run := SavesOf(history, run) + [c]];
      assert (runs[run := items]).Keys == runs.Keys + {run};
      runs := runs[run := items];
      PopFirstRuns();
      LastIsLimited(MovedToEnd(old(order), run), maxRuns);
      return true;
    }

    /** Drops runs from the front of the order until few enough are left. */
    method PopFirstRuns()
      requires Lists(order, runs.Keys) && Refines(runs, history, maxCheckpointsPerRun)
      modifies this
      ensures Valid() && order == Limited(old(order), maxRuns) && PartOf(history, old(history))
    {
      hide Lists, Kept;
      var k := 0;
      while maxRuns > 0 && |order| > maxRuns
        invariant k + |order| == |old(order)| && order == old(order)[k..]
        invariant k > 0 ==> |order| >= maxRuns > 0
        invariant Lists(order, runs.Keys)
        invariant Refines(runs, history, maxCheckpointsPerRun) && PartOf(history, old(history))
        decreases |order|
      {
        TailLists(order, runs.Keys);
        var first := order[0];
        assert (runs - {first}).Keys == runs.Keys - {first};
        order, k := order[1..], k + 1;
        runs := runs - {first};
        history := history - {first};
      }
    }

    /** The greatest checkpoint of the run's history. Asking makes the run the last in order. */
    method Latest(run: RunId) returns (latest: Option<Checkpoint>)
      requires Valid()
      modifies this
      ensures Valid() && history == old(history)
      ensures latest.Some? <==> run in history
      ensures latest.Some? ==> IsLatest(history[run], latest.value)
      ensures order == if latest.Some? then MovedToEnd(old(order), run) else old(order)
    {
      hide Kept, Without, IsLatest, Lists;
      if run !in runs {
        return None;
      }
      LatestIsKeptLast(history[run], maxCheckpointsPerRun);
      var items := runs[run];
      MoveToEnd(run);
      return Some(items[|items| - 1]);
    }

    method List(run: RunId) returns (items: seq<Checkpoint>)
      requires Valid()
      modifies this
      ensures Valid() && history == old(history)
      ensures items == if run in history then Kept(history[run], maxCheckpointsPerRun) else []
      ensures order == if run in history then MovedToEnd(old(order), run) else old(order)
    {
      hide Kept, Without, IsLatest, Lists;
      items := SavesOf(runs, run);
      if run in runs {
        LatestIsKeptLast(history[run], maxCheckpointsPerRun);
        MoveToEnd(run);
      }
    }

    method MoveToEnd(run: RunId)
      requires Valid() && run in runs
      modifies this`order
      ensures Valid() && order == MovedToEnd(old(order), run)
    {
      hide Kept, Without, Lists, Refines;
      MovedLists(order, runs.Keys, run);
      assert runs.Keys + {run} == runs.Keys;
      order := MovedToEnd(order, run);
    }

    method DeleteRun(run: RunId)
      requires Valid()
      modifies this
      ensures Valid()
      ensures order == Without(old(order), run) && history == old(history) - {run}
    {
      hide Kept, Lists;
      MovedLists(order, runs.Keys, run);
      assert (runs - {run}).Keys == runs.Keys - {run};
      order := Without(order, run);
      runs := runs - {run};
      history := history - {run};
    }
  }

  lemma LastIsLimited(order: seq<RunId>, limit: int)
    requires order != []
    ensures order[|order| - 1] in Limited(order, limit)
  {
    var l := Limited(order, limit);
    assert l[|l| - 1] == order[|order| - 1];
  }
}
