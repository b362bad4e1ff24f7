/** Tool-call batching (tools/batches.py) and batched execution (tools/orchestrator.py):
consecutive read-only calls run concurrently, everything else serially. */
module ToolBatches {
  datatype ToolCall = ToolCall(id: string, name: string)

  /** The registered tools; the value says whether the tool is read-only. */
  type Registry = map<string, bool>

  datatype Batch = Batch(concurrent: bool, calls: seq<ToolCall>)

  /** An unknown tool counts as writing. */
  predicate IsReadOnly(registry: Registry, call: ToolCall) {
    call.name in registry && registry[call.name]
  }

  // ---------- Partitioning ----------

  function Flatten(batches: seq<Batch>): seq<ToolCall> {
    if batches == [] then [] else Flatten(batches[..|batches| - 1]) + batches[|batches| - 1].calls
  }

  ghost predicate WellFormedBatch(registry: Registry, b: Batch) {
    && b.calls != []
    && (forall i :: 0 <= i < |b.calls| ==> IsReadOnly(registry, b.calls[i]) == b.concurrent)
    && (!b.concurrent ==> |b.calls| == 1)
  }

  /** Read-only runs are maximal: no two concurrent batches follow each other. */
  ghost predicate WellBatched(registry: Registry, batches: seq<Batch>) {
    && (forall i :: 0 <= i < |batches| ==> WellFormedBatch(registry, batches[i]))
    && (forall i, j :: 0 <= i && j == i + 1 && j < |batches| ==> !(batches[i].concurrent && batches[j].concurrent))
  }

  /** One more call joins the last batch when both are read-only, else it opens a batch. */
  function WithCall(batches: seq<Batch>, registry: Registry, call: ToolCall): seq<Batch> {
    var n := |batches|;
    if IsReadOnly(registry, call) && n > 0 && batches[n - 1].concurrent
    then batches[n - 1 := Batch(true, batches[n - 1].calls + [call])]
    else batches + [Batch(IsReadOnly(registry, call), [call])]
  }

  lemma WithCallFlattens(batches: seq<Batch>, registry: Registry, call: ToolCall)
    ensures Flatten(WithCall(batches, registry, call)) == Flatten(batches) + [call]
  {
  }

  lemma WithCallKeepsShape(batches: seq<Batch>, registry: Registry, call: ToolCall)
    requires WellBatched(registry, batches)
    ensures WellBatched(registry, WithCall(batches, registry, call))
  {
  }

  /** The batches hold the calls in order, and each batch is as the policy wants it. */
  method PartitionToolCalls(calls: seq<ToolCall>, registry: Registry) returns (batches: seq<Batch>)
    ensures Flatten(batches) == calls
    ensures WellBatched(registry, batches)
    ensures forall b, c :: b in batches && c in b.calls ==> (b.concurrent <==> c.name in registry && registry[c.name])
    ensures forall b, c :: b in batches && c in b.calls && !(c.name in registry && registry[c.name]) ==> b == Batch(false, [c])
  {
    hide Flatten, WellBatched;
    batches := [];
    NothingBatched(registry);
    for k := 0 to |calls|
      invariant Flatten(batches) == calls[..k]
      invariant WellBatched(registry, batches)
    {
      WithCallFlattens(batches, registry, calls[k]);
      WithCallKeepsShape(batches, registry, calls[k]);
      assert calls[..k + 1] == calls[..k] + [calls[k]];
      var n := |batches|;
      if IsReadOnly(registry, calls[k]) {
        if n > 0 && batches[n - 1].concurrent {
          batches := batches[n - 1 := Batch(true, batches[n - 1].calls + [calls[k]])];
        } else {
          batches := batches + [Batch(true, [calls[k]])];
        }
      } else {
        batches := batches + [Batch(false, [calls[k]])];
      }
    }
    assert calls[..|calls|] == calls;
    RegistryDecides(registry, batches);
  }

  lemma NothingBatched(registry: Registry)
    ensures Flatten([]) == [] && WellBatched(registry, [])
  {
  }

  /** What the shape means in terms of the registry: a batch is concurrent exactly when its tools are
      registered as read-only, and any other call is alone in a serial batch. */
  lemma RegistryDecides(registry: Registry, batches: seq<Batch>)
    requires WellBatched(registry, batches)
    ensures forall b, c :: b in batches && c in b.calls ==> (b.concurrent <==> c.name in registry && registry[c.name])
    ensures forall b, c :: b in batches && c in b.calls && !(c.name in registry && registry[c.name]) ==> b == Batch(false, [c])
  {
    forall b, c | b in batches && c in b.calls
      ensures b.concurrent <==> c.name in registry && registry[c.name]
      ensures !b.concurrent ==> b == Batch(false, [c])
    {
      assert WellFormedBatch(registry, b);
      assert IsReadOnly(registry, c) == b.concurrent;
    }
  }

  lemma BatchesHoldCalls(registry: Registry, b: seq<Batch>)
    requires WellBatched(registry, b)
    ensures b != [] ==> Flatten(b) != []
  {
  }

  /** These two facts leave no choice: the partition is determined by the calls. */
  lemma {:induction false} PartitionIsUnique(registry: Registry, a: seq<Batch>, b: seq<Batch>)
    requires WellBatched(registry, a) && WellBatched(registry, b) && Flatten(a) == Flatten(b)
    ensures a == b
    decreases |a|
  {
    if a == [] {
      BatchesHoldCalls(registry, b);
    } else {
      BatchesHoldCalls(registry, a);
      var la := a[|a| - 1];
      assert WellFormedBatch(registry, la);
      assert Flatten(a)[|Flatten(a)| - 1] == la.calls[|la.calls| - 1];
      var lb := b[|b| - 1];
      assert WellFormedBatch(registry, lb);
      assert Flatten(b)[|Flatten(b)| - 1] == lb.calls[|lb.calls| - 1];
      assert la.concurrent == lb.concurrent;
      if |la.calls| < |lb.calls| {
        LastBatchIsMaximal(registry, a, |lb.calls|);
      } else if |lb.calls| < |la.calls| {
        LastBatchIsMaximal(registry, b, |la.calls|);
      } else {
        SplitAtEnd(Flatten(a[..|a| - 1]), la.calls, Flatten(b[..|b| - 1]), lb.calls);
        PartitionIsUnique(registry, a[..|a| - 1], b[..|b| - 1]);
        assert a == a[..|a| - 1] + [la] && b == b[..|b| - 1] + [lb];
      }
    }
  }

  lemma SplitAtEnd<T>(a: seq<T>, x: seq<T>, b: seq<T>, y: seq<T>)
    requires a + x == b + y && |x| == |y|
    ensures a == b && x == y
  {
    assert a == (a + x)[..|a|] && b == (b + y)[..|b|];
    assert x == (a + x)[|a|..] && y == (b + y)[|b|..];
  }

  /** Just before a concurrent last batch there is a writing call, or nothing. */
  lemma LastBatchIsMaximal(registry: Registry, a: seq<Batch>, n: nat)
    requires WellBatched(registry, a) && a != [] && a[|a| - 1].concurrent
    requires |a[|a| - 1].calls| < n <= |Flatten(a)|
    ensures var flat := Flatten(a); exists i :: |flat| - n <= i < |flat| && !IsReadOnly(registry, flat[i])
  {
    var flat, last := Flatten(a), a[|a| - 1];
    var init := a[..|a| - 1];
    assert flat == Flatten(init) + last.calls && init != [];
    var prev := a[|a| - 2];
    assert WellFormedBatch(registry, prev) && !prev.concurrent;
    assert init[|init| - 1] == prev && Flatten(init) == Flatten(init[..|init| - 1]) + prev.calls;
    var i := |Flatten(init)| - 1;
    assert flat[i] == prev.calls[0];
    assert !IsReadOnly(registry, flat[i]);
  }

  // ---------- Execution ----------

  /** A call in execution: its own state and the atomic actions it still performs. An action
      reads and writes the call's state `L` and the shared world `W`. */
  type Action<!L, !W> = (L, W) -> (L, W)
  datatype Program<!L, !W> = Program(start: L, actions: seq<Action<L, W>>)

  /** Runs the first `n` actions without interruption. */
  function RunAlone<L, W>(p: Program<L, W>, n: nat, w: W): (L, W)
    requires n <= |p.actions|
  {
    if n == 0 then (p.start, w)
    else
      var (l, v) := RunAlone(p, n - 1, w);
      p.actions[n - 1](l, v)
  }

  ghost predicate LeavesWorld<L(!new), W(!new)>(p: Program<L, W>) {
    forall k, l, w :: 0 <= k < |p.actions| ==> p.actions[k](l, w).1 == w
  }

  /** One call after the other: results in call order, and the final world. */
  function RunSerially<L, W>(ps: seq<Program<L, W>>, w: W): (seq<L>, W) {
    if ps == [] then ([], w)
    else
      var (results, v) := RunSerially(ps[..|ps| - 1], w);
      var last := ps[|ps| - 1];
      var (l, u) := RunAlone(last, |last.actions|, v);
      (results + [l], u)
  }

  /** Calls running concurrently: local states, next actions, world. */
  datatype Running<!L, !W> = Running(locals: seq<L>, pcs: seq<nat>, world: W)

  function Launch<L, W>(ps: seq<Program<L, W>>, w: W): Running<L, W> {
    Running(seq(|ps|, i requires 0 <= i < |ps| => ps[i].start), seq(|ps|, i => 0), w)
  }

  /** The scheduler lets call `t` perform its next action; other values of `t` do nothing. */
  function StepOne<L, W>(ps: seq<Program<L, W>>, r: Running<L, W>, t: nat): Running<L, W> {
    if t < |ps| && |r.locals| == |r.pcs| == |ps| && r.pcs[t] < |ps[t].actions| then
      var (l, v) := ps[t].actions[r.pcs[t]](r.locals[t], r.world);
      Running(r.locals[t := l], r.pcs[t := r.pcs[t] + 1], v)
    else r
  }

  function Interleave<L, W>(ps: seq<Program<L, W>>, w: W, schedule: seq<nat>): Running<L, W> {
    if schedule == [] then Launch(ps, w)
    else StepOne(ps, Interleave(ps, w, schedule[..|schedule| - 1]), schedule[|schedule| - 1])
  }

  /** The schedule gives every call enough turns to finish, in whatever order. */
  ghost predicate FairTo<L, W>(ps: seq<Program<L, W>>, schedule: seq<nat>) {
    forall i :: 0 <= i < |ps| ==> multiset(schedule)[i] >= |ps[i].actions|
  }

  lemma {:induction false} TurnsAreTaken<L, W>(ps: seq<Program<L, W>>, w: W, schedule: seq<nat>)
    ensures var r := Interleave(ps, w, schedule);
            && |r.locals| == |r.pcs| == |ps|
            && forall i :: 0 <= i < |ps| ==>
                 r.pcs[i] == if multiset(schedule)[i] <= |ps[i].actions| then multiset(schedule)[i] else |ps[i].actions|
  {
    if schedule != [] {
      assert schedule == schedule[..|schedule| - 1] + [schedule[|schedule| - 1]];
      TurnsAreTaken(ps, w, schedule[..|schedule| - 1]);
    }
  }

  lemma {:induction false} AloneLeavesWorld<L(!new), W(!new)>(p: Program<L, W>, n: nat, w: W)
    requires LeavesWorld(p) && n <= |p.actions|
    ensures RunAlone(p, n, w).1 == w
  {
    if n > 0 {
      AloneLeavesWorld(p, n - 1, w);
    }
  }

  /** Whatever the schedule, read-only calls are each as far as running alone would have brought them. */
  lemma {:induction false} InterleavingIsInvisible<L(!new), W(!new)>(ps: seq<Program<L, W>>, w: W, schedule: seq<nat>)
    requires forall i :: 0 <= i < |ps| ==> LeavesWorld(ps[i])
    ensures var r := Interleave(ps, w, schedule);
            && r.world == w && |r.locals| == |r.pcs| == |ps|
            && forall i :: 0 <= i < |ps| ==> r.pcs[i] <= |ps[i].actions| && r.locals[i] == RunAlone(ps[i], r.pcs[i], w).0
  {
    if schedule != [] {
      var before := Interleave(ps, w, schedule[..|schedule| - 1]);
      var t := schedule[|schedule| - 1];
      InterleavingIsInvisible(ps, w, schedule[..|schedule| - 1]);
      if t < |ps| && before.pcs[t] < |ps[t].actions| {
        AloneLeavesWorld(ps[t], before.pcs[t], w);
        assert LeavesWorld(ps[t]);
      }
    }
  }

  lemma {:induction false} SerialReadOnly<L(!new), W(!new)>(ps: seq<Program<L, W>>, w: W)
    requires forall i :: 0 <= i < |ps| ==> LeavesWorld(ps[i])
    ensures var (results, v) := RunSerially(ps, w);
            v == w && |results| == |ps| && forall i :: 0 <= i < |ps| ==> results[i] == RunAlone(ps[i], |ps[i].actions|, w).0
  {
    if ps != [] {
      var init := ps[..|ps| - 1];
      assert forall i :: 0 <= i < |init| ==> init[i] == ps[i];
      SerialReadOnly(init, w);
      var last := ps[|ps| - 1];
      AloneLeavesWorld(last, |last.actions|, w);
    }
  }

  /** Concurrent execution of read-only calls gives, under every schedule that lets them finish,
      the results and the world of running them one by one. */
  lemma ConcurrentAgreesWithSerial<L(!new), W(!new)>(ps: seq<Program<L, W>>, w: W, schedule: seq<nat>)
    requires forall i :: 0 <= i < |ps| ==> LeavesWorld(ps[i])
    requires FairTo(ps, schedule)
    ensures var r := Interleave(ps, w, schedule); (r.locals, r.world) == RunSerially(ps, w)
  {
    TurnsAreTaken(ps, w, schedule);
    InterleavingIsInvisible(ps, w, schedule);
    SerialReadOnly(ps, w);
    assert Interleave(ps, w, schedule).locals == RunSerially(ps, w).0;
  }

  /** Reads the world, then writes back one more. */
  function Bump(): Program<int, int> {
    Program(0, [(l: int, w: int) => (w, w), (l: int, w: int) => (l, l + 1)])
  }

  /** One more turn at the end of a schedule. */
  lemma InterleaveOneMore<L, W>(ps: seq<Program<L, W>>, w: W, schedule: seq<nat>, t: nat)
    ensures Interleave(ps, w, schedule + [t]) == StepOne(ps, Interleave(ps, w, schedule), t)
  {
    assert (schedule + [t])[..|schedule + [t]| - 1] == schedule;
  }

  lemma LaunchedBumps()
    ensures Interleave([Bump(), Bump()], 0, []) == Running([0, 0], [0, 0], 0)
  {
  }

  /** The hypothesis is needed: two writing calls can lose an update ... */
  lemma WritersLoseUpdates()
    ensures Interleave([Bump(), Bump()], 0, [0, 1, 0, 1]) == Running([0, 0], [2, 2], 1)
  {
    var ps := [Bump(), Bump()];
    LaunchedBumps();
    hide Interleave;
    InterleaveOneMore(ps, 0, [], 0);
    assert [] + [0] == [0] && StepOne(ps, Running([0, 0], [0, 0], 0), 0) == Running([0, 0], [1, 0], 0);
    InterleaveOneMore(ps, 0, [0], 1);
    assert [0] + [1] == [0, 1] && StepOne(ps, Running([0, 0], [1, 0], 0), 1) == Running([0, 0], [1, 1], 0);
    InterleaveOneMore(ps, 0, [0, 1], 0);
    assert [0, 1] + [0] == [0, 1, 0] && StepOne(ps, Running([0, 0], [1, 1], 0), 0) == Running([0, 0], [2, 1], 1);
    InterleaveOneMore(ps, 0, [0, 1, 0], 1);
    assert [0, 1, 0] + [1] == [0, 1, 0, 1] && StepOne(ps, Running([0, 0], [2, 1], 1), 1) == Running([0, 0], [2, 2], 1);
  }

  /** ... where running them one by one does not. */
  lemma WritersSerially()
    ensures RunSerially([Bump(), Bump()], 0).1 == 2
  {
  }

  lemma {:induction false} SerialComposes<L, W>(ps: seq<Program<L, W>>, qs: seq<Program<L, W>>, w: W)
    ensures var (first, v) := RunSerially(ps, w);
            var (second, u) := RunSerially(qs, v);
            RunSerially(ps + qs, w) == (first + second, u)
  {
    if qs == [] {
      assert ps + qs == ps && RunSerially(ps, w).0 + [] == RunSerially(ps, w).0;
    } else {
      assert (ps + qs)[..|ps + qs| - 1] == ps + qs[..|qs| - 1];
      SerialComposes(ps, qs[..|qs| - 1], w);
      var first, v := RunSerially(ps, w).0, RunSerially(ps, w).1;
      var init, u := RunSerially(qs[..|qs| - 1], v).0, RunSerially(qs[..|qs| - 1], v).1;
      var l := RunAlone(qs[|qs| - 1], |qs[|qs| - 1].actions|, u).0;
      assert (first + init) + [l] == first + (init + [l]);
    }
  }

  function Programs<L, W>(calls: seq<ToolCall>, program: ToolCall -> Program<L, W>): seq<Program<L, W>> {
    seq(|calls|, i requires 0 <= i < |calls| => program(calls[i]))
  }

  /** What the registry promises about tools it lists as read-only. */
  ghost predicate Honest<L(!new), W(!new)>(registry: Registry, program: ToolCall -> Program<L, W>) {
    forall c: ToolCall :: c.name in registry && registry[c.name] ==> LeavesWorld(program(c))
  }

  lemma NothingToRun<L, W>(program: ToolCall -> Program<L, W>, w: W)
    ensures Flatten([]) == [] && RunSerially(Programs([], program), w) == ([], w)
  {
  }

  method RunBatch<L(!new), W(!new)>(b: Batch, program: ToolCall -> Program<L, W>, schedule: seq<nat>, w: W)
    returns (results: seq<L>, v: W)
    requires b.concurrent ==> forall i :: 0 <= i < |b.calls| ==> LeavesWorld(program(b.calls[i]))
    requires FairTo(Programs(b.calls, program), schedule)
    ensures (results, v) == RunSerially(Programs(b.calls, program), w)
  {
    var ps := Programs(b.calls, program);
    if b.concurrent && |b.calls| > 1 {
      var r := Launch(ps, w);
      for k := 0 to |schedule|
        invariant r == Interleave(ps, w, schedule[..k])
      {
        assert schedule[..k + 1][..k] == schedule[..k];
        r := StepOne(ps, r, schedule[k]);
      }
      assert schedule[..|schedule|] == schedule;
      ConcurrentAgreesWithSerial(ps, w, schedule);
      results, v := r.locals, r.world;
    } else {
      results, v := [], w;
      for k := 0 to |b.calls|
        invariant (results, v) == RunSerially(ps[..k], w)
      {
        assert ps[..k + 1][..k] == ps[..k];
        var (l, u) := RunAlone(ps[k], |ps[k].actions|, v);
        results, v := results + [l], u;
      }
      assert ps[..|ps|] == ps;
    }
  }

  /** The pipeline: whatever schedule the event loop picks for each concurrent batch, the results,
      in call order, and the final world are those of running all calls one by one. */
  method ExecutePipeline<L(!new), W(!new)>(calls: seq<ToolCall>, registry: Registry, program: ToolCall -> Program<L, W>,
                                           schedules: seq<ToolCall> -> seq<nat>, w: W) returns (results: seq<L>, v: W)
    requires Honest(registry, program)
    requires forall batch :: FairTo(Programs(batch, program), schedules(batch))
    ensures (results, v) == RunSerially(Programs(calls, program), w)
  {
    hide RunSerially, FairTo, LeavesWorld;
    var batches := PartitionToolCalls(calls, registry);
    results, v := [], w;
    NothingToRun(program, w);
    for k := 0 to |batches|
      invariant (results, v) == RunSerially(Programs(Flatten(batches[..k]), program), w)
    {
      var b := batches[k];
      assert b in batches && forall c :: c in b.calls && b.concurrent ==> c.name in registry && registry[c.name];
      assert batches[..k + 1][..k] == batches[..k];
      ghost var done := Flatten(batches[..k]);
      assert Programs(done + b.calls, program) == Programs(done, program) + Programs(b.calls, program);
      SerialComposes(Programs(done, program), Programs(b.calls, program), w);
      var more, u := RunBatch(b, program, schedules(b.calls), v);
      results, v := results + more, u;
    }
    assert batches[..|batches|] == batches;
  }
}
