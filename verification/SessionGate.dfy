/** The reference-counted per-session gate (runtime/concurrency.py) over all interleavings.

A stretch of code between two awaits is one atomic event. The guard lock is never
held across an await, so the two dictionary operations are atomic. */
module SessionGate {
  type Task = nat

  /** A dictionary entry: which semaphore object it owns, and how many tasks refer to it. */
  datatype Entry = Entry(semaphore: nat, refCount: int)

  /** The gate object and its semaphores; `next` is the next unused semaphore identity. */
  datatype Gate = Gate(limit: int, entries: map<string, Entry>, permits: map<nat, int>, next: nat)

  /** Where a task stands inside `slot`; a task outside has no state.
      `Leaving` has given its permit back, or never got one, and still has to drop its reference. */
  datatype TaskState =
    | Bypassing
    | Waiting(session: string, semaphore: nat)
    | Holding(session: string, semaphore: nat)
    | Leaving(session: string)

  datatype System = System(gate: Gate, tasks: map<Task, TaskState>)

  /** `GiveUp` is a timeout or cancellation while waiting; `Finish` is any end of the body. */
  datatype Event =
    | Enter(task: Task, session: string)
    | Acquire(task: Task)
    | GiveUp(task: Task)
    | Finish(task: Task)
    | Leave(task: Task)

  // ---------- The gate's operations ----------

  function EntryTaken(g: Gate, session: string): Gate {
    if session in g.entries
    then g.(entries := g.entries[session := g.entries[session].(refCount := g.entries[session].refCount + 1)])
    else g.(entries := g.entries[session := Entry(g.next, 1)], permits := g.permits[g.next := g.limit], next := g.next + 1)
  }

  function EntryReleased(g: Gate, session: string): Gate {
    if session !in g.entries then g
    else
      var count := g.entries[session].refCount - 1;
      if count <= 0 then g.(entries := g.entries - {session})
      else g.(entries := g.entries[session := g.entries[session].(refCount := count)])
  }

  function PermitTaken(g: Gate, semaphore: nat): Gate {
    if semaphore in g.permits then g.(permits := g.permits[semaphore := g.permits[semaphore] - 1]) else g
  }

  function PermitReturned(g: Gate, semaphore: nat): Gate {
    if semaphore in g.permits then g.(permits := g.permits[semaphore := g.permits[semaphore] + 1]) else g
  }

  /** The gate object itself, updated in place. */
  class SessionExecutionGate {
    const limit: int
    var entries: map<string, Entry>
    var permits: map<nat, int>
    var next: nat

    function View(): Gate
      reads this
    {
      Gate(limit, entries, permits, next)
    }

    constructor (maxPerSession: int)
      ensures View() == Gate(if maxPerSession > 0 then maxPerSession else 0, map[], map[], 0)
    {
      limit := if maxPerSession > 0 then maxPerSession else 0;
      entries, permits, next := map[], map[], 0;
    }

    method GetEntry(session: string) returns (semaphore: nat)
      modifies this
      ensures View() == EntryTaken(old(View()), session)
      ensures session in entries && semaphore == entries[session].semaphore
    {
      if session !in entries {
        entries := entries[session := Entry(next, 0)];
        permits := permits[next := limit];
        next := next + 1;
      }
      entries := entries[session := entries[session].(refCount := entries[session].refCount + 1)];
      semaphore := entries[session].semaphore;
    }

    method ReleaseEntry(session: string)
      modifies this`entries
      ensures View() == EntryReleased(old(View()), session)
    {
      if session !in entries {
        return;
      }
      entries := entries[session := entries[session].(refCount := entries[session].refCount - 1)];
      if entries[session].refCount <= 0 {
        entries := entries - {session};
      }
    }
  }

  // ---------- Events ----------

  ghost predicate Enabled(s: System, e: Event) {
    match e
    case Enter(t, _) => t !in s.tasks
    case Acquire(t) =>
      t in s.tasks && s.tasks[t].Waiting? && s.tasks[t].semaphore in s.gate.permits && s.gate.permits[s.tasks[t].semaphore] > 0
    case GiveUp(t) => t in s.tasks && s.tasks[t].Waiting?
    case Finish(t) => t in s.tasks && (s.tasks[t].Holding? || s.tasks[t].Bypassing?)
    case Leave(t) => t in s.tasks && s.tasks[t].Leaving?
  }

  ghost function Apply(s: System, e: Event): System
    requires Enabled(s, e)
  {
    match e
    case Enter(t, session) =>
      if session == "" || s.gate.limit <= 0 then s.(tasks := s.tasks[t := Bypassing])
      else
        var g := EntryTaken(s.gate, session);
        System(g, s.tasks[t := Waiting(session, g.entries[session].semaphore)])
    case Acquire(t) =>
      var w := s.tasks[t];
      System(PermitTaken(s.gate, w.semaphore), s.tasks[t := Holding(w.session, w.semaphore)])
    case GiveUp(t) => s.(tasks := s.tasks[t := Leaving(s.tasks[t].session)])
    case Finish(t) =>
      var h := s.tasks[t];
      if h.Bypassing? then s.(tasks := s.tasks - {t})
      else System(PermitReturned(s.gate, h.semaphore), s.tasks[t := Leaving(h.session)])
    case Leave(t) => System(EntryReleased(s.gate, s.tasks[t].session), s.tasks - {t})
  }

  /** A task inside the body can always finish: one that holds a permit returns it and can then leave, one that
      bypasses the gate is gone at once. */
  lemma InsideCanFinish(s: System, t: Task)
    requires t in s.tasks && (s.tasks[t].Holding? || s.tasks[t].Bypassing?)
    ensures Enabled(s, Finish(t))
    ensures var after := Apply(s, Finish(t));
            if s.tasks[t].Bypassing? then after == s.(tasks := s.tasks - {t})
            else Enabled(after, Leave(t)) && Apply(after, Leave(t)).tasks == s.tasks - {t}
  {
  }

  /** Any sequence of events; one that is not enabled does not happen. */
  ghost function Run(limit: int, events: seq<Event>): System {
    if events == [] then System(Gate(if limit > 0 then limit else 0, map[], map[], 0), map[])
    else
      var before := Run(limit, events[..|events| - 1]);
      var e := events[|events| - 1];
      if Enabled(before, e) then Apply(before, e) else before
  }

  // ---------- The invariant ----------

  /** The task refers to the session's entry. */
  predicate Uses(ts: TaskState, session: string) {
    !ts.Bypassing? && ts.session == session
  }

  predicate Holds(ts: TaskState, session: string) {
    ts.Holding? && ts.session == session
  }

  ghost function Users(tasks: map<Task, TaskState>, session: string): set<Task> {
    set t | t in tasks && Uses(tasks[t], session)
  }

  ghost function Holders(tasks: map<Task, TaskState>, session: string): set<Task> {
    set t | t in tasks && Holds(tasks[t], session)
  }

  /** The entry of a session agrees with the tasks. */
  ghost predicate EntryAgrees(s: System, session: string)
    requires session in s.gate.entries
  {
    var entry := s.gate.entries[session];
    && entry.refCount == |Users(s.tasks, session)| > 0
    && entry.semaphore < s.gate.next
    && entry.semaphore in s.gate.permits
    && s.gate.permits[entry.semaphore] == s.gate.limit - |Holders(s.tasks, session)| >= 0
  }

  /** A task inside the gate is counted by its session's entry and waits on, or holds, its semaphore. */
  ghost predicate TaskAgrees(g: Gate, ts: TaskState) {
    ts.Bypassing? || (
      && g.limit > 0
      && ts.session in g.entries
      && (ts.Waiting? || ts.Holding? ==> ts.semaphore == g.entries[ts.session].semaphore))
  }

  ghost predicate DistinctSemaphores(g: Gate) {
    forall x, y :: x in g.entries && y in g.entries && x != y ==> g.entries[x].semaphore != g.entries[y].semaphore
  }

  ghost predicate Inv(s: System) {
    && (forall x :: x in s.gate.entries ==> EntryAgrees(s, x))
    && (forall t :: t in s.tasks ==> TaskAgrees(s.gate, s.tasks[t]))
    && DistinctSemaphores(s.gate)
  }

  lemma TaskSetUpdated(tasks: map<Task, TaskState>, t: Task, ts: TaskState, session: string)
    ensures Users(tasks[t := ts], session) == if Uses(ts, session) then Users(tasks, session) + {t} else Users(tasks, session) - {t}
    ensures Holders(tasks[t := ts], session) == if Holds(ts, session) then Holders(tasks, session) + {t} else Holders(tasks, session) - {t}
  {
  }

  lemma TaskRemoved(tasks: map<Task, TaskState>, t: Task, session: string)
    ensures Users(tasks - {t}, session) == Users(tasks, session) - {t}
    ensures Holders(tasks - {t}, session) == Holders(tasks, session) - {t}
  {
  }

  lemma NoEntryNoUsers(s: System, session: string)
    requires Inv(s) && session !in s.gate.entries
    ensures Users(s.tasks, session) == {} && Holders(s.tasks, session) == {}
  {
  }

  lemma EnterKeepsEntry(s: System, t: Task, session: string, x: string)
    requires Inv(s) && Enabled(s, Enter(t, session)) && x in Apply(s, Enter(t, session)).gate.entries
    ensures EntryAgrees(Apply(s, Enter(t, session)), x)
  {
    var s' := Apply(s, Enter(t, session));
    TaskSetUpdated(s.tasks, t, s'.tasks[t], x);
    if x in s.gate.entries {
      assert EntryAgrees(s, x);
      if x != session && session in s.gate.entries {
        assert EntryAgrees(s, session);
      }
    } else {
      NoEntryNoUsers(s, x);
    }
  }

  lemma EnterKeepsTask(s: System, t: Task, session: string, u: Task)
    requires Inv(s) && Enabled(s, Enter(t, session)) && u in Apply(s, Enter(t, session)).tasks
    ensures TaskAgrees(Apply(s, Enter(t, session)).gate, Apply(s, Enter(t, session)).tasks[u])
  {
  }

  lemma EnterKeepsDistinct(s: System, session: string)
    requires Inv(s)
    ensures DistinctSemaphores(EntryTaken(s.gate, session))
  {
  }

  lemma EnterKeepsInv(s: System, t: Task, session: string)
    requires Inv(s) && Enabled(s, Enter(t, session))
    ensures Inv(Apply(s, Enter(t, session)))
  {
    hide EntryAgrees, TaskAgrees, EntryTaken;
    var s' := Apply(s, Enter(t, session));
    forall x | x in s'.gate.entries
      ensures EntryAgrees(s', x)
    {
      EnterKeepsEntry(s, t, session, x);
    }
    forall u | u in s'.tasks
      ensures TaskAgrees(s'.gate, s'.tasks[u])
    {
      EnterKeepsTask(s, t, session, u);
    }
    EnterKeepsDistinct(s, session);
  }

  lemma WaitKeepsEntry(s: System, e: Event, x: string)
    requires Inv(s) && Enabled(s, e) && (e.Acquire? || e.GiveUp? || e.Finish?)
    requires x in Apply(s, e).gate.entries
    ensures EntryAgrees(Apply(s, e), x)
  {
    var s' := Apply(s, e);
    var t := e.task;
    assert TaskAgrees(s.gate, s.tasks[t]) && EntryAgrees(s, x);
    if t in s'.tasks {
      TaskSetUpdated(s.tasks, t, s'.tasks[t], x);
    } else {
      TaskRemoved(s.tasks, t, x);
    }
    assert t in Users(s.tasks, x) <==> Uses(s.tasks[t], x);
    assert t in Holders(s.tasks, x) <==> Holds(s.tasks[t], x);
  }

  lemma WaitKeepsInv(s: System, e: Event)
    requires Inv(s) && Enabled(s, e) && (e.Acquire? || e.GiveUp? || e.Finish?)
    ensures Inv(Apply(s, e))
  {
    hide EntryAgrees;
    var s' := Apply(s, e);
    forall x | x in s'.gate.entries
      ensures EntryAgrees(s', x)
    {
      WaitKeepsEntry(s, e, x);
    }
    forall u | u in s'.tasks
      ensures TaskAgrees(s'.gate, s'.tasks[u])
    {
      assert TaskAgrees(s.gate, s.tasks[u]) && TaskAgrees(s.gate, s.tasks[e.task]);
    }
  }

  lemma LeaveKeepsEntry(s: System, t: Task, x: string)
    requires Enabled(s, Leave(t)) && x in s.gate.entries && EntryAgrees(s, x)
    requires s.tasks[t].session in s.gate.entries && DistinctSemaphores(s.gate)
    requires x in Apply(s, Leave(t)).gate.entries
    ensures EntryAgrees(Apply(s, Leave(t)), x)
  {
    hide Users, Holders;
    TaskRemoved(s.tasks, t, x);
    LeaverCounts(s.tasks, t, x);
  }

  lemma LeaverCounts(tasks: map<Task, TaskState>, t: Task, x: string)
    requires t in tasks && tasks[t].Leaving?
    ensures t in Users(tasks, x) <==> x == tasks[t].session
    ensures t !in Holders(tasks, x)
  {
  }

  lemma LeaveKeepsTask(s: System, t: Task, u: Task)
    requires Inv(s) && Enabled(s, Leave(t)) && u in s.tasks && u != t
    ensures TaskAgrees(Apply(s, Leave(t)).gate, s.tasks[u])
  {
    var session := s.tasks[t].session;
    assert TaskAgrees(s.gate, s.tasks[t]) && EntryAgrees(s, session) && TaskAgrees(s.gate, s.tasks[u]);
    if Uses(s.tasks[u], session) {
      assert t in Users(s.tasks, session) && u in Users(s.tasks, session);
      TwoUsers(Users(s.tasks, session), t, u);
    }
  }

  lemma LeaveKeepsInv(s: System, t: Task)
    requires Inv(s) && Enabled(s, Leave(t))
    ensures Inv(Apply(s, Leave(t)))
  {
    hide EntryAgrees;
    var s' := Apply(s, Leave(t));
    forall x | x in s'.gate.entries
      ensures EntryAgrees(s', x)
    {
      assert TaskAgrees(s.gate, s.tasks[t]) && EntryAgrees(s, x);
      LeaveKeepsEntry(s, t, x);
    }
    forall u | u in s'.tasks
      ensures TaskAgrees(s'.gate, s'.tasks[u])
    {
      LeaveKeepsTask(s, t, u);
    }
  }

  lemma TwoUsers(users: set<Task>, t: Task, u: Task)
    requires t in users && u in users && t != u
    ensures |users| >= 2
  {
    assert |users - {t}| == |users| - 1;
    assert u in users - {t};
  }

  /** The invariant holds after every sequence of events. */
  lemma {:induction false} RunKeepsInv(limit: int, events: seq<Event>)
    ensures Inv(Run(limit, events))
  {
    if events != [] {
      RunKeepsInv(limit, events[..|events| - 1]);
      var before := Run(limit, events[..|events| - 1]);
      var e := events[|events| - 1];
      if Enabled(before, e) {
        match e
        case Enter(t, session) => EnterKeepsInv(before, t, session);
        case Leave(t) => LeaveKeepsInv(before, t);
        case _ => WaitKeepsInv(before, e);
      }
    }
  }

  lemma {:induction false} LimitIsFixed(limit: int, events: seq<Event>)
    ensures Run(limit, events).gate.limit == if limit > 0 then limit else 0
  {
    if events != [] {
      LimitIsFixed(limit, events[..|events| - 1]);
    }
  }

  // ---------- What callers rely on ----------

  /** At most `limit` tasks of a session are inside the body, after any interleaving. */
  lemma HoldersAreLimited(limit: int, events: seq<Event>, session: string)
    requires limit > 0
    ensures |Holders(Run(limit, events).tasks, session)| <= limit
  {
    RunKeepsInv(limit, events);
    LimitIsFixed(limit, events);
    var s := Run(limit, events);
    if session in s.gate.entries {
      assert EntryAgrees(s, session);
    } else {
      NoEntryNoUsers(s, session);
    }
  }

  /** Two tasks waiting for or holding the same session do so on the same semaphore. */
  lemma OneSemaphorePerSession(limit: int, events: seq<Event>, t: Task, u: Task)
    requires var tasks := Run(limit, events).tasks;
             && t in tasks && (tasks[t].Waiting? || tasks[t].Holding?)
             && u in tasks && (tasks[u].Waiting? || tasks[u].Holding?)
    ensures var tasks := Run(limit, events).tasks;
            tasks[t].semaphore == tasks[u].semaphore <==> tasks[t].session == tasks[u].session
  {
    RunKeepsInv(limit, events);
    var s := Run(limit, events);
    assert TaskAgrees(s.gate, s.tasks[t]) && TaskAgrees(s.gate, s.tasks[u]);
  }

  /** The reference count is the number of tasks that hold, wait or are about to drop their
      reference; a session has an entry exactly while there are such tasks. */
  lemma EntriesCountTasks(limit: int, events: seq<Event>, session: string)
    ensures var s := Run(limit, events);
            && (session in s.gate.entries <==> Users(s.tasks, session) != {})
            && (session in s.gate.entries ==> s.gate.entries[session].refCount == |Users(s.tasks, session)|)
  {
    RunKeepsInv(limit, events);
    var s := Run(limit, events);
    if session in s.gate.entries {
      assert EntryAgrees(s, session);
    } else {
      NoEntryNoUsers(s, session);
    }
  }

  /** Once all tasks have left, the dictionary is empty. */
  lemma EmptyWhenAllLeft(limit: int, events: seq<Event>)
    requires Run(limit, events).tasks == map[]
    ensures Run(limit, events).gate.entries == map[]
  {
    var s := Run(limit, events);
    forall session
      ensures session !in s.gate.entries
    {
      EntriesCountTasks(limit, events, session);
    }
  }

  /** No permit is lost: a waiting task can go on exactly when fewer than `limit` tasks hold its session. */
  lemma WaiterBlockedOnlyByHolders(limit: int, events: seq<Event>, t: Task)
    requires t in Run(limit, events).tasks && Run(limit, events).tasks[t].Waiting?
    ensures var s := Run(limit, events);
            Enabled(s, Acquire(t)) <==> |Holders(s.tasks, s.tasks[t].session)| < s.gate.limit
  {
    RunKeepsInv(limit, events);
    var s := Run(limit, events);
    assert TaskAgrees(s.gate, s.tasks[t]) && EntryAgrees(s, s.tasks[t].session);
  }

  // ---------- Who passes the gate ----------

  /** The session a task came in with: that of its last `Enter` that happened. */
  ghost function SessionOf(limit: int, events: seq<Event>, t: Task): string {
    if events == [] then ""
    else
      var init, e := events[..|events| - 1], events[|events| - 1];
      if e.Enter? && e.task == t && t !in Run(limit, init).tasks then e.session else SessionOf(limit, init, t)
  }

  /** What the state of a task says about the session it came in with. */
  ghost predicate RightlyIn(limit: int, ts: TaskState, session: string) {
    if session == "" || limit <= 0 then ts.Bypassing? else !ts.Bypassing? && ts.session == session
  }

  /** A task bypasses the gate exactly when it came with an empty session or there is no limit, and otherwise
      it waits for, holds or leaves the session it came with. */
  lemma {:induction false} BypassedExactly(limit: int, events: seq<Event>, t: Task)
    requires t in Run(limit, events).tasks
    ensures RightlyIn(limit, Run(limit, events).tasks[t], SessionOf(limit, events, t))
  {
    var init := events[..|events| - 1];
    LimitIsFixed(limit, init);
    if t in Run(limit, init).tasks {
      BypassedExactly(limit, init, t);
    }
  }

  predicate InBody(ts: TaskState) {
    ts.Holding? || ts.Bypassing?
  }

  /** The tasks inside the body that came in with the session. */
  ghost function InBodyOf(limit: int, events: seq<Event>, session: string): set<Task> {
    set t | t in Run(limit, events).tasks && InBody(Run(limit, events).tasks[t]) && SessionOf(limit, events, t) == session
  }

  /** The promise of the gate: of all tasks that came with a session, at most `limit` are inside the body, by
      whatever way they got there. */
  lemma InBodyAreLimited(limit: int, events: seq<Event>, session: string)
    requires limit > 0 && session != ""
    ensures |InBodyOf(limit, events, session)| <= limit
  {
    hide Run, SessionOf;
    var inside, holders := InBodyOf(limit, events, session), Holders(Run(limit, events).tasks, session);
    forall t | t in inside
      ensures t in holders
    {
      BypassedExactly(limit, events, t);
    }
    assert inside <= holders;
    SubsetIsSmaller(inside, holders);
    HoldersAreLimited(limit, events, session);
  }

  lemma {:induction false} SubsetIsSmaller(a: set<Task>, b: set<Task>)
    requires a <= b
    ensures |a| <= |b|
  {
    if t :| t in a {
      SubsetIsSmaller(a - {t}, b - {t});
    }
  }

  /** Tasks that bypass leave the dictionary and the permits alone. */
  lemma BypassingLeavesTheGate(s: System, e: Event)
    requires Enabled(s, e)
    requires (e.Enter? && Apply(s, e).tasks[e.task].Bypassing?) || (e.Finish? && s.tasks[e.task].Bypassing?)
    ensures Apply(s, e).gate == s.gate
    ensures Apply(s, e).tasks - {e.task} == s.tasks - {e.task}
    ensures e.Finish? ==> e.task !in Apply(s, e).tasks
  {
  }
}
