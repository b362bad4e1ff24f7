/** The requests-per-minute limiter (runtime/concurrency.py): a sliding window over a deque of
grant times. The clock is a parameter of each attempt and never goes back. */
module RateLimiter {
  const WINDOW: real := 60.0

  predicate Expired(grant: real, now: real) {
    now - grant >= WINDOW
  }

  /** The deque after the expired times are popped from its left end. */
  function Pruned(timestamps: seq<real>, now: real): seq<real> {
    if timestamps != [] && Expired(timestamps[0], now) then Pruned(timestamps[1..], now) else timestamps
  }

  datatype Outcome = Unlimited | Granted | Wait(sleepFor: real) | TimedOut

  function SleepFor(oldest: real, now: real): real {
    if WINDOW - (now - oldest) > 0.0 then WINDOW - (now - oldest) else 0.0
  }

  /** The deque after an attempt at time `now`, and whether it was granted. */
  function Attempted(timestamps: seq<real>, rpm: int, now: real): (seq<real>, bool) {
    var kept := Pruned(timestamps, now);
    if |kept| < rpm then (kept + [now], true) else (kept, false)
  }

  class RequestLimiter {
    const rpm: int
    var timestamps: seq<real>

    constructor (requestsPerMinute: int)
      ensures rpm == requestsPerMinute && timestamps == []
    {
      rpm, timestamps := requestsPerMinute, [];
    }

    /** One pass of the acquisition loop at time `now`. A refused caller with a deadline gives up when,
        at the later reading `afterwards`, its sleep would end too late. `deadline` 0.0 means none. */
    method AcquireOnce(now: real, deadline: real, afterwards: real) returns (outcome: Outcome)
      modifies this
      ensures rpm <= 0 ==> outcome == Unlimited && timestamps == old(timestamps)
      ensures rpm > 0 ==> timestamps == Attempted(old(timestamps), rpm, now).0
      ensures rpm > 0 ==> (outcome == Granted <==> Attempted(old(timestamps), rpm, now).1)
      ensures rpm > 0 && outcome != Granted ==>
                && timestamps != []
                && var sleepFor := SleepFor(timestamps[0], now);
                   outcome == if deadline != 0.0 && afterwards + sleepFor > deadline then TimedOut else Wait(sleepFor)
    {
      if rpm <= 0 {
        return Unlimited;
      }
      while timestamps != [] && Expired(timestamps[0], now)
        invariant Pruned(timestamps, now) == Pruned(old(timestamps), now)
        decreases |timestamps|
      {
        timestamps := timestamps[1..];
      }
      if |timestamps| < rpm {
        timestamps := timestamps + [now];
        return Granted;
      }
      var sleepFor := SleepFor(timestamps[0], now);
      if deadline != 0.0 && afterwards + sleepFor > deadline {
        return TimedOut;
      }
      return Wait(sleepFor);
    }
  }

  // ---------- Runs ----------

  /** The deque and the whole grant history after attempts at the given clock readings. */
  datatype History = History(timestamps: seq<real>, grants: seq<real>)

  function After(rpm: int, clock: seq<real>): History {
    if clock == [] then History([], [])
    else
      var before := After(rpm, clock[..|clock| - 1]);
      var now := clock[|clock| - 1];
      var (timestamps, granted) := Attempted(before.timestamps, rpm, now);
      History(timestamps, if granted then before.grants + [now] else before.grants)
  }

  ghost predicate Ascending(times: seq<real>) {
    forall i, j :: 0 <= i <= j < |times| ==> times[i] <= times[j]
  }

  /** The deque is the part of the history that had not expired at the last reading. */
  ghost predicate DequeIsLiveSuffix(h: History, now: real) {
    && |h.timestamps| <= |h.grants|
    && h.timestamps == h.grants[|h.grants| - |h.timestamps|..]
    && forall i :: 0 <= i < |h.grants| ==> (Expired(h.grants[i], now) <==> i < |h.grants| - |h.timestamps|)
  }

  /** Any grant comes at least a window after the one `rpm` places earlier. */
  ghost predicate Spaced(rpm: int, grants: seq<real>) {
    forall i, j :: 0 <= i <= j < |grants| && j == i + rpm ==> grants[j] - grants[i] >= WINDOW
  }

  lemma {:induction false} PrunedIsLive(timestamps: seq<real>, now: real)
    requires Ascending(timestamps)
    ensures var kept := Pruned(timestamps, now);
            && |kept| <= |timestamps|
            && kept == timestamps[|timestamps| - |kept|..]
            && forall i :: 0 <= i < |timestamps| ==> (Expired(timestamps[i], now) <==> i < |timestamps| - |kept|)
  {
    if timestamps != [] && Expired(timestamps[0], now) {
      PrunedIsLive(timestamps[1..], now);
      forall i | 0 < i < |timestamps|
        ensures Expired(timestamps[i], now) <==> i < |timestamps| - |Pruned(timestamps, now)|
      {
        assert timestamps[i] == timestamps[1..][i - 1];
      }
    }
  }

  ghost predicate Inv(rpm: int, h: History, now: real) {
    && Ascending(h.grants) && (h.grants != [] ==> h.grants[|h.grants| - 1] <= now)
    && DequeIsLiveSuffix(h, now)
    && Spaced(rpm, h.grants)
  }

  lemma ExpiredStays(grant: real, then_: real, now: real)
    requires Expired(grant, then_) && then_ <= now
    ensures Expired(grant, now)
  {
  }

  /** Pruning at a later time gives the live suffix at that time. */
  lemma PruningKeepsSuffix(h: History, then_: real, now: real)
    requires Ascending(h.grants) && DequeIsLiveSuffix(h, then_) && then_ <= now
    ensures DequeIsLiveSuffix(History(Pruned(h.timestamps, now), h.grants), now)
  {
    hide Expired, Pruned;
    var kept := Pruned(h.timestamps, now);
    var d := |h.grants| - |h.timestamps|;
    assert Ascending(h.timestamps);
    PrunedIsLive(h.timestamps, now);
    forall i | 0 <= i < |h.grants|
      ensures Expired(h.grants[i], now) <==> i < |h.grants| - |kept|
    {
      if i < d {
        ExpiredStays(h.grants[i], then_, now);
      } else {
        assert h.grants[i] == h.timestamps[i - d];
      }
    }
  }

  /** The limiter's guarantee over every run with a clock that does not go back. */
  lemma {:induction false} RunsKeepInv(rpm: int, clock: seq<real>)
    requires rpm > 0 && clock != [] && Ascending(clock)
    ensures Inv(rpm, After(rpm, clock), clock[|clock| - 1])
  {
    var init, now := clock[..|clock| - 1], clock[|clock| - 1];
    var before := After(rpm, init);
    if init != [] {
      RunsKeepInv(rpm, init);
      PruningKeepsSuffix(before, init[|init| - 1], now);
    }
    GrantKeepsInv(rpm, before, now);
  }

  /** A grant is given only when the one `rpm` places earlier has expired. */
  lemma GrantIsSpaced(rpm: int, h: History, now: real)
    requires rpm > 0 && Spaced(rpm, h.grants) && DequeIsLiveSuffix(h, now) && |h.timestamps| < rpm
    ensures Spaced(rpm, h.grants + [now])
  {
  }

  lemma GrantKeepsSuffix(h: History, now: real)
    requires DequeIsLiveSuffix(h, now)
    ensures DequeIsLiveSuffix(History(h.timestamps + [now], h.grants + [now]), now)
  {
  }

  lemma GrantKeepsOrder(grants: seq<real>, now: real)
    requires Ascending(grants) && (grants != [] ==> grants[|grants| - 1] <= now)
    ensures Ascending(grants + [now])
  {
  }

  lemma GrantKeepsInv(rpm: int, before: History, now: real)
    requires rpm > 0 && Ascending(before.grants) && Spaced(rpm, before.grants)
    requires before.grants != [] ==> before.grants[|before.grants| - 1] <= now
    requires DequeIsLiveSuffix(History(Pruned(before.timestamps, now), before.grants), now)
    ensures var (timestamps, granted) := Attempted(before.timestamps, rpm, now);
            Inv(rpm, History(timestamps, if granted then before.grants + [now] else before.grants), now)
  {
    hide DequeIsLiveSuffix, Spaced, Pruned, Ascending;
    var h := History(Pruned(before.timestamps, now), before.grants);
    if |h.timestamps| < rpm {
      GrantIsSpaced(rpm, h, now);
      GrantKeepsSuffix(h, now);
      GrantKeepsOrder(before.grants, now);
    }
  }

  /** The grants of the last minute. */
  ghost function Recent(grants: seq<real>, now: real): set<int> {
    set i | 0 <= i < |grants| && now - grants[i] < 60.0
  }

  /** An attempt is granted exactly when fewer than `rpm` grants were given in the last minute, and then, and
      only then, it adds a grant at its own time. */
  lemma GrantedExactlyBelowTheLimit(rpm: int, clock: seq<real>, now: real)
    requires rpm > 0 && Ascending(clock + [now])
    ensures var before, after := After(rpm, clock).grants, After(rpm, clock + [now]).grants;
            after == if |Recent(before, now)| < rpm then before + [now] else before
  {
    assert (clock + [now])[..|clock|] == clock;
    var h := After(rpm, clock);
    var kept := Pruned(h.timestamps, now);
    if clock != [] {
      var last := clock[|clock| - 1];
      assert clock + [now] == clock[..|clock| - 1] + [last] + [now];
      assert (clock + [now])[|clock| - 1] == last && (clock + [now])[|clock|] == now;
      assert forall i :: 0 <= i < |clock| ==> clock[i] == (clock + [now])[i];
      RunsKeepInv(rpm, clock);
      PruningKeepsSuffix(h, last, now);
    }
    RecentAreKept(h.grants, kept, now);
  }

  lemma RecentAreKept(grants: seq<real>, kept: seq<real>, now: real)
    requires DequeIsLiveSuffix(History(kept, grants), now)
    ensures |Recent(grants, now)| == |kept|
  {
    var d := |grants| - |kept|;
    forall i: int
      ensures i in Recent(grants, now) <==> i in Interval(d, |kept|)
    {
      assert 0 <= i < |grants| ==> (Expired(grants[i], now) <==> i < d);
    }
    assert Recent(grants, now) == Interval(d, |kept|);
  }

  /** Grants `rpm` places apart are at least sixty seconds apart. */
  lemma GrantsAreSpaced(rpm: int, clock: seq<real>, n: nat)
    requires rpm > 0 && Ascending(clock) && n + rpm < |After(rpm, clock).grants|
    ensures After(rpm, clock).grants[n + rpm] - After(rpm, clock).grants[n] >= 60.0
  {
    RunsKeepInv(rpm, clock);
  }

  ghost function GrantedWithin(grants: seq<real>, start: real): set<int> {
    set i | 0 <= i < |grants| && start <= grants[i] < start + 60.0
  }

  function Interval(lo: int, n: nat): (s: set<int>)
    ensures |s| == n && forall i :: i in s <==> lo <= i < lo + n
  {
    if n == 0 then {} else Interval(lo, n - 1) + {lo + n - 1}
  }

  lemma SubsetSize(a: set<int>, b: set<int>)
    requires a <= b
    ensures |a| <= |b|
  {
    assert b == a + (b - a);
    assert |b| == |a| + |b - a|;
  }

  lemma {:induction false} LeastMember(s: set<int>, low: int, k: int) returns (m: int)
    requires k in s && low <= k && forall i :: i in s ==> low <= i
    ensures m in s && forall i :: i in s ==> m <= i
    decreases k - low
  {
    if low in s {
      m := low;
    } else {
      m := LeastMember(s, low + 1, k);
    }
  }

  lemma FarApart(rpm: int, grants: seq<real>, i: nat, j: nat)
    requires rpm > 0 && Ascending(grants) && Spaced(rpm, grants) && i + rpm <= j < |grants|
    ensures grants[j] - grants[i] >= WINDOW
  {
    assert grants[i + rpm] - grants[i] >= WINDOW;
  }

  /** Every half-open minute contains at most `rpm` grants. */
  lemma EveryMinuteIsLimited(rpm: int, clock: seq<real>, start: real)
    requires rpm > 0 && Ascending(clock)
    ensures |GrantedWithin(After(rpm, clock).grants, start)| <= rpm
  {
    var grants := After(rpm, clock).grants;
    var within := GrantedWithin(grants, start);
    if k :| 0 <= k < |grants| && k in within {
      RunsKeepInv(rpm, clock);
      var first := LeastMember(within, 0, k);
      forall j | first + rpm <= j < |grants|
        ensures j !in within
      {
        FarApart(rpm, grants, first, j);
      }
      SubsetSize(within, Interval(first, rpm));
    } else {
      assert within == {};
    }
  }

  /** The computed sleep is exact: if nobody else is granted meanwhile, a refused caller is granted
      at a later time exactly when it has slept at least that long. */
  lemma SleepIsExact(rpm: int, clock: seq<real>, later: real)
    requires rpm > 0 && clock != [] && Ascending(clock) && later >= clock[|clock| - 1]
    requires !Attempted(After(rpm, clock[..|clock| - 1]).timestamps, rpm, clock[|clock| - 1]).1
    ensures var h, now := After(rpm, clock), clock[|clock| - 1];
            && |h.timestamps| == rpm
            && (Attempted(h.timestamps, rpm, later).1 <==> later >= now + SleepFor(h.timestamps[0], now))
  {
    var h, now := After(rpm, clock), clock[|clock| - 1];
    RunsKeepInv(rpm, clock);
    DequeIsBounded(rpm, clock);
    assert Ascending(h.timestamps);
    PrunedIsLive(h.timestamps, later);
    assert h.timestamps[0] == h.grants[|h.grants| - rpm];
    assert !Expired(h.timestamps[0], now);
  }

  lemma {:induction false} PrunedIsShorter(timestamps: seq<real>, now: real)
    ensures |Pruned(timestamps, now)| <= |timestamps|
  {
    if timestamps != [] {
      PrunedIsShorter(timestamps[1..], now);
    }
  }

  lemma {:induction false} DequeIsBounded(rpm: int, clock: seq<real>)
    requires rpm > 0
    ensures |After(rpm, clock).timestamps| <= rpm
  {
    if clock != [] {
      DequeIsBounded(rpm, clock[..|clock| - 1]);
      PrunedIsShorter(After(rpm, clock[..|clock| - 1]).timestamps, clock[|clock| - 1]);
    }
  }
}
