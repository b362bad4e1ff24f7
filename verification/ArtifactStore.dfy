/** The bounded in-memory artifact store (storage/artifact_store.py). Its ordered dictionary is the list
of its entries, least recently used first. The clock is a parameter. */
module ArtifactStore {
  import opened Wrappers
  import ArtifactPaging

  datatype Id = Id(text: string)

  datatype Source = TextSource(content: string) | BytesSource(bytes: seq<int>) | FileSource(path: string)

  /** `size` is the content's length in bytes when it was put. Files are referenced, not held. */
  datatype Entry = Entry(id: Id, size: nat, source: Source, durable: bool, expiresAt: Option<real>, runId: string)

  function Inline(e: Entry): nat {
    if e.source.FileSource? then 0 else e.size
  }

  function Total(es: seq<Entry>): nat {
    if es == [] then 0 else Inline(es[0]) + Total(es[1..])
  }

  predicate Expired(e: Entry, now: real) {
    e.expiresAt.Some? && now >= e.expiresAt.value
  }

  function ExpiresAt(durable: bool, expiresAt: Option<real>, defaultTtl: int, now: real): Option<real> {
    if durable then None
    else if expiresAt.Some? then expiresAt
    else if defaultTtl <= 0 then None
    else Some(now + defaultTtl as real)
  }

  function TextEntry(
    id: Id, content: string, runId: string, durable: bool, expiresAt: Option<real>, defaultTtl: int, now: real): Entry
  {
    Entry(id, ArtifactPaging.Utf8Length(content), TextSource(content), durable,
          ExpiresAt(durable, expiresAt, defaultTtl, now), runId)
  }

  /** Durable entries have no expiry, and the size of held content is its length in bytes. */
  predicate WellFormed(e: Entry) {
    && (e.durable ==> e.expiresAt.None?)
    && (e.source.TextSource? ==> e.size == ArtifactPaging.Utf8Length(e.source.content))
    && (e.source.BytesSource? ==> e.size == |e.source.bytes|)
  }

  /** What an entry weighs: the bytes of the content it holds, and nothing for a file. */
  lemma InlineIsHeldContent(e: Entry)
    requires WellFormed(e)
    ensures match e.source
            case TextSource(content) => Inline(e) == ArtifactPaging.Utf8Length(content)
            case BytesSource(bytes) => Inline(e) == |bytes|
            case FileSource(_) => Inline(e) == 0
    ensures Total([e]) == Inline(e)
  {
    assert Total([e][1..]) == 0;
  }

  // Entry lists

  ghost predicate UniqueIds(es: seq<Entry>) {
    forall i, j :: 0 <= i < j < |es| ==> es[i].id != es[j].id
  }

  function Filter(es: seq<Entry>, keep: Entry -> bool): seq<Entry> {
    if es == [] then [] else (if keep(es[0]) then [es[0]] else []) + Filter(es[1..], keep)
  }

  function Without(es: seq<Entry>, id: Id): seq<Entry> {
    Filter(es, (e: Entry) => e.id != id)
  }

  function Durable(es: seq<Entry>): seq<Entry> {
    Filter(es, (e: Entry) => e.durable)
  }

  function Perishable(es: seq<Entry>): seq<Entry> {
    Filter(es, (e: Entry) => !e.durable)
  }

  function Find(es: seq<Entry>, id: Id): Option<Entry> {
    if es == [] then None else if es[0].id == id then Some(es[0]) else Find(es[1..], id)
  }

  /** The bytes held under `id`. */
  function HeldUnder(es: seq<Entry>, id: Id): nat {
    match Find(es, id)
    case None => 0
    case Some(e) => Inline(e)
  }

  /** The list without its `k` oldest entries that are not durable. */
  function Skipping(es: seq<Entry>, k: nat): seq<Entry> {
    if es == [] || k == 0 then es
    else if es[0].durable then [es[0]] + Skipping(es[1..], k)
    else Skipping(es[1..], k - 1)
  }

  lemma {:induction false} FilterConcat(a: seq<Entry>, b: seq<Entry>, keep: Entry -> bool)
    ensures Filter(a + b, keep) == Filter(a, keep) + Filter(b, keep)
  {
    if a == [] {
      assert a + b == b;
      assert Filter(a, keep) + Filter(b, keep) == Filter(b, keep);
    } else {
      var head := if keep(a[0]) then [a[0]] else [];
      assert (a + b)[1..] == a[1..] + b && (a + b)[0] == a[0];
      FilterConcat(a[1..], b, keep);
      assert Filter(a + b, keep) == head + (Filter(a[1..], keep) + Filter(b, keep));
    }
  }

  lemma {:induction false} FilterKeeps(es: seq<Entry>, keep: Entry -> bool)
    ensures |Filter(es, keep)| <= |es|
    ensures forall i :: 0 <= i < |Filter(es, keep)| ==> Filter(es, keep)[i] in es && keep(Filter(es, keep)[i])
    ensures forall e :: e in es && keep(e) ==> e in Filter(es, keep)
  {
    if es != [] {
      FilterKeeps(es[1..], keep);
      var rest := Filter(es[1..], keep);
      assert es == [es[0]] + es[1..];
      forall i | 0 <= i < |Filter(es, keep)|
        ensures Filter(es, keep)[i] in es && keep(Filter(es, keep)[i])
      {
        if keep(es[0]) && i > 0 {
          assert Filter(es, keep)[i] == rest[i - 1];
        }
      }
    }
  }

  lemma {:induction false} FilterUnique(es: seq<Entry>, keep: Entry -> bool)
    requires UniqueIds(es)
    ensures UniqueIds(Filter(es, keep))
  {
    if es != [] {
      FilterUnique(es[1..], keep);
      FilterKeeps(es[1..], keep);
    }
  }

  lemma {:induction false} FilterTwice(es: seq<Entry>, p: Entry -> bool, q: Entry -> bool, both: Entry -> bool)
    requires forall e :: both(e) <==> p(e) && q(e)
    ensures Filter(Filter(es, p), q) == Filter(es, both)
  {
    if es != [] {
      FilterTwice(es[1..], p, q, both);
      var rest := Filter(es[1..], p);
      assert Filter(es, p) == (if p(es[0]) then [es[0]] else []) + rest;
      assert !p(es[0]) ==> Filter(es, p) == rest;
      FilterConcat([es[0]], rest, q);
      assert Filter([es[0]], q) == if q(es[0]) then [es[0]] else [];
    }
  }

  lemma {:induction false} FilterAll(es: seq<Entry>, keep: Entry -> bool)
    requires forall e :: e in es ==> keep(e)
    ensures Filter(es, keep) == es
  {
    if es != [] {
      FilterAll(es[1..], keep);
    }
  }

  /** Filters that agree on the entries of the list agree. */
  lemma {:induction false} FilterSame(es: seq<Entry>, p: Entry -> bool, q: Entry -> bool)
    requires forall e :: e in es ==> p(e) == q(e)
    ensures Filter(es, p) == Filter(es, q)
  {
    if es != [] {
      FilterSame(es[1..], p, q);
    }
  }

  lemma {:induction false} TotalConcat(a: seq<Entry>, b: seq<Entry>)
    ensures Total(a + b) == Total(a) + Total(b)
  {
    if a == [] {
      assert a + b == b;
    } else {
      assert (a + b)[1..] == a[1..] + b;
      TotalConcat(a[1..], b);
    }
  }

  /** Taking one entry out takes its bytes out of the sum. */
  lemma {:induction false} WithoutOne(es: seq<Entry>, id: Id)
    requires UniqueIds(es)
    ensures Total(Without(es, id)) == Total(es) - HeldUnder(es, id)
    ensures Find(es, id).None? ==> Without(es, id) == es
    ensures |Without(es, id)| == |es| - if Find(es, id).Some? then 1 else 0
  {
    if es != [] {
      assert UniqueIds(es[1..]);
      WithoutOne(es[1..], id);
      var rest := Without(es[1..], id);
      if es[0].id == id {
        FindNothing(es[1..], id);
        assert Without(es, id) == rest;
      } else {
        TotalConcat([es[0]], rest);
        assert Without(es, id) == [es[0]] + rest;
      }
    }
  }

  lemma {:induction false} FindNothing(es: seq<Entry>, id: Id)
    requires forall i :: 0 <= i < |es| ==> es[i].id != id
    ensures Find(es, id).None?
  {
    if es != [] {
      FindNothing(es[1..], id);
    }
  }

  lemma {:induction false} FoundIsThere(es: seq<Entry>, id: Id)
    ensures Find(es, id).Some? ==> Find(es, id).value in es && Find(es, id).value.id == id
    ensures Find(es, id).None? ==> forall i :: 0 <= i < |es| ==> es[i].id != id
  {
    if es != [] {
      FoundIsThere(es[1..], id);
    }
  }

  // Skipping the oldest entries that are not durable

  lemma FilterStep(es: seq<Entry>, keep: Entry -> bool)
    requires es != []
    ensures Filter(es, keep) == if keep(es[0]) then [es[0]] + Filter(es[1..], keep) else Filter(es[1..], keep)
  {
  }

  lemma {:induction false} SkippingKeepsDurable(es: seq<Entry>, k: nat)
    ensures Durable(Skipping(es, k)) == Durable(es)
  {
    hide Filter;
    if es != [] && k > 0 {
      FilterStep(es, (e: Entry) => e.durable);
      if es[0].durable {
        SkippingKeepsDurable(es[1..], k);
        FilterStep(Skipping(es, k), (e: Entry) => e.durable);
      } else {
        SkippingKeepsDurable(es[1..], k - 1);
      }
    }
  }

  lemma {:induction false} SkippingDropsOldest(es: seq<Entry>, k: nat)
    ensures k <= |Perishable(es)| ==> Perishable(Skipping(es, k)) == Perishable(es)[k..]
    ensures k > |Perishable(es)| ==> Perishable(Skipping(es, k)) == []
  {
    hide Filter;
    if es == [] {
      FilterAll(es, (e: Entry) => !e.durable);
    } else if k > 0 {
      FilterStep(es, (e: Entry) => !e.durable);
      if es[0].durable {
        SkippingDropsOldest(es[1..], k);
        FilterStep(Skipping(es, k), (e: Entry) => !e.durable);
      } else {
        SkippingDropsOldest(es[1..], k - 1);
      }
    }
  }

  lemma {:induction false} SplitAdds(es: seq<Entry>)
    ensures |es| == |Durable(es)| + |Perishable(es)|
    ensures Total(es) == Total(Durable(es)) + Total(Perishable(es))
  {
    hide Filter;
    if es == [] {
      FilterAll(es, (e: Entry) => !e.durable);
      FilterAll(es, (e: Entry) => e.durable);
    } else {
      FilterStep(es, (e: Entry) => e.durable);
      FilterStep(es, (e: Entry) => !e.durable);
      SplitAdds(es[1..]);
    }
  }

  /** The durable entries all stay, the others lose their `k` oldest, and nothing else changes. */
  lemma SkippingSplits(es: seq<Entry>, k: nat)
    ensures Durable(Skipping(es, k)) == Durable(es)
    ensures k <= |Perishable(es)| ==> Perishable(Skipping(es, k)) == Perishable(es)[k..]
    ensures k > |Perishable(es)| ==> Perishable(Skipping(es, k)) == []
    ensures |es| == |Durable(es)| + |Perishable(es)|
    ensures Total(es) == Total(Durable(es)) + Total(Perishable(es))
  {
    SkippingKeepsDurable(es, k);
    SkippingDropsOldest(es, k);
    SplitAdds(es);
  }

  lemma {:induction false} SkippingInSteps(es: seq<Entry>, k: nat)
    ensures Skipping(Skipping(es, k), 1) == Skipping(es, k + 1)
  {
    if es != [] && k > 0 {
      if es[0].durable {
        SkippingInSteps(es[1..], k);
      } else {
        SkippingInSteps(es[1..], k - 1);
      }
    }
  }

  lemma {:induction false} SkippingKeeps(es: seq<Entry>, k: nat)
    ensures forall e :: e in Skipping(es, k) ==> e in es
    ensures UniqueIds(es) ==> UniqueIds(Skipping(es, k))
    ensures Total(Skipping(es, k)) <= Total(es) && |Skipping(es, k)| <= |es|
  {
    if es != [] && k > 0 {
      if es[0].durable {
        SkippingKeeps(es[1..], k);
        SkippedUnique(es, k);
      } else {
        SkippingKeeps(es[1..], k - 1);
        assert UniqueIds(es) ==> UniqueIds(es[1..]);
      }
    }
  }

  lemma SkippedUnique(es: seq<Entry>, k: nat)
    requires es != [] && (forall e :: e in Skipping(es[1..], k) ==> e in es[1..])
    requires UniqueIds(es[1..]) ==> UniqueIds(Skipping(es[1..], k))
    ensures UniqueIds(es) ==> UniqueIds([es[0]] + Skipping(es[1..], k))
  {
    if UniqueIds(es) {
      var rest := Skipping(es[1..], k);
      assert UniqueIds(es[1..]);
      forall j | 0 <= j < |rest|
        ensures rest[j].id != es[0].id
      {
        assert rest[j] in es[1..];
      }
    }
  }

  // Limits

  datatype Limits = Limits(maxEntries: int, maxBytes: int)

  /** The two loop guards of the eviction, for a counter that shows `drift` bytes too many. */
  predicate TooMany(es: seq<Entry>, l: Limits) {
    l.maxEntries > 0 && |es| > l.maxEntries
  }

  predicate TooBig(es: seq<Entry>, drift: nat, l: Limits) {
    l.maxBytes > 0 && Total(es) + drift > l.maxBytes && es != []
  }

  predicate Over(es: seq<Entry>, drift: nat, l: Limits) {
    TooMany(es, l) || TooBig(es, drift, l)
  }

  /** The list after the shortest eviction that meets the limits. */
  ghost predicate EvictedTo(es: seq<Entry>, drift: nat, l: Limits, after: seq<Entry>) {
    exists k: nat :: ShortestEviction(es, drift, l, k) && after == Skipping(es, k)
  }

  ghost predicate ShortestEviction(es: seq<Entry>, drift: nat, l: Limits, k: nat) {
    !Over(Skipping(es, k), drift, l) && forall j: nat :: j < k ==> Over(Skipping(es, j), drift, l)
  }

  /** Nothing is evicted while the limits are met, a limit that is not positive being none; and what was evicted
      last went from a list that exceeded one. */
  lemma EvictsOnlyWhatItMust(es: seq<Entry>, drift: nat, l: Limits, after: seq<Entry>)
    requires EvictedTo(es, drift, l, after)
    ensures after == es <==> !(0 < l.maxEntries < |es|) && !(0 < l.maxBytes < Total(es) + drift && es != [])
    ensures after != es ==> exists k: nat :: && after == Skipping(Skipping(es, k), 1)
                                             && (0 < l.maxEntries < |Skipping(es, k)| ||
                                                 0 < l.maxBytes < Total(Skipping(es, k)) + drift)
  {
    hide Skipping, Total;
    var k: nat :| ShortestEviction(es, drift, l, k) && after == Skipping(es, k);
    NothingSkipped(es);
    if k > 0 {
      SkippingInSteps(es, k - 1);
      assert Over(Skipping(es, k - 1), drift, l) && Over(Skipping(es, 0), drift, l);
    }
  }

  lemma AllSkipped(es: seq<Entry>, k: nat)
    requires k >= |Perishable(es)|
    ensures Skipping(es, k) == Durable(es)
  {
    SkippingSplits(es, k);
    OnlyDurable(Skipping(es, k));
  }

  lemma {:induction false} OnlyDurable(es: seq<Entry>)
    requires Perishable(es) == []
    ensures Durable(es) == es
  {
    if es != [] {
      OnlyDurable(es[1..]);
    }
  }

  lemma SkippingIsMonotone(es: seq<Entry>, drift: nat, l: Limits, j: nat, k: nat)
    requires j <= k && !Over(Skipping(es, j), drift, l)
    ensures !Over(Skipping(es, k), drift, l)
    decreases k
  {
    if j < k {
      SkippingIsMonotone(es, drift, l, j, k - 1);
      SkippingInSteps(es, k - 1);
      SkippingKeeps(Skipping(es, k - 1), 1);
    }
  }

  /** Evicting ends if and only if the durable entries alone meet the limits: otherwise one of the loop
      guards holds after any number of evictions. */
  lemma EvictionEndsExactlyWhenDurableFit(es: seq<Entry>, drift: nat, l: Limits)
    ensures !Over(Durable(es), drift, l) <==> exists k: nat :: !Over(Skipping(es, k), drift, l)
  {
    AllSkipped(es, |Perishable(es)|);
    if k: nat :| !Over(Skipping(es, k), drift, l) {
      var n := |Perishable(es)|;
      SkippingIsMonotone(es, drift, l, k, if k <= n then n else k);
      AllSkipped(es, if k <= n then n else k);
    }
  }

  function Pinned(name: string): Entry {
    Entry(Id(name), 1, FileSource(name), true, None, "")
  }

  /** Two durable entries under a limit of one: no number of evictions is enough. */
  lemma PinnedEntriesBlockEviction(k: nat)
    ensures Over(Skipping([Pinned("a"), Pinned("b")], k), 0, Limits(1, 0))
  {
    var es := [Pinned("a"), Pinned("b")];
    FilterAll(es, (e: Entry) => e.durable);
    EvictionEndsExactlyWhenDurableFit(es, 0, Limits(1, 0));
  }

  /** A new entry survives its own arrival exactly when it is durable or there is room for it beside the
      durable entries. */
  lemma NewcomerSurvives(es: seq<Entry>, e: Entry, drift: nat, l: Limits, after: seq<Entry>)
    requires UniqueIds(es + [e]) && EvictedTo(es + [e], drift, l, after)
    ensures e in after <==> e.durable || !Over(Durable(es) + [e], drift, l)
  {
    var all := es + [e];
    var k: nat :| ShortestEviction(all, drift, l, k) && after == Skipping(all, k);
    var p := |Perishable(es)|;
    FilterConcat(es, [e], (x: Entry) => x.durable);
    FilterConcat(es, [e], (x: Entry) => !x.durable);
    assert Filter([e], (x: Entry) => x.durable) == if e.durable then [e] else [];
    assert Filter([e], (x: Entry) => !x.durable) == if e.durable then [] else [e];
    LastIsSkippedLast(es, e, k);
    if !e.durable {
      LastIsSkippedLast(es, e, p);
      AllSkipped(es, p);
      assert Skipping(all, p) == Durable(es) + [e];
      if k <= p {
        SkippingIsMonotone(all, drift, l, k, p);
      }
    }
  }

  lemma {:induction false} LastIsSkippedLast(es: seq<Entry>, e: Entry, k: nat)
    requires UniqueIds(es + [e])
    ensures e in Skipping(es + [e], k) <==> e.durable || k <= |Perishable(es)|
    ensures k <= |Perishable(es)| ==> Skipping(es + [e], k) == Skipping(es, k) + [e]
  {
    assert (es + [e])[|es|] == e;
    if es == [] {
      assert es + [e] == [e];
    } else {
      assert (es + [e])[1..] == es[1..] + [e];
      assert (es + [e])[0].id != (es + [e])[|es|].id;
      assert UniqueIds(es[1..] + [e]);
      if k > 0 {
        LastIsSkippedLast(es[1..], e, if es[0].durable then k else k - 1);
      }
    }
  }

  // The store

  class InMemoryArtifactStore {
    const limits: Limits
    const defaultTtl: int
    var entries: seq<Entry>
    var totalInlineBytes: int

    ghost predicate Valid()
      reads this
    {
      && UniqueIds(entries)
      && totalInlineBytes >= Total(entries)
      && forall e :: e in entries ==> WellFormed(e)
    }

    /** By how much the byte counter is too high. It is 0 as long as no put reuses an identifier. */
    ghost function Drift(): nat
      reads this
      requires Valid()
    {
      totalInlineBytes - Total(entries)
    }

    constructor (maxEntries: int, maxBytes: int, defaultTtl: int)
      ensures Valid() && entries == [] && Drift() == 0
      ensures limits == Limits(maxEntries, maxBytes) && this.defaultTtl == defaultTtl
    {
      limits, this.defaultTtl := Limits(maxEntries, maxBytes), defaultTtl;
      entries, totalInlineBytes := [], 0;
    }

    /** The clamp at 0 never acts: the entry's bytes come off the counter exactly. */
    method DeleteUnlocked(id: Id)
      requires Valid()
      modifies this
      ensures Valid() && Drift() == old(Drift())
      ensures entries == Without(old(entries), id)
      ensures totalInlineBytes == old(totalInlineBytes) - HeldUnder(old(entries), id)
    {
      WithoutOne(entries, id);
      FilterUnique(entries, (e: Entry) => e.id != id);
      FilterKeeps(entries, (e: Entry) => e.id != id);
      var found := Find(entries, id);
      if found.Some? {
        entries := Without(entries, id);
        if !found.value.source.FileSource? {
          var left := totalInlineBytes - found.value.size;
          totalInlineBytes := if left > 0 then left else 0;
        }
      }
    }

    /** Deletes, one identifier after the other, the entries of a snapshot that `drop` selects. */
    method DeleteSelected(drop: Entry -> bool)
      requires Valid()
      modifies this
      ensures Valid() && Drift() == old(Drift())
      ensures entries == Filter(old(entries), (e: Entry) => !drop(e))
    {
      hide Filter, UniqueIds;
      var snapshot := entries;
      ghost var keep := (e: Entry) => !drop(e);
      FilterAll([], keep);
      assert snapshot[..0] == [] && snapshot[0..] == snapshot;
      for i := 0 to |snapshot|
        invariant Valid() && Drift() == old(Drift())
        invariant entries == Filter(snapshot[..i], keep) + snapshot[i..]
      {
        NextInSnapshot(snapshot, i, keep);
        if drop(snapshot[i]) {
          DeleteUnlocked(snapshot[i].id);
        }
      }
      assert snapshot[..|snapshot|] == snapshot;
      FilterSame(snapshot, keep, (e: Entry) => !drop(e));
    }

    method EvictExpired(now: real)
      requires Valid()
      modifies this
      ensures Valid() && Drift() == old(Drift())
      ensures entries == Filter(old(entries), (e: Entry) => !Expired(e, now))
      ensures forall e :: e in entries <==> e in old(entries) && (e.expiresAt.None? || now < e.expiresAt.value)
      ensures Durable(entries) == Durable(old(entries))
    {
      FilterKeeps(entries, (e: Entry) => !Expired(e, now));
      DeleteSelected((e: Entry) => Expired(e, now));
      FilterSame(old(entries), (e: Entry) => !((e: Entry) => Expired(e, now))(e), (e: Entry) => !Expired(e, now));
      DurableUnaffected(old(entries), (e: Entry) => !Expired(e, now));
    }

    method DeleteRun(runId: string)
      requires Valid()
      modifies this
      ensures Valid() && Drift() == old(Drift())
      ensures entries == Filter(old(entries), (e: Entry) => e.runId != runId || e.durable)
      ensures forall e :: e in entries <==> e in old(entries) && (e.runId != runId || e.durable)
      ensures Durable(entries) == Durable(old(entries))
    {
      FilterKeeps(entries, (e: Entry) => e.runId != runId || e.durable);
      DeleteSelected((e: Entry) => e.runId == runId && !e.durable);
      FilterSame(old(entries), (e: Entry) => !((e: Entry) => e.runId == runId && !e.durable)(e),
        (e: Entry) => e.runId != runId || e.durable);
      DurableUnaffected(old(entries), (e: Entry) => e.runId != runId || e.durable);
    }

    method DeleteOldestNonDurable()
      requires Valid()
      modifies this
      ensures Valid() && Drift() == old(Drift())
      ensures entries == Skipping(old(entries), 1)
    {
      for i := 0 to |entries|
        invariant entries == old(entries) && totalInlineBytes == old(totalInlineBytes)
        invariant forall j :: 0 <= j < i ==> entries[j].durable
      {
        if !entries[i].durable {
          SkippingOne(entries, i);
          DeleteUnlocked(entries[i].id);
          return;
        }
      }
      SkippingNothing(entries);
    }

    /** Ends with both limits met, having dropped as few entries as possible, oldest first and never a
        durable one. */
    method EvictToLimits()
      requires Valid()
      requires !Over(Durable(entries), Drift(), limits)
      modifies this
      ensures Valid() && Drift() == old(Drift())
      ensures EvictedTo(old(entries), Drift(), limits, entries)
      ensures limits.maxEntries > 0 ==> |entries| <= limits.maxEntries
      ensures limits.maxBytes > 0 && entries != [] ==> totalInlineBytes <= limits.maxBytes
      ensures !Over(entries, Drift(), limits) && Durable(entries) == Durable(old(entries))
    {
      hide Skipping, UniqueIds;
      ghost var k: nat := 0;
      ghost var drift := Drift();
      NothingSkipped(entries);
      while limits.maxEntries > 0 && |entries| > limits.maxEntries
        invariant Valid() && Drift() == drift
        invariant entries == Skipping(old(entries), k)
        invariant k <= |Perishable(old(entries))|
        invariant forall j: nat :: j < k ==> Over(Skipping(old(entries), j), drift, limits)
        decreases |Perishable(old(entries))| - k
      {
        SomethingToSkip(old(entries), drift, limits, k);
        SkippingInSteps(old(entries), k);
        DeleteOldestNonDurable();
        k := k + 1;
      }
      while limits.maxBytes > 0 && totalInlineBytes > limits.maxBytes && entries != []
        invariant Valid() && Drift() == drift && !TooMany(entries, limits)
        invariant entries == Skipping(old(entries), k)
        invariant k <= |Perishable(old(entries))|
        invariant forall j: nat :: j < k ==> Over(Skipping(old(entries), j), drift, limits)
        decreases |Perishable(old(entries))| - k
      {
        SomethingToSkip(old(entries), drift, limits, k);
        SkippingInSteps(old(entries), k);
        SkippingKeeps(entries, 1);
        DeleteOldestNonDurable();
        k := k + 1;
      }
      SkippingSplits(old(entries), k);
      assert ShortestEviction(old(entries), drift, limits, k);
    }

    /** The durable entries, the new one included if it is durable, meet the limits by themselves. */
    ghost predicate Fits(e: Entry, now: real)
      reads this
      requires Valid()
    {
      var kept := Filter(entries, (x: Entry) => !Expired(x, now));
      !Over(Durable(Without(kept, e.id) + [e]), Drift() + HeldUnder(kept, e.id), limits)
    }

    /** Stores an entry as the most recently used one, after expired entries are gone and before the
        limits are enforced. Reusing an identifier leaves the counter too high by the bytes replaced. */
    method PutEntry(e: Entry, now: real)
      requires Valid() && WellFormed(e) && Fits(e, now)
      modifies this
      ensures Valid()
      ensures var kept := Filter(old(entries), (x: Entry) => !Expired(x, now));
              && Drift() == old(Drift()) + HeldUnder(kept, e.id)
              && EvictedTo(Without(kept, e.id) + [e], Drift(), limits, entries)
      ensures !Over(entries, Drift(), limits)
      ensures limits.maxEntries > 0 ==> |entries| <= limits.maxEntries
      ensures limits.maxBytes > 0 && entries != [] ==> totalInlineBytes <= limits.maxBytes
    {
      EvictExpired(now);
      WithoutOne(entries, e.id);
      AddLast(entries, e);
      TotalConcat(Without(entries, e.id), [e]);
      entries := Without(entries, e.id) + [e];
      if !e.source.FileSource? {
        totalInlineBytes := totalInlineBytes + e.size;
      }
      EvictToLimits();
    }

    method PutText(id: Id, content: string, runId: string, durable: bool, expiresAt: Option<real>, now: real) returns (e: Entry)
      requires Valid()
      requires Fits(TextEntry(id, content, runId, durable, expiresAt, defaultTtl, now), now)
      modifies this
      ensures e == TextEntry(id, content, runId, durable, expiresAt, defaultTtl, now)
      ensures e.id == id && e.source == TextSource(content) && e.size == ArtifactPaging.Utf8Length(content)
      ensures e.durable == durable && e.runId == runId
      ensures durable || (expiresAt.None? && defaultTtl <= 0) ==> e.expiresAt.None?
      ensures !durable && expiresAt.Some? ==> e.expiresAt == expiresAt
      ensures !durable && expiresAt.None? && defaultTtl > 0 ==> e.expiresAt == Some(now + defaultTtl as real)
      ensures limits.maxEntries > 0 ==> |entries| <= limits.maxEntries
      ensures limits.maxBytes > 0 && entries != [] ==> totalInlineBytes <= limits.maxBytes
      ensures Valid() && !Over(entries, Drift(), limits)
      ensures var kept := Filter(old(entries), (x: Entry) => !Expired(x, now));
              && Drift() == old(Drift()) + HeldUnder(kept, id)
              && EvictedTo(Without(kept, id) + [e], Drift(), limits, entries)
    {
      e := TextEntry(id, content, runId, durable, expiresAt, defaultTtl, now);
      PutEntry(e, now);
    }

    /** Reads a piece of a live artifact; a missing or expired one reads as an empty text. `file` is what the
        file of a file artifact holds now, `decode` turns bytes into text. */
    method ReadArtifact(id: Id, offset: int, limit: int, now: real, file: seq<int>, decode: seq<int> -> string)
      returns (r: ArtifactPaging.ArtifactRead)
      requires Valid()
      modifies this
      ensures Valid() && Drift() == old(Drift())
      ensures match Find(old(entries), id)
              case None => r == ArtifactPaging.Read("", offset, limit)
              case Some(e) =>
                if Expired(e, now) then r == ArtifactPaging.Read("", offset, limit)
                else match e.source
                  case TextSource(content) => r == ArtifactPaging.Read(content, offset, limit)
                  case BytesSource(bytes) => r == ArtifactPaging.ReadBytes(bytes, decode, |bytes|, offset, limit)
                  case FileSource(_) => r == ArtifactPaging.ReadBytes(file, decode, e.size, offset, limit)
    {
      var found := Lookup(id, now);
      var safeOffset, safeLimit := ArtifactPaging.AtLeast(0, offset), ArtifactPaging.AtLeast(0, limit);
      match found {
        case None =>
          return ArtifactPaging.ArtifactRead("", safeOffset, safeLimit, None, 0, true);
        case Some(e) =>
          FoundIsThere(old(entries), id);
          var content := "";
          if safeLimit != 0 {
            match e.source {
              case TextSource(text) => content := ArtifactPaging.Slice(text, safeOffset, safeLimit);
              case BytesSource(bytes) => content := decode(ArtifactPaging.Slice(bytes, safeOffset, safeLimit));
              case FileSource(_) => content := decode(ArtifactPaging.Slice(file, safeOffset, safeLimit));
            }
          }
          var next := safeOffset + ArtifactPaging.Utf8Length(content);
          var eof := next >= e.size || safeLimit == 0;
          return ArtifactPaging.ArtifactRead(content, safeOffset, safeLimit, if eof then None else Some(next), e.size, eof);
      }
    }

    /** The lookup of every read: an expired entry is deleted, a live one becomes the most recently used. */
    method Lookup(id: Id, now: real) returns (found: Option<Entry>)
      requires Valid()
      modifies this
      ensures Valid() && Drift() == old(Drift())
      ensures found == (match Find(old(entries), id)
                        case None => None
                        case Some(e) => if Expired(e, now) then None else Some(e))
      ensures found.Some? ==> found.value in old(entries) && found.value.id == id
      ensures found.Some? ==> found.value.expiresAt.None? || now < found.value.expiresAt.value
      ensures found.None? ==>
                forall e :: e in old(entries) && e.id == id ==> e.expiresAt.Some? && e.expiresAt.value <= now
      ensures entries == if found.Some? then Without(old(entries), id) + [found.value] else
                           Filter(old(entries), (e: Entry) => !(e.id == id && Expired(e, now)))
    {
      found := Find(entries, id);
      FoundIsThere(entries, id);
      if found.None? {
        FilterAll(entries, (e: Entry) => !(e.id == id && Expired(e, now)));
        return;
      }
      var e := found.value;
      if Expired(e, now) {
        OnlyOneWithId(entries, e);
        FilterSame(entries, (x: Entry) => x.id != id, (x: Entry) => !(x.id == id && Expired(x, now)));
        DeleteUnlocked(id);
        return None;
      }
      WithoutOne(entries, id);
      AddLast(entries, e);
      TotalConcat(Without(entries, id), [e]);
      entries := Without(entries, id) + [e];
    }

    /** Collects garbage, and reports how many entries it removed. */
    method Gc(now: real) returns (deleted: int)
      requires Valid()
      requires !Over(Durable(entries), Drift(), limits)
      modifies this
      ensures Valid() && Drift() == old(Drift())
      ensures EvictedTo(Filter(old(entries), (e: Entry) => !Expired(e, now)), Drift(), limits, entries)
      ensures forall e :: e in entries ==> e.expiresAt.None? || now < e.expiresAt.value
      ensures limits.maxEntries > 0 ==> |entries| <= limits.maxEntries
      ensures limits.maxBytes > 0 && entries != [] ==> totalInlineBytes <= limits.maxBytes
      ensures !Over(entries, Drift(), limits) && Durable(entries) == Durable(old(entries))
      ensures deleted == |old(entries)| - |entries| >= 0
    {
      var before := |entries|;
      EvictExpired(now);
      FilterKeeps(old(entries), (e: Entry) => !Expired(e, now));
      ghost var kept := entries;
      EvictToLimits();
      SkippedCount(kept, Drift(), limits, entries);
      deleted := before - |entries|;
    }
  }

  lemma SkippedCount(es: seq<Entry>, drift: nat, l: Limits, after: seq<Entry>)
    requires EvictedTo(es, drift, l, after)
    ensures |after| <= |es| && forall e :: e in after ==> e in es
  {
    var k: nat :| ShortestEviction(es, drift, l, k) && after == Skipping(es, k);
    SkippingKeeps(es, k);
  }

  lemma OnlyOneWithId(es: seq<Entry>, e: Entry)
    requires UniqueIds(es) && e in es
    ensures forall x :: x in es && x.id == e.id ==> x == e
  {
  }

  lemma OtherIds(a: seq<Entry>, e: Entry, b: seq<Entry>)
    requires UniqueIds(a + [e] + b)
    ensures forall x :: x in a ==> x.id != e.id
    ensures forall x :: x in b ==> x.id != e.id
  {
    var all := a + [e] + b;
    assert all[|a|] == e;
    assert forall i :: 0 <= i < |a| ==> all[i] == a[i];
    assert forall i :: 0 <= i < |b| ==> all[|a| + 1 + i] == b[i];
  }

  lemma WithoutMiddle(a: seq<Entry>, e: Entry, b: seq<Entry>)
    requires UniqueIds(a + [e] + b)
    ensures Without(a + [e] + b, e.id) == a + b
  {
    hide Filter, UniqueIds;
    var keep := (x: Entry) => x.id != e.id;
    OtherIds(a, e, b);
    FilterConcat(a + [e], b, keep);
    FilterConcat(a, [e], keep);
    FilterAll(a, keep);
    FilterAll(b, keep);
    FilterStep([e], keep);
    FilterAll([], keep);
    assert [e][1..] == [];
  }

  lemma NextInSnapshot(es: seq<Entry>, i: nat, keep: Entry -> bool)
    requires i < |es| && UniqueIds(Filter(es[..i], keep) + es[i..])
    ensures var now, next := Filter(es[..i], keep) + es[i..], Filter(es[..i + 1], keep) + es[i + 1..];
            next == if keep(es[i]) then now else Without(now, es[i].id)
  {
    hide Filter, UniqueIds;
    var done, e, rest := Filter(es[..i], keep), es[i], es[i + 1..];
    assert es[i..] == [e] + rest;
    assert es[..i + 1] == es[..i] + [e];
    FilterConcat(es[..i], [e], keep);
    FilterStep([e], keep);
    FilterAll([], keep);
    assert [e][1..] == [];
    assert Filter([e], keep) == if keep(e) then [e] else [];
    assert done + es[i..] == done + [e] + rest;
    if !keep(e) {
      assert Filter(es[..i + 1], keep) == done;
      WithoutMiddle(done, e, rest);
    }
  }

  lemma DurableUnaffected(es: seq<Entry>, keep: Entry -> bool)
    requires forall e :: e in es && e.durable ==> keep(e)
    ensures Durable(Filter(es, keep)) == Durable(es)
  {
    var both := (e: Entry) => keep(e) && e.durable;
    FilterTwice(es, keep, (e: Entry) => e.durable, both);
    FilterSame(es, both, (e: Entry) => e.durable);
  }

  lemma {:induction false} SkippingOne(es: seq<Entry>, i: nat)
    requires UniqueIds(es) && i < |es| && !es[i].durable && forall j :: 0 <= j < i ==> es[j].durable
    ensures Skipping(es, 1) == Without(es, es[i].id)
  {
    if i == 0 {
      FilterAll(es[1..], (e: Entry) => e.id != es[0].id);
    } else {
      assert UniqueIds(es[1..]);
      SkippingOne(es[1..], i - 1);
    }
  }

  lemma {:induction false} SkippingNothing(es: seq<Entry>)
    requires forall j :: 0 <= j < |es| ==> es[j].durable
    ensures Skipping(es, 1) == es
  {
    if es != [] {
      SkippingNothing(es[1..]);
    }
  }

  lemma NothingSkipped(es: seq<Entry>)
    ensures Skipping(es, 0) == es
  {
  }

  lemma SomethingToSkip(es: seq<Entry>, drift: nat, l: Limits, k: nat)
    requires !Over(Durable(es), drift, l) && Over(Skipping(es, k), drift, l)
    ensures k < |Perishable(es)|
  {
    if k >= |Perishable(es)| {
      AllSkipped(es, k);
    }
  }

  /** An entry placed at the end after any entry with its identifier is taken out. */
  lemma AddLast(es: seq<Entry>, e: Entry)
    requires UniqueIds(es)
    ensures UniqueIds(Without(es, e.id) + [e])
    ensures forall x :: x in Without(es, e.id) ==> x in es
    ensures Total([e]) == Inline(e)
  {
    FilterUnique(es, (x: Entry) => x.id != e.id);
    FilterKeeps(es, (x: Entry) => x.id != e.id);
  }
}
