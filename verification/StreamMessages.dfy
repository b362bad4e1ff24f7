/** The message a list of stream chunks stands for (core/stream_aggregator.py). */
module StreamMessages {
  import opened Wrappers
  import opened StableSorting

  const STREAM_MAX_CHUNKS := 20000
  const STREAM_MAX_CONTENT_LENGTH := 512000

  /** A fragment of a tool call. An empty string stands for an absent field, index 0 for an absent index. */
  datatype ToolDelta = ToolDelta(index: int, id: string, name: string, arguments: string)

  datatype ToolPart = NoTool | One(delta: ToolDelta) | Many(deltas: seq<ToolDelta>)

  /** Token counts and metadata; the keys and values of the metadata are stood for by numbers. */
  datatype Usage = Usage(input: int, output: int, cached: int, metadata: map<int, int>)

  datatype Chunk = Chunk(thinking: string, content: string, tool: ToolPart, usage: Option<Usage>)

  datatype ToolEntry = ToolEntry(id: string, name: string, arguments: string)

  /** The tool calls so far: the indices in order of arrival and the entry of each. */
  datatype ToolCalls = ToolCalls(keys: seq<int>, calls: map<int, ToolEntry>)

  /** What the stream callback is told. */
  datatype Delta =
    | ThinkingPart(text: string)
    | ContentPart(text: string)
    | ArgsPart(index: int, entry: ToolEntry, text: string)

  datatype Message = Message(
    content: string, toolCalls: seq<ToolEntry>, thinking: string, usage: Usage, hasContent: bool, partial: bool)

  function Joined(parts: seq<string>): string {
    if parts == [] then "" else Joined(parts[..|parts| - 1]) + parts[|parts| - 1]
  }

  // One tool call fragment

  function Updated(e: ToolEntry, d: ToolDelta): ToolEntry {
    ToolEntry(
      if d.id != "" then d.id else e.id,
      if d.name != "" then d.name else e.name,
      e.arguments + d.arguments)
  }

  const NewEntry := ToolEntry("", "", "")

  function Merged(t: ToolCalls, d: ToolDelta): ToolCalls {
    if d.index in t.calls then ToolCalls(t.keys, t.calls[d.index := Updated(t.calls[d.index], d)])
    else ToolCalls(t.keys + [d.index], t.calls[d.index := Updated(NewEntry, d)])
  }

  const NoCalls := ToolCalls([], map[])

  function MergedAll(t: ToolCalls, ds: seq<ToolDelta>): ToolCalls {
    if ds == [] then t else Merged(MergedAll(t, ds[..|ds| - 1]), ds[|ds| - 1])
  }

  lemma {:induction false} MergedInParts(t: ToolCalls, a: seq<ToolDelta>, b: seq<ToolDelta>)
    ensures MergedAll(t, a + b) == MergedAll(MergedAll(t, a), b)
  {
    if b == [] {
      assert a + b == a;
    } else {
      assert (a + b)[..|a + b| - 1] == a + b[..|b| - 1];
      MergedInParts(t, a, b[..|b| - 1]);
    }
  }

  function OfIndex(ds: seq<ToolDelta>, i: int): seq<ToolDelta> {
    if ds == [] then []
    else OfIndex(ds[..|ds| - 1], i) + if ds[|ds| - 1].index == i then [ds[|ds| - 1]] else []
  }

  function Arguments(ds: seq<ToolDelta>): seq<string> {
    seq(|ds|, i requires 0 <= i < |ds| => ds[i].arguments)
  }

  /** The last non-empty text, if there is one. */
  function LastGiven(texts: seq<string>): string {
    if texts == [] then ""
    else if texts[|texts| - 1] != "" then texts[|texts| - 1]
    else LastGiven(texts[..|texts| - 1])
  }

  function Ids(ds: seq<ToolDelta>): seq<string> {
    seq(|ds|, i requires 0 <= i < |ds| => ds[i].id)
  }

  function ToolNames(ds: seq<ToolDelta>): seq<string> {
    seq(|ds|, i requires 0 <= i < |ds| => ds[i].name)
  }

  /** The call its own fragments spell out. */
  function Assembled(ds: seq<ToolDelta>): ToolEntry {
    ToolEntry(LastGiven(Ids(ds)), LastGiven(ToolNames(ds)), Joined(Arguments(ds)))
  }

  lemma AssembledStep(ds: seq<ToolDelta>, d: ToolDelta)
    ensures Assembled(ds + [d]) == Updated(Assembled(ds), d)
  {
    var k := |ds|;
    assert Ids(ds + [d]) == Ids(ds) + [d.id] && Ids(ds + [d])[..k] == Ids(ds);
    assert ToolNames(ds + [d]) == ToolNames(ds) + [d.name] && ToolNames(ds + [d])[..k] == ToolNames(ds);
    assert Arguments(ds + [d]) == Arguments(ds) + [d.arguments] && Arguments(ds + [d])[..k] == Arguments(ds);
  }

  /** However the fragments of different calls interleave, each call is put together from its own
      fragments in order. */
  lemma {:induction false} CallsAreAssembled(ds: seq<ToolDelta>, i: int)
    ensures i in MergedAll(NoCalls, ds).calls <==> OfIndex(ds, i) != []
    ensures i in MergedAll(NoCalls, ds).calls ==> MergedAll(NoCalls, ds).calls[i] == Assembled(OfIndex(ds, i))
  {
    hide Assembled;
    if ds != [] {
      var init, d := ds[..|ds| - 1], ds[|ds| - 1];
      CallsAreAssembled(init, i);
      MergedAt(MergedAll(NoCalls, init), d, i);
      AssembledStep(OfIndex(init, i), d);
      if OfIndex(init, i) == [] {
        NothingAssembled();
        assert Assembled(OfIndex(init, i)) == NewEntry;
      }
      assert d.index != i ==> OfIndex(ds, i) == OfIndex(init, i);
    }
  }

  lemma MergedAt(t: ToolCalls, d: ToolDelta, i: int)
    ensures i in Merged(t, d).calls <==> i in t.calls || d.index == i
    ensures d.index != i && i in t.calls ==> Merged(t, d).calls[i] == t.calls[i]
    ensures d.index == i ==> Merged(t, d).calls[i] == Updated(if i in t.calls then t.calls[i] else NewEntry, d)
  {
  }

  lemma NothingAssembled()
    ensures Assembled([]) == NewEntry
  {
  }

  // Message assembly

  ghost predicate KeysMatch(t: ToolCalls) {
    && (forall i :: i in t.keys <==> i in t.calls)
    && forall i, j :: 0 <= i < j < |t.keys| ==> t.keys[i] != t.keys[j]
  }

  lemma {:induction false} MergedKeysMatch(t: ToolCalls, ds: seq<ToolDelta>)
    requires KeysMatch(t)
    ensures KeysMatch(MergedAll(t, ds))
  {
    if ds != [] {
      MergedKeysMatch(t, ds[..|ds| - 1]);
    }
  }

  function IndexKey(i: int): Key { (i, 0) }

  function InOrder(keys: seq<int>): seq<int> {
    StableSort(keys, IndexKey)
  }

  function EntriesAt(keys: seq<int>, calls: map<int, ToolEntry>): seq<ToolEntry>
    requires forall i :: 0 <= i < |keys| ==> keys[i] in calls
  {
    seq(|keys|, i requires 0 <= i < |keys| => calls[keys[i]])
  }

  lemma SameElements(a: seq<int>)
    ensures forall i :: i in InOrder(a) <==> i in a
  {
    StableSortIsSorted(a, IndexKey);
    forall i
      ensures i in InOrder(a) <==> i in a
    {
      assert i in InOrder(a) <==> i in multiset(InOrder(a));
      assert i in a <==> i in multiset(a);
    }
  }

  lemma ListingDefined(t: ToolCalls)
    requires KeysMatch(t)
    ensures forall k :: 0 <= k < |InOrder(t.keys)| ==> InOrder(t.keys)[k] in t.calls
  {
    SameElements(t.keys);
    forall k | 0 <= k < |InOrder(t.keys)|
      ensures InOrder(t.keys)[k] in t.calls
    {
      var i := InOrder(t.keys)[k];
      assert i in InOrder(t.keys);
      assert i in t.keys;
    }
  }

  /** The tool calls of the message, by ascending index. */
  function Listed(t: ToolCalls): seq<ToolEntry>
    requires KeysMatch(t)
  {
    ListingDefined(t);
    EntriesAt(InOrder(t.keys), t.calls)
  }

  lemma DropSameLast(a: seq<int>, b: seq<int>)
    requires a != [] && b != [] && a[|a| - 1] == b[|b| - 1] && multiset(a) == multiset(b)
    ensures multiset(a[..|a| - 1]) == multiset(b[..|b| - 1])
  {
    var p, q, x := a[..|a| - 1], b[..|b| - 1], a[|a| - 1];
    assert a == p + [x] && b == q + [x];
    InitCounts(p, x);
    InitCounts(q, x);
  }

  lemma InitCounts(p: seq<int>, x: int)
    ensures multiset(p) == multiset(p + [x]) - multiset{x}
  {
    assert multiset(p + [x]) == multiset(p) + multiset{x};
  }

  lemma LastsAgree(a: seq<int>, b: seq<int>)
    requires SortedBy(a, IndexKey) && SortedBy(b, IndexKey) && multiset(a) == multiset(b)
    requires a != [] && b != []
    ensures a[|a| - 1] == b[|b| - 1]
  {
    assert a[|a| - 1] in multiset(a) && b[|b| - 1] in multiset(b);
    LastIsGreatest(a, b[|b| - 1]);
    LastIsGreatest(b, a[|a| - 1]);
  }

  lemma LastIsGreatest(a: seq<int>, x: int)
    requires SortedBy(a, IndexKey) && x in multiset(a)
    ensures a != [] && x <= a[|a| - 1]
  {
  }

  lemma InitSorted(a: seq<int>)
    requires SortedBy(a, IndexKey) && a != []
    ensures SortedBy(a[..|a| - 1], IndexKey)
  {
  }

  lemma {:induction false} SortedOnce(a: seq<int>, b: seq<int>)
    requires SortedBy(a, IndexKey) && SortedBy(b, IndexKey) && multiset(a) == multiset(b)
    requires |a| == |b|
    ensures a == b
  {
    hide SortedBy;
    if a != [] {
      var k := |a| - 1;
      LastsAgree(a, b);
      DropSameLast(a, b);
      InitSorted(a);
      InitSorted(b);
      SortedOnce(a[..k], b[..k]);
      assert a == a[..k] + [a[k]] && b == b[..k] + [b[k]];
    }
  }

  lemma {:induction false} DistinctCounts(a: seq<int>, i: int)
    requires forall p, q :: 0 <= p < q < |a| ==> a[p] != a[q]
    ensures multiset(a)[i] == if i in a then 1 else 0
  {
    if a != [] {
      var k := |a| - 1;
      DistinctCounts(a[..k], i);
      assert a == a[..k] + [a[k]];
    }
  }

  /** Two sets of calls that agree index by index make the same list, in whatever order they arrived. */
  lemma ListingIgnoresArrival(s: ToolCalls, t: ToolCalls)
    requires KeysMatch(s) && KeysMatch(t) && s.calls == t.calls
    ensures Listed(s) == Listed(t)
  {
    hide StableSort;
    forall i
      ensures multiset(s.keys)[i] == multiset(t.keys)[i]
    {
      DistinctCounts(s.keys, i);
      DistinctCounts(t.keys, i);
      assert i in s.keys <==> i in t.keys;
    }
    assert multiset(s.keys) == multiset(t.keys);
    StableSortIsSorted(s.keys, IndexKey);
    StableSortIsSorted(t.keys, IndexKey);
    assert |multiset(s.keys)| == |s.keys| && |multiset(t.keys)| == |t.keys|;
    SortedOnce(InOrder(s.keys), InOrder(t.keys));
  }

  // Chunks

  function ToolDeltas(p: ToolPart): seq<ToolDelta> {
    match p
    case NoTool => []
    case One(d) => [d]
    case Many(ds) => ds
  }

  function ContentParts(chunks: seq<Chunk>): seq<string> {
    if chunks == [] then []
    else ContentParts(chunks[..|chunks| - 1]) +
         if chunks[|chunks| - 1].content != "" then [chunks[|chunks| - 1].content] else []
  }

  function ThinkingParts(chunks: seq<Chunk>): seq<string> {
    if chunks == [] then []
    else ThinkingParts(chunks[..|chunks| - 1]) +
         if chunks[|chunks| - 1].thinking != "" then [chunks[|chunks| - 1].thinking] else []
  }

  function AllToolDeltas(chunks: seq<Chunk>): seq<ToolDelta> {
    if chunks == [] then [] else AllToolDeltas(chunks[..|chunks| - 1]) + ToolDeltas(chunks[|chunks| - 1].tool)
  }

  function Content(chunks: seq<Chunk>): string {
    Joined(ContentParts(chunks))
  }

  function Thinking(chunks: seq<Chunk>): string {
    Joined(ThinkingParts(chunks))
  }

  function Tools(chunks: seq<Chunk>): ToolCalls {
    MergedAll(NoCalls, AllToolDeltas(chunks))
  }

  lemma ToolsStep(chunks: seq<Chunk>, c: Chunk)
    ensures Tools(chunks + [c]) == MergedAll(Tools(chunks), ToolDeltas(c.tool))
  {
    assert (chunks + [c])[..|chunks|] == chunks;
    MergedInParts(NoCalls, AllToolDeltas(chunks), ToolDeltas(c.tool));
  }

  lemma ToolsMatch(chunks: seq<Chunk>)
    ensures KeysMatch(Tools(chunks))
  {
    MergedKeysMatch(NoCalls, AllToolDeltas(chunks));
  }

  const NoUsage := Usage(0, 0, 0, map[])

  /** Counts add up, and later metadata replaces earlier metadata under the same key. */
  function UsageWith(u: Usage, more: Option<Usage>): Usage {
    match more
    case None => u
    case Some(v) => Usage(u.input + v.input, u.output + v.output, u.cached + v.cached, u.metadata + v.metadata)
  }

  function UsageOf(chunks: seq<Chunk>): Usage {
    if chunks == [] then NoUsage else UsageWith(UsageOf(chunks[..|chunks| - 1]), chunks[|chunks| - 1].usage)
  }

  lemma UsageStep(chunks: seq<Chunk>, c: Chunk)
    ensures UsageOf(chunks + [c]) == UsageWith(UsageOf(chunks), c.usage)
  {
    assert (chunks + [c])[..|chunks|] == chunks;
  }

  /** Counts add up, and later metadata replaces earlier metadata under the same key. */
  ghost predicate AddsUp(u: Usage, v: Usage, w: Usage) {
    && w.input == u.input + v.input && w.output == u.output + v.output && w.cached == u.cached + v.cached
    && forall k :: (k in w.metadata <==> k in u.metadata || k in v.metadata) &&
                   (k in w.metadata ==> w.metadata[k] == if k in v.metadata then v.metadata[k] else u.metadata[k])
  }

  lemma OneMoreUsage(u: Usage, v: Usage, w: Usage, more: Option<Usage>)
    requires AddsUp(u, v, w)
    ensures AddsUp(u, UsageWith(v, more), UsageWith(w, more))
  {
  }

  /** The usage of a stream is that of its parts. */
  lemma {:induction false} UsageAddsUp(a: seq<Chunk>, b: seq<Chunk>)
    ensures AddsUp(UsageOf(a), UsageOf(b), UsageOf(a + b))
  {
    hide AddsUp, UsageWith, UsageOf;
    if b == [] {
      assert a + b == a;
      NoMoreUsage(UsageOf(a));
    } else {
      var init, last := b[..|b| - 1], b[|b| - 1];
      UsageAddsUp(a, init);
      assert a + b == (a + init) + [last] && b == init + [last];
      UsageStep(a + init, last);
      UsageStep(init, last);
      OneMoreUsage(UsageOf(a), UsageOf(init), UsageOf(a + init), last.usage);
    }
  }

  lemma NoMoreUsage(u: Usage)
    ensures AddsUp(u, UsageOf([]), u)
  {
  }

  /** A single chunk has the usage it carries. */
  lemma UsageOfOne(c: Chunk)
    ensures UsageOf([c]) == if c.usage.Some? then c.usage.value else Usage(0, 0, 0, map[])
  {
    assert [] + [c] == [c];
    UsageStep([], c);
  }

  /** The message a chunk list stands for. */
  function MessageOf(chunks: seq<Chunk>, partial: bool): Message {
    ToolsMatch(chunks);
    Message(Content(chunks), Listed(Tools(chunks)), Thinking(chunks), UsageOf(chunks), ContentParts(chunks) != [], partial)
  }

  lemma JoinedStep(parts: seq<string>, x: string)
    ensures Joined(parts + [x]) == Joined(parts) + x
  {
    assert (parts + [x])[..|parts|] == parts;
  }

  lemma ContentStep(chunks: seq<Chunk>, c: Chunk)
    ensures Content(chunks + [c]) == Content(chunks) + c.content
    ensures Thinking(chunks + [c]) == Thinking(chunks) + c.thinking
  {
    assert (chunks + [c])[..|chunks|] == chunks;
    JoinedStep(ContentParts(chunks), c.content);
    JoinedStep(ThinkingParts(chunks), c.thinking);
    var p, q := ContentParts(chunks), ThinkingParts(chunks);
    assert c.content == "" ==> ContentParts(chunks + [c]) == p;
    assert c.thinking == "" ==> ThinkingParts(chunks + [c]) == q;
  }

  lemma {:induction false} PartsAreGiven(chunks: seq<Chunk>)
    ensures ContentParts(chunks) == [] <==> Content(chunks) == ""
    ensures ThinkingParts(chunks) == [] <==> Thinking(chunks) == ""
  {
    if chunks != [] {
      var init, c := chunks[..|chunks| - 1], chunks[|chunks| - 1];
      PartsAreGiven(init);
      assert chunks == init + [c];
      ContentStep(init, c);
    }
  }

  lemma CallsWereGiven(chunks: seq<Chunk>)
    ensures Tools(chunks).keys == [] <==> AllToolDeltas(chunks) == []
  {
    hide MergedAll;
    var ds := AllToolDeltas(chunks);
    ToolsMatch(chunks);
    if ds != [] {
      var d := ds[|ds| - 1];
      CallsAreAssembled(ds, d.index);
      assert OfIndex(ds, d.index) != [];
      assert d.index in Tools(chunks).keys;
    } else {
      NothingMerged();
    }
  }

  lemma NothingMerged()
    ensures MergedAll(NoCalls, []) == NoCalls
  {
  }

  // What stands where in the message

  ghost function Indices(ds: seq<ToolDelta>): set<int> {
    set k | 0 <= k < |ds| :: ds[k].index
  }

  ghost function Below(indices: set<int>, i: int): set<int> {
    set j | j in indices && j < i
  }

  lemma {:induction false} OccursExactly(ds: seq<ToolDelta>, i: int)
    ensures OfIndex(ds, i) != [] <==> i in Indices(ds)
  {
    if ds != [] {
      var init, last := ds[..|ds| - 1], ds[|ds| - 1];
      OccursExactly(init, i);
      assert i in Indices(init) ==> i in Indices(ds) by {
        if i in Indices(init) {
          var k :| 0 <= k < |init| && init[k].index == i;
          assert ds[k].index == i;
        }
      }
      assert last.index in Indices(ds);
      if i in Indices(ds) && i != last.index {
        var k :| 0 <= k < |ds| && ds[k].index == i;
        assert init[k].index == i;
      }
    }
  }

  predicate Ascending(a: seq<int>) {
    forall p, q :: 0 <= p < q < |a| ==> a[p] < a[q]
  }

  ghost function ElementsOf(a: seq<int>): set<int> {
    if a == [] then {} else ElementsOf(a[..|a| - 1]) + {a[|a| - 1]}
  }

  lemma {:induction false} ElementsAre(a: seq<int>, i: int)
    ensures i in ElementsOf(a) <==> i in a
  {
    if a != [] {
      assert a == a[..|a| - 1] + [a[|a| - 1]];
      ElementsAre(a[..|a| - 1], i);
    }
  }

  lemma {:induction false} ElementsCount(a: seq<int>)
    requires Ascending(a)
    ensures |ElementsOf(a)| == |a|
  {
    if a != [] {
      ElementsCount(a[..|a| - 1]);
      ElementsAre(a[..|a| - 1], a[|a| - 1]);
    }
  }

  /** In an ascending list each element stands at the number of those below it. */
  lemma PlaceInAscending(a: seq<int>, indices: set<int>, p: nat)
    requires Ascending(a) && p < |a| && forall i :: i in indices <==> i in a
    ensures |Below(indices, a[p])| == p
  {
    forall j
      ensures j in Below(indices, a[p]) <==> j in ElementsOf(a[..p])
    {
      ElementsAre(a[..p], j);
      if j in Below(indices, a[p]) {
        var q :| 0 <= q < |a| && a[q] == j;
        assert q < p;
        assert a[..p][q] == j;
      }
    }
    assert Below(indices, a[p]) == ElementsOf(a[..p]);
    ElementsCount(a[..p]);
  }

  lemma AllInAscending(a: seq<int>, indices: set<int>)
    requires Ascending(a) && forall i :: i in indices <==> i in a
    ensures |indices| == |a|
  {
    forall j
      ensures j in indices <==> j in ElementsOf(a)
    {
      ElementsAre(a, j);
    }
    assert indices == ElementsOf(a);
    ElementsCount(a);
  }

  lemma KeysAscend(t: ToolCalls)
    requires KeysMatch(t)
    ensures Ascending(InOrder(t.keys)) && forall i :: i in InOrder(t.keys) <==> i in t.calls
  {
    hide StableSort;
    var a := InOrder(t.keys);
    StableSortIsSorted(t.keys, IndexKey);
    SameElements(t.keys);
    forall p, q | 0 <= p < q < |a|
      ensures a[p] < a[q]
    {
      assert KeyLe(IndexKey(a[p]), IndexKey(a[q]));
      if a[p] == a[q] {
        DistinctCounts(t.keys, a[p]);
        TwoPlaces(a, p, q);
      }
    }
  }

  lemma TwoPlaces(a: seq<int>, p: nat, q: nat)
    requires p < q < |a| && a[p] == a[q]
    ensures multiset(a)[a[p]] >= 2
  {
    var head, tail := a[..q], a[q..];
    assert a == head + tail && head[p] == a[p] && tail[0] == a[p];
    assert multiset(a) == multiset(head) + multiset(tail);
    assert a[p] in multiset(head) && a[p] in multiset(tail);
  }

  /** The message lists one call for each occurring index, at the place that the number of smaller indices
      says, and it is the call its own fragments spell out. */
  lemma CallsStandByIndex(chunks: seq<Chunk>, partial: bool, i: int)
    ensures var ds, calls := AllToolDeltas(chunks), MessageOf(chunks, partial).toolCalls;
            && |calls| == |Indices(ds)|
            && (i in Indices(ds) ==> |Below(Indices(ds), i)| < |calls| && calls[|Below(Indices(ds), i)|] == Assembled(OfIndex(ds, i)))
  {
    hide StableSort, Assembled, MergedAll, InOrder, Content, Thinking;
    var ds, t := AllToolDeltas(chunks), Tools(chunks);
    var a, indices := InOrder(t.keys), Indices(AllToolDeltas(chunks));
    ToolsMatch(chunks);
    KeysAscend(t);
    forall j
      ensures j in indices <==> j in a
    {
      OccursExactly(ds, j);
      CallsAreAssembled(ds, j);
    }
    AllInAscending(a, indices);
    if i in indices {
      var p :| 0 <= p < |a| && a[p] == i;
      PlaceInAscending(a, indices, p);
      CallsAreAssembled(ds, i);
    }
  }

  /** Chunk borders, and the order in which fragments of different tool calls arrive, do not show in
      the message. */
  lemma RechunkingIsInvisible(a: seq<Chunk>, b: seq<Chunk>, partial: bool)
    requires Content(a) == Content(b) && Thinking(a) == Thinking(b) && UsageOf(a) == UsageOf(b)
    requires forall i :: SameCall(AllToolDeltas(a), AllToolDeltas(b), i)
    ensures MessageOf(a, partial) == MessageOf(b, partial)
  {
    hide Listed, Content, Thinking, ContentParts, ThinkingParts;
    ToolsMatch(a);
    ToolsMatch(b);
    SameCalls(AllToolDeltas(a), AllToolDeltas(b));
    ListingIgnoresArrival(Tools(a), Tools(b));
    PartsAreGiven(a);
    PartsAreGiven(b);
  }

  /** Both lists have the call with this index or neither has, and they spell the same call. */
  ghost predicate SameCall(a: seq<ToolDelta>, b: seq<ToolDelta>, i: int) {
    (OfIndex(a, i) == [] <==> OfIndex(b, i) == []) && Assembled(OfIndex(a, i)) == Assembled(OfIndex(b, i))
  }

  lemma SameCalls(a: seq<ToolDelta>, b: seq<ToolDelta>)
    requires forall i :: SameCall(a, b, i)
    ensures MergedAll(NoCalls, a).calls == MergedAll(NoCalls, b).calls
  {
    hide Assembled, MergedAll, OfIndex;
    var s, t := MergedAll(NoCalls, a).calls, MergedAll(NoCalls, b).calls;
    forall i
      ensures (i in s <==> i in t) && (i in s ==> s[i] == t[i])
    {
      CallsAreAssembled(a, i);
      CallsAreAssembled(b, i);
      assert SameCall(a, b, i);
    }
  }

  // What is read before a limit stops the loop

  function ContentLength(chunks: seq<Chunk>): nat {
    |Content(chunks)|
  }

  predicate AtLimit(chunks: seq<Chunk>) {
    |chunks| >= STREAM_MAX_CHUNKS || ContentLength(chunks) >= STREAM_MAX_CONTENT_LENGTH
  }

  /** The chunks read: all of them, or the first ones up to the limit. */
  ghost predicate ReadUpTo(chunks: seq<Chunk>, n: nat) {
    && n <= |chunks|
    && (forall k :: 0 <= k < n ==> !AtLimit(chunks[..k]))
    && (n < |chunks| ==> AtLimit(chunks[..n]))
  }

  function ReadFrom(chunks: seq<Chunk>, k: nat): (n: nat)
    requires k <= |chunks|
    ensures k <= n <= |chunks|
    decreases |chunks| - k
  {
    if k == |chunks| || AtLimit(chunks[..k]) then k else ReadFrom(chunks, k + 1)
  }

  /** The chunks the loop reads. */
  function Read(chunks: seq<Chunk>): seq<Chunk> {
    chunks[..ReadFrom(chunks, 0)]
  }

  lemma {:induction false} ReadFromStops(chunks: seq<Chunk>, k: nat)
    requires k <= |chunks| && forall j :: 0 <= j < k ==> !AtLimit(chunks[..j])
    ensures ReadUpTo(chunks, ReadFrom(chunks, k))
    decreases |chunks| - k
  {
    hide AtLimit;
    if k < |chunks| && !AtLimit(chunks[..k]) {
      ReadFromStops(chunks, k + 1);
    }
  }

  /** Fewer than 20000 chunks and fewer than 512000 characters of content. */
  predicate BelowLimits(chunks: seq<Chunk>) {
    |chunks| < 20000 && |Content(chunks)| < 512000
  }

  lemma LimitsInNumbers(chunks: seq<Chunk>)
    ensures AtLimit(chunks) <==> !BelowLimits(chunks)
  {
    hide Content;
  }

  /** What the limits mean: reading goes on as long as what has been read is below both, and stops before the
      end of the stream only when it is not. */
  lemma ReadsExactly(chunks: seq<Chunk>)
    ensures var n := |Read(chunks)|;
            && n <= |chunks| && Read(chunks) == chunks[..n]
            && (forall k :: 0 <= k < n ==> BelowLimits(chunks[..k]))
            && (n < |chunks| ==> !BelowLimits(chunks[..n]))
  {
    hide ReadFrom, AtLimit, BelowLimits;
    ReadFromStops(chunks, 0);
    var n := ReadFrom(chunks, 0);
    assert Read(chunks) == chunks[..n] && |chunks[..n]| == n;
    forall k | 0 <= k < n
      ensures BelowLimits(chunks[..k])
    {
      LimitsInNumbers(chunks[..k]);
    }
    LimitsInNumbers(chunks[..n]);
  }

  /** Only the last chunk read can carry the content over the limit. */
  lemma ReadingIsBounded(chunks: seq<Chunk>, n: nat)
    requires ReadUpTo(chunks, n)
    ensures n <= STREAM_MAX_CHUNKS
    ensures n > 0 ==> ContentLength(chunks[..n]) < STREAM_MAX_CONTENT_LENGTH + |chunks[n - 1].content|
  {
    if n > 0 {
      assert !AtLimit(chunks[..n - 1]);
      assert chunks[..n] == chunks[..n - 1] + [chunks[n - 1]];
      ContentStep(chunks[..n - 1], chunks[n - 1]);
    }
  }

  // Callback notifications

  function ArgsParts(t: ToolCalls, ds: seq<ToolDelta>): seq<Delta> {
    if ds == [] then []
    else
      var d := ds[|ds| - 1];
      var after := MergedAll(t, ds);
      ArgsParts(t, ds[..|ds| - 1]) +
      [ArgsPart(d.index, if d.index in after.calls then after.calls[d.index] else NewEntry, d.arguments)]
  }

  function ChunkDeltas(t: ToolCalls, c: Chunk): seq<Delta> {
    (if c.thinking != "" then [ThinkingPart(c.thinking)] else []) +
    (if c.content != "" then [ContentPart(c.content)] else []) +
    ArgsParts(t, ToolDeltas(c.tool))
  }

  function Deltas(chunks: seq<Chunk>): seq<Delta> {
    if chunks == [] then []
    else Deltas(chunks[..|chunks| - 1]) + ChunkDeltas(Tools(chunks[..|chunks| - 1]), chunks[|chunks| - 1])
  }

  /** The text and the thinking told to the callback. */
  function ContentTold(ds: seq<Delta>): string {
    if ds == [] then ""
    else ContentTold(ds[..|ds| - 1]) + if ds[|ds| - 1].ContentPart? then ds[|ds| - 1].text else ""
  }

  function ThinkingTold(ds: seq<Delta>): string {
    if ds == [] then ""
    else ThinkingTold(ds[..|ds| - 1]) + if ds[|ds| - 1].ThinkingPart? then ds[|ds| - 1].text else ""
  }

  lemma ToldStep(ds: seq<Delta>, d: Delta)
    ensures ContentTold(ds + [d]) == ContentTold(ds) + if d.ContentPart? then d.text else ""
    ensures ThinkingTold(ds + [d]) == ThinkingTold(ds) + if d.ThinkingPart? then d.text else ""
  {
    assert (ds + [d])[..|ds|] == ds;
  }

  lemma NothingTold()
    ensures ContentTold([]) == "" && ThinkingTold([]) == ""
  {
  }

  lemma {:induction false} ToldConcat(a: seq<Delta>, b: seq<Delta>)
    ensures ContentTold(a + b) == ContentTold(a) + ContentTold(b)
    ensures ThinkingTold(a + b) == ThinkingTold(a) + ThinkingTold(b)
  {
    hide ContentTold, ThinkingTold;
    if b == [] {
      assert a + b == a;
      NothingTold();
    } else {
      var init, d := b[..|b| - 1], b[|b| - 1];
      assert a + b == (a + init) + [d] && b == init + [d];
      ToldConcat(a, init);
      ToldStep(a + init, d);
      ToldStep(init, d);
    }
  }

  /** Neither empty content nor empty thinking is told. */
  predicate NothingEmpty(ds: seq<Delta>) {
    forall i :: 0 <= i < |ds| && !ds[i].ArgsPart? ==> ds[i].text != ""
  }

  lemma {:induction false} ArgsTellNothing(t: ToolCalls, ds: seq<ToolDelta>)
    ensures ContentTold(ArgsParts(t, ds)) == "" && ThinkingTold(ArgsParts(t, ds)) == ""
    ensures NothingEmpty(ArgsParts(t, ds))
  {
    hide MergedAll;
    if ds != [] {
      var init := ArgsParts(t, ds[..|ds| - 1]);
      ArgsTellNothing(t, ds[..|ds| - 1]);
      var a := ArgsParts(t, ds);
      assert a[..|a| - 1] == init;
      assert a[|a| - 1].ArgsPart?;
    }
  }

  lemma ChunkTold(t: ToolCalls, c: Chunk)
    ensures ContentTold(ChunkDeltas(t, c)) == c.content && ThinkingTold(ChunkDeltas(t, c)) == c.thinking
    ensures NothingEmpty(ChunkDeltas(t, c))
  {
    hide ArgsParts, ContentTold, ThinkingTold, NothingEmpty;
    var x := if c.thinking != "" then [ThinkingPart(c.thinking)] else [];
    var y := if c.content != "" then [ContentPart(c.content)] else [];
    var z := ArgsParts(t, ToolDeltas(c.tool));
    ToldPart(ThinkingPart(c.thinking));
    ToldPart(ContentPart(c.content));
    ToldConcat(x, y);
    ToldConcat(x + y, z);
    ArgsTellNothing(t, ToolDeltas(c.tool));
    NothingEmptyConcat(x, y);
    NothingEmptyConcat(x + y, z);
  }

  lemma NothingEmptyConcat(a: seq<Delta>, b: seq<Delta>)
    requires NothingEmpty(a) && NothingEmpty(b)
    ensures NothingEmpty(a + b)
  {
  }

  lemma ToldPart(d: Delta)
    ensures ContentTold([d]) == (if d.ContentPart? then d.text else "")
    ensures ThinkingTold([d]) == (if d.ThinkingPart? then d.text else "")
    ensures ContentTold([]) == "" && ThinkingTold([]) == ""
    ensures NothingEmpty([]) && (d.ArgsPart? || d.text != "" ==> NothingEmpty([d]))
  {
    assert [d][..0] == [];
  }

  /** The callback is told exactly the content and the thinking of the message. */
  lemma {:induction false} DeltasTellTheMessage(chunks: seq<Chunk>)
    ensures ContentTold(Deltas(chunks)) == Content(chunks) && ThinkingTold(Deltas(chunks)) == Thinking(chunks)
    ensures NothingEmpty(Deltas(chunks))
  {
    hide ChunkDeltas, Content, Thinking, Tools;
    if chunks == [] {
      NoText();
    } else {
      var init, c := chunks[..|chunks| - 1], chunks[|chunks| - 1];
      DeltasTellTheMessage(init);
      ChunkTold(Tools(init), c);
      ToldConcat(Deltas(init), ChunkDeltas(Tools(init), c));
      ContentStep(init, c);
      assert chunks == init + [c];
    }
  }

  lemma NoText()
    ensures Content([]) == "" && Thinking([]) == ""
  {
  }
}
