/** The aggregation loop over a stream (core/stream_aggregator.py). A stream is the list of its chunks
and the way it ends. */
module StreamAggregator {
  import opened Wrappers
  import opened StreamMessages
  import opened StreamEvents

  /** The stream stops, stays silent beyond the idle timeout, or raises. */
  datatype Ending = Finished | IdleTimeout | Raised(retryable: bool)

  datatype Attempt = Attempt(chunks: seq<Chunk>, ending: Ending)

  datatype Outcome = Completed(message: Message) | Failed(retryable: bool)

  function HasPayload(chunks: seq<Chunk>): bool {
    ContentParts(chunks) != [] || Tools(chunks).keys != []
  }

  function OutcomeOf(a: Attempt): Outcome {
    var read := Read(a.chunks);
    if AtLimit(read) then Completed(MessageOf(read, true))
    else match a.ending
      case Finished => Completed(MessageOf(read, false))
      case IdleTimeout => if HasPayload(read) then Completed(MessageOf(read, true)) else Failed(false)
      case Raised(retryable) => Failed(retryable)
  }

  /** How an attempt ends: with a message exactly when a limit was reached, the stream ended, or it fell silent
      after something other than thinking had come. The message is partial unless the stream ended by itself. */
  lemma OutcomeExactly(a: Attempt)
    ensures var read, o := Read(a.chunks), OutcomeOf(a);
            var limit := |read| >= 20000 || |Content(read)| >= 512000;
            && (o.Completed? <==>
                  limit || a.ending.Finished? || (a.ending.IdleTimeout? && (Content(read) != "" || AllToolDeltas(read) != [])))
            && (o.Completed? ==>
                  && o.message.partial == (limit || !a.ending.Finished?)
                  && o.message == MessageOf(read, o.message.partial))
            && (o.Failed? ==> o.retryable == (a.ending.Raised? && a.ending.retryable))
  {
    hide Content, MessageOf, Tools, AllToolDeltas, ContentParts, Read;
    var read := Read(a.chunks);
    PartsAreGiven(read);
    CallsWereGiven(read);
    assert ContentLength(read) == |Content(read)|;
    PartialAsSaid(read, true);
    PartialAsSaid(read, false);
  }

  lemma PartialAsSaid(chunks: seq<Chunk>, partial: bool)
    ensures MessageOf(chunks, partial).partial == partial
  {
  }

  class StreamAggregateState {
    var contentParts: seq<string>
    var thinkingParts: seq<string>
    var toolCalls: ToolCalls
    var usageInput: int
    var usageOutput: int
    var cachedTokens: int
    var usageMetadata: map<int, int>
    var chunkCount: nat
    var contentLength: nat
    var partial: bool
    ghost var chunks: seq<Chunk>

    function Used(): Usage
      reads this
    {
      Usage(usageInput, usageOutput, cachedTokens, usageMetadata)
    }

    /** The fields are those of the chunks merged so far. */
    ghost predicate Valid()
      reads this
    {
      && contentParts == ContentParts(chunks)
      && thinkingParts == ThinkingParts(chunks)
      && toolCalls == Tools(chunks)
      && Used() == UsageOf(chunks)
      && chunkCount == |chunks|
      && contentLength == ContentLength(chunks)
    }

    constructor ()
      ensures Valid() && chunks == [] && !partial
    {
      contentParts, thinkingParts, toolCalls := [], [], NoCalls;
      usageInput, usageOutput, cachedTokens, usageMetadata := 0, 0, 0, map[];
      chunkCount, contentLength, partial := 0, 0, false;
      chunks := [];
    }

    method LimitExceeded() returns (exceeded: bool)
      requires Valid()
      modifies this`partial
      ensures Valid()
      ensures exceeded <==> AtLimit(chunks)
      ensures partial == (old(partial) || exceeded)
    {
      exceeded := chunkCount >= STREAM_MAX_CHUNKS || contentLength >= STREAM_MAX_CONTENT_LENGTH;
      if exceeded {
        partial := true;
      }
    }

    method MergeToolCall(d: ToolDelta)
      modifies this`toolCalls
      ensures toolCalls == Merged(old(toolCalls), d)
    {
      var i := d.index;
      ghost var first := if i in toolCalls.calls then toolCalls.calls[i] else NewEntry;
      if i !in toolCalls.calls {
        toolCalls := ToolCalls(toolCalls.keys + [i], toolCalls.calls[i := ToolEntry(d.id, "", "")]);
      }
      var entry := toolCalls.calls[i];
      if d.id != "" {
        entry := entry.(id := d.id);
      }
      if d.name != "" {
        entry := entry.(name := d.name);
      }
      if d.arguments != "" {
        entry := entry.(arguments := entry.arguments + d.arguments);
      }
      assert entry == Updated(first, d);
      assert toolCalls.calls[i := entry] == old(toolCalls).calls[i := entry];
      toolCalls := toolCalls.(calls := toolCalls.calls[i := entry]);
    }

    method MergeToolDelta(part: ToolPart, emitter: StreamEventEmitter)
      modifies this`toolCalls, emitter, emitter.runtime, emitter.sink
      ensures toolCalls == MergedAll(old(toolCalls), ToolDeltas(part))
      ensures emitter.Value() == HeardAll(old(emitter.Value()), ArgsParts(old(toolCalls), ToolDeltas(part)))
    {
      hide HeardAll, ArgsParts, Merged, MergedAll, Heard;
      var ds := ToolDeltas(part);
      NoneMerged(emitter.Value(), toolCalls);
      for k := 0 to |ds|
        invariant toolCalls == MergedAll(old(toolCalls), ds[..k])
        invariant emitter.Value() == HeardAll(old(emitter.Value()), ArgsParts(old(toolCalls), ds[..k]))
      {
        OneMoreFragment(old(emitter.Value()), old(toolCalls), ds, k);
        MergeToolCall(ds[k]);
        var entry := if ds[k].index in toolCalls.calls then toolCalls.calls[ds[k].index] else NewEntry;
        emitter.OnDelta(ArgsPart(ds[k].index, entry, ds[k].arguments));
      }
      assert ds[..|ds|] == ds;
    }

    method MergeText(c: Chunk, emitter: StreamEventEmitter)
      modifies this`chunkCount, this`thinkingParts, this`contentParts, this`contentLength, emitter, emitter.runtime, emitter.sink
      ensures chunkCount == old(chunkCount) + 1
      ensures thinkingParts == old(thinkingParts) + if c.thinking != "" then [c.thinking] else []
      ensures contentParts == old(contentParts) + if c.content != "" then [c.content] else []
      ensures contentLength == old(contentLength) + |c.content|
      ensures emitter.Value() == HeardText(old(emitter.Value()), c)
    {
      hide Heard;
      chunkCount := chunkCount + 1;
      if c.thinking != "" {
        thinkingParts := thinkingParts + [c.thinking];
        emitter.OnDelta(ThinkingPart(c.thinking));
      }
      if c.content != "" {
        contentParts := contentParts + [c.content];
        contentLength := contentLength + |c.content|;
        emitter.OnDelta(ContentPart(c.content));
      }
    }

    method MergeUsage(usage: Option<Usage>)
      modifies this`usageInput, this`usageOutput, this`cachedTokens, this`usageMetadata
      ensures Used() == UsageWith(old(Used()), usage)
    {
      if usage.Some? {
        usageInput := usageInput + usage.value.input;
        usageOutput := usageOutput + usage.value.output;
        cachedTokens := cachedTokens + usage.value.cached;
        if usage.value.metadata != map[] {
          usageMetadata := usageMetadata + usage.value.metadata;
        }
      }
    }

    method MergeChunk(c: Chunk, emitter: StreamEventEmitter)
      requires Valid()
      modifies this, emitter, emitter.runtime, emitter.sink
      ensures Valid() && chunks == old(chunks) + [c] && partial == old(partial)
      ensures emitter.Value() == HeardAll(old(emitter.Value()), ChunkDeltas(Tools(old(chunks)), c))
    {
      hide HeardText, HeardAll, ChunkDeltas, ArgsParts, MergedAll, ContentParts, ThinkingParts, Tools, ContentLength,
        UsageOf, UsageWith;
      HeardChunk(emitter.Value(), Tools(chunks), c);
      ChunkStep(chunks, c);
      MergeText(c, emitter);
      MergeToolDelta(c.tool, emitter);
      MergeUsage(c.usage);
      chunks := chunks + [c];
    }

    method HasPartialPayload() returns (payload: bool)
      requires Valid()
      ensures payload == HasPayload(chunks)
    {
      payload := contentParts != [] || toolCalls.keys != [];
    }

    method BuildMessage() returns (message: Message)
      requires Valid()
      ensures message == MessageOf(chunks, partial)
    {
      ToolsMatch(chunks);
      message := Message(Joined(contentParts), Listed(toolCalls), Joined(thinkingParts), Used(), contentParts != [], partial);
    }
  }

  lemma NoneMerged(em: Emitter, t: ToolCalls)
    ensures MergedAll(t, []) == t && HeardAll(em, ArgsParts(t, [])) == em
  {
  }

  lemma OneMoreFragment(em: Emitter, t: ToolCalls, ds: seq<ToolDelta>, k: nat)
    requires k < |ds|
    ensures var after := MergedAll(t, ds[..k + 1]);
            && after == Merged(MergedAll(t, ds[..k]), ds[k])
            && HeardAll(em, ArgsParts(t, ds[..k + 1])) ==
               Heard(HeardAll(em, ArgsParts(t, ds[..k])),
                     ArgsPart(ds[k].index, if ds[k].index in after.calls then after.calls[ds[k].index] else NewEntry, ds[k].arguments))
  {
    hide Heard, Merged;
    assert ds[..k + 1][..k] == ds[..k];
    var told := ArgsParts(t, ds[..k]);
    var all := ArgsParts(t, ds[..k + 1]);
    assert all[..|told|] == told;
  }

  /** The text of a chunk, thinking first. */
  function HeardText(em: Emitter, c: Chunk): Emitter {
    var thought := if c.thinking != "" then Heard(em, ThinkingPart(c.thinking)) else em;
    if c.content != "" then Heard(thought, ContentPart(c.content)) else thought
  }

  lemma HeardChunk(em: Emitter, t: ToolCalls, c: Chunk)
    ensures HeardAll(HeardText(em, c), ArgsParts(t, ToolDeltas(c.tool))) == HeardAll(em, ChunkDeltas(t, c))
  {
    hide Heard, HeardAll, ArgsParts;
    var thinking := if c.thinking != "" then [ThinkingPart(c.thinking)] else [];
    var content := if c.content != "" then [ContentPart(c.content)] else [];
    HeardOneOrNone(em, ThinkingPart(c.thinking));
    HeardOneOrNone(HeardAll(em, thinking), ContentPart(c.content));
    HeardInParts(em, thinking, content);
    HeardInParts(em, thinking + content, ArgsParts(t, ToolDeltas(c.tool)));
  }

  /** What one more chunk adds to each list and counter. */
  lemma ChunkStep(chunks: seq<Chunk>, c: Chunk)
    ensures var more := chunks + [c];
            && ContentParts(more) == ContentParts(chunks) + (if c.content != "" then [c.content] else [])
            && ThinkingParts(more) == ThinkingParts(chunks) + (if c.thinking != "" then [c.thinking] else [])
            && Tools(more) == MergedAll(Tools(chunks), ToolDeltas(c.tool))
            && UsageOf(more) == UsageWith(UsageOf(chunks), c.usage)
            && ContentLength(more) == ContentLength(chunks) + |c.content|
  {
    hide MergedAll, UsageWith, Content, Tools;
    assert (chunks + [c])[..|chunks|] == chunks;
    ToolsStep(chunks, c);
    ContentStep(chunks, c);
  }

  lemma HeardOneOrNone(em: Emitter, d: Delta)
    ensures HeardAll(em, [d]) == Heard(em, d) && HeardAll(em, []) == em
  {
    assert [d][..0] == [];
  }

  lemma OneMoreChunk(em: Emitter, chunks: seq<Chunk>, k: nat)
    requires k < |chunks|
    ensures chunks[..k + 1] == chunks[..k] + [chunks[k]]
    ensures HeardAll(em, Deltas(chunks[..k + 1])) ==
            HeardAll(HeardAll(em, Deltas(chunks[..k])), ChunkDeltas(Tools(chunks[..k]), chunks[k]))
  {
    hide HeardAll, ChunkDeltas, Tools;
    assert chunks[..k + 1][..k] == chunks[..k];
    HeardInParts(em, Deltas(chunks[..k]), ChunkDeltas(Tools(chunks[..k]), chunks[k]));
  }

  lemma NothingHeard(em: Emitter)
    ensures HeardAll(em, Deltas([])) == em
  {
  }

  /** The aggregation loop. */
  method Aggregate(a: Attempt, emitter: StreamEventEmitter) returns (outcome: Outcome)
    modifies emitter, emitter.runtime, emitter.sink
    ensures outcome == OutcomeOf(a)
    ensures emitter.Value() == HeardAll(old(emitter.Value()), Deltas(Read(a.chunks)))
  {
    hide AtLimit, MessageOf, HasPayload, HeardAll, Deltas, Tools, ContentParts, ThinkingParts, ContentLength, UsageOf;
    NothingHeard(emitter.Value());
    var state := new StreamAggregateState();
    var k := 0;
    assert a.chunks[..0] == [];
    while true
      invariant fresh(state) && k <= |a.chunks|
      invariant state.Valid() && state.chunks == a.chunks[..k] && !state.partial
      invariant emitter.Value() == HeardAll(old(emitter.Value()), Deltas(a.chunks[..k]))
      invariant ReadFrom(a.chunks, k) == ReadFrom(a.chunks, 0)
      decreases |a.chunks| - k
    {
      var exceeded := state.LimitExceeded();
      if exceeded {
        break;
      }
      if k == |a.chunks| {
        match a.ending {
          case Finished => break;
          case IdleTimeout =>
            var payload := state.HasPartialPayload();
            if payload {
              state.partial := true;
              break;
            }
            return Failed(false);
          case Raised(retryable) =>
            return Failed(retryable);
        }
      }
      OneMoreChunk(old(emitter.Value()), a.chunks, k);
      state.MergeChunk(a.chunks[k], emitter);
      k := k + 1;
    }
    assert Read(a.chunks) == a.chunks[..k];
    var message := state.BuildMessage();
    return Completed(message);
  }
}
