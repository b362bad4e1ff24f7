/** The events a streamed model call shows its listener (StreamEventEmitter in core/llm_caller.py),
and two readings of an event list: the text delivered and the thinking shown. */
module StreamEvents {
  import opened StreamMessages

  datatype Event =
    | ThinkingStart
    | ThinkingDelta(text: string)
    | ThinkingEnd(text: string)
    | StreamStart
    | StreamDelta(text: string)
    | ToolArgs(index: int, entry: ToolEntry, text: string)

  /** An emitter's state, with the events in its sink and the flag of the execution it belongs to. */
  datatype Emitter = Emitter(
    hasSink: bool, inThinking: bool, started: bool, deltaEmitted: bool, emitted: seq<Event>, previews: seq<Event>)

  function Fresh(hasSink: bool, deltaEmitted: bool, emitted: seq<Event>): Emitter {
    Emitter(hasSink, false, false, deltaEmitted, emitted, [])
  }

  function Heard(em: Emitter, d: Delta): Emitter {
    match d
    case ThinkingPart(text) =>
      if !em.hasSink then em
      else em.(inThinking := true,
               emitted := em.emitted + (if em.inThinking then [] else [ThinkingStart]) + [ThinkingDelta(text)])
    case ContentPart(text) =>
      if !em.hasSink then em.(deltaEmitted := true)
      else em.(deltaEmitted := true, inThinking := false, started := true,
               emitted := em.emitted + (if em.inThinking then [ThinkingEnd("")] else []) +
                          (if em.started then [] else [StreamStart]) + [StreamDelta(text)])
    case ArgsPart(index, entry, text) =>
      if em.hasSink then em.(emitted := em.emitted + [ToolArgs(index, entry, text)])
      else em.(previews := em.previews + [ToolArgs(index, entry, text)])
  }

  function HeardAll(em: Emitter, ds: seq<Delta>): Emitter {
    if ds == [] then em else Heard(HeardAll(em, ds[..|ds| - 1]), ds[|ds| - 1])
  }

  function ThinkingFinished(em: Emitter, thinking: string): Emitter {
    em.(inThinking := false,
        emitted := if em.inThinking && em.hasSink then em.emitted + [ThinkingEnd(thinking)] else em.emitted)
  }

  lemma {:induction false} HeardInParts(em: Emitter, a: seq<Delta>, b: seq<Delta>)
    ensures HeardAll(em, a + b) == HeardAll(HeardAll(em, a), b)
  {
    if b == [] {
      assert a + b == a;
    } else {
      assert (a + b)[..|a + b| - 1] == a + b[..|b| - 1];
      HeardInParts(em, a, b[..|b| - 1]);
    }
  }

  /** The same emitter over a sink that held `before` already. */
  function After(before: seq<Event>, em: Emitter): Emitter {
    em.(emitted := before + em.emitted)
  }

  lemma Regroup(before: seq<Event>, e: seq<Event>, a: seq<Event>, b: seq<Event>, c: seq<Event>)
    ensures before + e + a == before + (e + a)
    ensures before + e + a + b == before + (e + a + b)
    ensures before + e + a + b + c == before + (e + a + b + c)
  {
  }

  lemma HeardAfter(before: seq<Event>, em: Emitter, d: Delta)
    ensures Heard(After(before, em), d) == After(before, Heard(em, d))
  {
    match d
    case ThinkingPart(text) =>
      Regroup(before, em.emitted, if em.inThinking then [] else [ThinkingStart], [ThinkingDelta(text)], []);
    case ContentPart(text) =>
      Regroup(before, em.emitted, if em.inThinking then [ThinkingEnd("")] else [],
              if em.started then [] else [StreamStart], [StreamDelta(text)]);
    case ArgsPart(index, entry, text) =>
      Regroup(before, em.emitted, [ToolArgs(index, entry, text)], [], []);
  }

  /** What an attempt emits does not depend on what its sink held before. */
  lemma {:induction false} HeardAllAfter(before: seq<Event>, em: Emitter, ds: seq<Delta>)
    ensures HeardAll(After(before, em), ds) == After(before, HeardAll(em, ds))
  {
    hide Heard, After;
    if ds != [] {
      HeardAllAfter(before, em, ds[..|ds| - 1]);
      HeardAfter(before, HeardAll(em, ds[..|ds| - 1]), ds[|ds| - 1]);
    }
  }

  lemma FlagAside(em: Emitter, flag: bool, d: Delta)
    ensures Heard(em.(deltaEmitted := flag), d) == Heard(em, d).(deltaEmitted := flag || d.ContentPart?)
  {
  }

  /** Nor on the flag. */
  lemma {:induction false} FlagDoesNotShow(em: Emitter, flag: bool, ds: seq<Delta>)
    ensures exists f :: HeardAll(em.(deltaEmitted := flag), ds) == HeardAll(em, ds).(deltaEmitted := f)
  {
    hide Heard;
    if ds == [] {
      assert HeardAll(em.(deltaEmitted := flag), ds) == HeardAll(em, ds).(deltaEmitted := flag);
    } else {
      var init, d := ds[..|ds| - 1], ds[|ds| - 1];
      FlagDoesNotShow(em, flag, init);
      var f :| HeardAll(em.(deltaEmitted := flag), init) == HeardAll(em, init).(deltaEmitted := f);
      FlagAside(HeardAll(em, init), f, d);
      assert HeardAll(em.(deltaEmitted := flag), ds) == HeardAll(em, ds).(deltaEmitted := f || d.ContentPart?);
    }
  }

  // Text delivered: nothing, or one STREAM_START and then the deltas

  datatype Delivery = Silent | Telling(text: string) | Garbled

  function DeliverNext(d: Delivery, e: Event): Delivery {
    match e
    case StreamStart => if d.Silent? then Telling("") else Garbled
    case StreamDelta(text) => if d.Telling? then Telling(d.text + text) else Garbled
    case _ => d
  }

  function Deliver(events: seq<Event>): Delivery {
    if events == [] then Silent else DeliverNext(Deliver(events[..|events| - 1]), events[|events| - 1])
  }

  function Told(text: string): Delivery {
    if text == "" then Silent else Telling(text)
  }

  // Thinking shown: brackets START DELTA+ END, with no text delivered inside them

  datatype Thought = Outside(text: string) | Opened(text: string) | Inside(text: string) | Broken

  function ThinkNext(t: Thought, e: Event): Thought {
    match e
    case ThinkingStart => if t.Outside? then Opened(t.text) else Broken
    case ThinkingDelta(text) => if t.Opened? || t.Inside? then Inside(t.text + text) else Broken
    case ThinkingEnd(_) => if t.Inside? then Outside(t.text) else Broken
    case ToolArgs(_, _, _) => if t.Opened? then Broken else t
    case _ => if t.Outside? then t else Broken
  }

  function Think(events: seq<Event>): Thought {
    if events == [] then Outside("") else ThinkNext(Think(events[..|events| - 1]), events[|events| - 1])
  }

  lemma OneMore(events: seq<Event>, e: Event)
    ensures Deliver(events + [e]) == DeliverNext(Deliver(events), e)
    ensures Think(events + [e]) == ThinkNext(Think(events), e)
  {
    assert (events + [e])[..|events|] == events;
  }

  lemma HeardOne(em: Emitter, d: Delta)
    requires em.hasSink
    ensures var after, events := Heard(em, d), em.emitted;
            match d
            case ThinkingPart(text) =>
              && Deliver(after.emitted) == Deliver(events)
              && Think(after.emitted) ==
                 ThinkNext(if em.inThinking then Think(events) else ThinkNext(Think(events), ThinkingStart), ThinkingDelta(text))
            case ContentPart(text) =>
              && Deliver(after.emitted) ==
                 DeliverNext(if em.started then Deliver(events) else DeliverNext(Deliver(events), StreamStart), StreamDelta(text))
              && Think(after.emitted) ==
                 ThinkNext(if em.inThinking then ThinkNext(Think(events), ThinkingEnd("")) else Think(events), StreamStart)
            case ArgsPart(_, _, _) =>
              && Deliver(after.emitted) == Deliver(events)
              && Think(after.emitted) == if Think(events).Opened? then Broken else Think(events)
  {
    hide Deliver, Think;
    match d
    case ThinkingPart(text) =>
      var begun := em.emitted + if em.inThinking then [] else [ThinkingStart];
      OneMore(em.emitted, ThinkingStart);
      OneMore(begun, ThinkingDelta(text));
      assert em.inThinking ==> begun == em.emitted;
    case ContentPart(text) =>
      var closed := em.emitted + if em.inThinking then [ThinkingEnd("")] else [];
      var begun := closed + if em.started then [] else [StreamStart];
      OneMore(em.emitted, ThinkingEnd(""));
      OneMore(closed, StreamStart);
      OneMore(begun, StreamDelta(text));
      assert em.inThinking || closed == em.emitted;
      assert !em.started || begun == closed;
    case ArgsPart(index, entry, text) =>
      OneMore(em.emitted, ToolArgs(index, entry, text));
  }

  /** A fresh emitter over a sink that has delivered nothing delivers exactly the content it hears. */
  lemma {:induction false} DeliversWhatItHears(em: Emitter, ds: seq<Delta>)
    requires em.hasSink && !em.started && Deliver(em.emitted) == Silent && NothingEmpty(ds)
    ensures var after := HeardAll(em, ds);
            && after.hasSink && (after.started <==> ContentTold(ds) != "")
            && Deliver(after.emitted) == Told(ContentTold(ds))
  {
    hide Heard;
    if ds != [] {
      var init, d := ds[..|ds| - 1], ds[|ds| - 1];
      DeliversWhatItHears(em, init);
      HeardFlags(HeardAll(em, init), d);
      HeardOne(HeardAll(em, init), d);
    }
  }

  lemma HeardFlags(em: Emitter, d: Delta)
    ensures var after := Heard(em, d);
            && after.hasSink == em.hasSink
            && after.deltaEmitted == (em.deltaEmitted || d.ContentPart?)
            && (em.hasSink ==> after.started == (em.started || d.ContentPart?))
            && (em.hasSink ==> after.inThinking == (d.ThinkingPart? || (em.inThinking && d.ArgsPart?)))
            && (!em.hasSink ==> after.emitted == em.emitted)
  {
  }

  /** Hearing content sets the flag, and without a sink nothing is emitted. */
  lemma {:induction false} ContentSetsTheFlag(em: Emitter, ds: seq<Delta>)
    requires NothingEmpty(ds)
    ensures HeardAll(em, ds).deltaEmitted <==> em.deltaEmitted || ContentTold(ds) != ""
    ensures HeardAll(em, ds).hasSink == em.hasSink
    ensures !em.hasSink ==> HeardAll(em, ds).emitted == em.emitted
  {
    hide Heard;
    if ds != [] {
      ContentSetsTheFlag(em, ds[..|ds| - 1]);
      HeardFlags(HeardAll(em, ds[..|ds| - 1]), ds[|ds| - 1]);
    }
  }

  /** Where the thinking of an attempt that began outside thinking has got to. */
  lemma {:induction false} ThinksWhatItHears(em: Emitter, ds: seq<Delta>)
    requires em.hasSink && !em.inThinking && Think(em.emitted).Outside?
    ensures var after := HeardAll(em, ds);
            && after.hasSink
            && Think(after.emitted) ==
               if after.inThinking then Inside(Think(em.emitted).text + ThinkingTold(ds))
               else Outside(Think(em.emitted).text + ThinkingTold(ds))
  {
    hide Heard;
    if ds != [] {
      var init, d := ds[..|ds| - 1], ds[|ds| - 1];
      ThinksWhatItHears(em, init);
      HeardFlags(HeardAll(em, init), d);
      HeardOne(HeardAll(em, init), d);
    }
  }

  /** An attempt that starts while earlier thinking is still open never gets outside again. */
  lemma {:induction false} OpenThinkingStaysOpen(em: Emitter, ds: seq<Delta>)
    requires em.hasSink && !em.inThinking && !em.started && !Think(em.emitted).Outside?
    ensures var after := HeardAll(em, ds);
            && after.hasSink && !Think(after.emitted).Outside?
            && (after.inThinking || after.started ==> Think(after.emitted).Broken?)
  {
    hide Heard;
    if ds != [] {
      var init, d := ds[..|ds| - 1], ds[|ds| - 1];
      OpenThinkingStaysOpen(em, init);
      HeardFlags(HeardAll(em, init), d);
      HeardOne(HeardAll(em, init), d);
    }
  }

  /** With thinking but no content, the emitter is left inside thinking. */
  lemma {:induction false} ThinkingIsLeftOpen(em: Emitter, ds: seq<Delta>)
    requires em.hasSink && !em.inThinking && NothingEmpty(ds) && ContentTold(ds) == ""
    ensures HeardAll(em, ds).hasSink
    ensures HeardAll(em, ds).inThinking <==> ThinkingTold(ds) != ""
  {
    hide Heard;
    if ds != [] {
      var init, d := ds[..|ds| - 1], ds[|ds| - 1];
      ThinkingIsLeftOpen(em, init);
      HeardFlags(HeardAll(em, init), d);
    }
  }

  lemma FinishThinks(em: Emitter, thinking: string)
    requires em.hasSink
    ensures var after := ThinkingFinished(em, thinking).emitted;
            && Deliver(after) == Deliver(em.emitted)
            && Think(after) == if em.inThinking then ThinkNext(Think(em.emitted), ThinkingEnd("")) else Think(em.emitted)
  {
    OneMore(em.emitted, ThinkingEnd(thinking));
  }

  /** Finishing leaves the emitter outside thinking, with the thinking it showed. */
  lemma FinishLeavesThinking(em: Emitter, thinking: string, shown: string)
    requires em.hasSink && Think(em.emitted) == if em.inThinking then Inside(shown) else Outside(shown)
    ensures Think(ThinkingFinished(em, thinking).emitted) == Outside(shown)
  {
    hide Think;
    FinishThinks(em, thinking);
  }

  // Previews of tool calls

  function Shown(d: Delta): seq<Event> {
    if d.ArgsPart? then [ToolArgs(d.index, d.entry, d.text)] else []
  }

  function AllShown(ds: seq<Delta>): seq<Event> {
    if ds == [] then [] else AllShown(ds[..|ds| - 1]) + Shown(ds[|ds| - 1])
  }

  /** The tool call previews among some events. */
  function PreviewsIn(events: seq<Event>): seq<Event> {
    if events == [] then []
    else PreviewsIn(events[..|events| - 1]) + if events[|events| - 1].ToolArgs? then [events[|events| - 1]] else []
  }

  lemma OneMorePreview(events: seq<Event>, e: Event)
    ensures PreviewsIn(events + [e]) == PreviewsIn(events) + if e.ToolArgs? then [e] else []
  {
    assert (events + [e])[..|events|] == events;
  }

  lemma HeardPreview(em: Emitter, d: Delta)
    ensures var after := Heard(em, d);
            if em.hasSink then
              PreviewsIn(after.emitted) == PreviewsIn(em.emitted) + Shown(d) && after.previews == em.previews && after.hasSink
            else after.emitted == em.emitted && after.previews == em.previews + Shown(d) && !after.hasSink
  {
    hide PreviewsIn;
    if em.hasSink {
      match d
      case ThinkingPart(text) =>
        OneMorePreview(em.emitted, ThinkingStart);
        OneMorePreview(em.emitted + if em.inThinking then [] else [ThinkingStart], ThinkingDelta(text));
        assert em.emitted + [] == em.emitted;
      case ContentPart(text) =>
        var closed := em.emitted + if em.inThinking then [ThinkingEnd("")] else [];
        OneMorePreview(em.emitted, ThinkingEnd(""));
        OneMorePreview(closed, StreamStart);
        OneMorePreview(closed + if em.started then [] else [StreamStart], StreamDelta(text));
        assert em.emitted + [] == em.emitted && closed + [] == closed;
      case ArgsPart(index, entry, text) =>
        OneMorePreview(em.emitted, ToolArgs(index, entry, text));
    } else {
      assert em.previews + [] == em.previews;
    }
  }

  /** Every preview heard is shown, in order and without loss: to the sink, or to whoever gets the previews when
      there is none. */
  lemma {:induction false} ShowsPreviewsItHears(em: Emitter, ds: seq<Delta>)
    ensures var after := HeardAll(em, ds);
            if em.hasSink then
              PreviewsIn(after.emitted) == PreviewsIn(em.emitted) + AllShown(ds) && after.previews == em.previews && after.hasSink
            else after.emitted == em.emitted && after.previews == em.previews + AllShown(ds) && !after.hasSink
  {
    hide Heard, PreviewsIn, Shown;
    if ds == [] {
      assert PreviewsIn(em.emitted) + [] == PreviewsIn(em.emitted) && em.previews + [] == em.previews;
    } else {
      var init, d := ds[..|ds| - 1], ds[|ds| - 1];
      ShowsPreviewsItHears(em, init);
      HeardPreview(HeardAll(em, init), d);
    }
  }

  lemma {:induction false} ShownConcat(a: seq<Delta>, b: seq<Delta>)
    ensures AllShown(a + b) == AllShown(a) + AllShown(b)
  {
    if b == [] {
      assert a + b == a;
    } else {
      assert (a + b)[..|a + b| - 1] == a + b[..|b| - 1];
      ShownConcat(a, b[..|b| - 1]);
    }
  }

  /** The preview after fragment `k`: the call as its own fragments so far spell it out, and the arguments that
      came with this one. */
  function PreviewAt(ds: seq<ToolDelta>, k: nat): Event
    requires k < |ds|
  {
    ToolArgs(ds[k].index, Assembled(OfIndex(ds[..k + 1], ds[k].index)), ds[k].arguments)
  }

  function PreviewsOf(ds: seq<ToolDelta>): seq<Event> {
    seq(|ds|, k requires 0 <= k < |ds| => PreviewAt(ds, k))
  }

  lemma PreviewsStep(ds: seq<ToolDelta>, d: ToolDelta)
    ensures PreviewsOf(ds + [d]) == PreviewsOf(ds) + [PreviewAt(ds + [d], |ds|)]
  {
    forall k | 0 <= k < |ds|
      ensures PreviewAt(ds + [d], k) == PreviewAt(ds, k)
    {
      assert (ds + [d])[..k + 1] == ds[..k + 1];
    }
  }

  lemma {:induction false} FragmentsAreShown(before: seq<ToolDelta>, ds: seq<ToolDelta>)
    ensures PreviewsOf(before + ds) == PreviewsOf(before) + AllShown(ArgsParts(MergedAll(NoCalls, before), ds))
  {
    hide Assembled, MergedAll, PreviewsOf, AllShown, ArgsParts, PreviewAt;
    if ds == [] {
      assert before + ds == before;
      NothingShown(MergedAll(NoCalls, before));
    } else {
      var init, d := ds[..|ds| - 1], ds[|ds| - 1];
      var all := before + ds;
      FragmentsAreShown(before, init);
      assert all == (before + init) + [d];
      PreviewsStep(before + init, d);
      LastFragmentIsShown(before, ds);
    }
  }

  lemma NothingShown(t: ToolCalls)
    ensures AllShown(ArgsParts(t, [])) == []
  {
  }

  lemma LastFragmentIsShown(before: seq<ToolDelta>, ds: seq<ToolDelta>)
    requires ds != []
    ensures var t, all := MergedAll(NoCalls, before), before + ds;
            AllShown(ArgsParts(t, ds)) == AllShown(ArgsParts(t, ds[..|ds| - 1])) + [PreviewAt(all, |all| - 1)]
  {
    hide Assembled, MergedAll, Merged, OfIndex;
    var t, all, d := MergedAll(NoCalls, before), before + ds, ds[|ds| - 1];
    var told := ArgsParts(t, ds);
    assert told[..|told| - 1] == ArgsParts(t, ds[..|ds| - 1]);
    MergedInParts(NoCalls, before, ds);
    CallsAreAssembled(all, d.index);
    LastIsOfIndex(all);
    assert all[..|all| - 1 + 1] == all && all[|all| - 1] == d;
  }

  lemma LastIsOfIndex(ds: seq<ToolDelta>)
    requires ds != []
    ensures OfIndex(ds, ds[|ds| - 1].index) != []
  {
  }

  lemma TextIsNoPreview(c: Chunk)
    ensures AllShown((if c.thinking != "" then [ThinkingPart(c.thinking)] else []) +
                     (if c.content != "" then [ContentPart(c.content)] else [])) == []
  {
    var a := if c.thinking != "" then [ThinkingPart(c.thinking)] else [];
    var b := if c.content != "" then [ContentPart(c.content)] else [];
    ShownConcat(a, b);
    assert a != [] ==> a[..0] == [];
    assert b != [] ==> b[..0] == [];
  }

  /** The previews told for a stream: one for each fragment of a tool call, in order, showing the call as far as
      it has been put together. */
  lemma {:induction false} CallsArePreviewed(chunks: seq<Chunk>)
    ensures var shown, ds := AllShown(Deltas(chunks)), AllToolDeltas(chunks);
            && |shown| == |ds|
            && forall k :: 0 <= k < |ds| ==>
                 shown[k] == ToolArgs(ds[k].index, Assembled(OfIndex(ds[..k + 1], ds[k].index)), ds[k].arguments)
  {
    PreviewsOfChunks(chunks);
  }

  lemma {:induction false} PreviewsOfChunks(chunks: seq<Chunk>)
    ensures AllShown(Deltas(chunks)) == PreviewsOf(AllToolDeltas(chunks))
  {
    hide PreviewsOf, AllShown, ArgsParts, MergedAll, ToolDeltas;
    if chunks == [] {
      NothingPreviewed();
    } else {
      var init, c := chunks[..|chunks| - 1], chunks[|chunks| - 1];
      PreviewsOfChunks(init);
      ShownConcat(Deltas(init), ChunkDeltas(Tools(init), c));
      var text := (if c.thinking != "" then [ThinkingPart(c.thinking)] else []) +
                  (if c.content != "" then [ContentPart(c.content)] else []);
      TextIsNoPreview(c);
      ShownConcat(text, ArgsParts(Tools(init), ToolDeltas(c.tool)));
      FragmentsAreShown(AllToolDeltas(init), ToolDeltas(c.tool));
    }
  }

  lemma NothingPreviewed()
    ensures AllShown([]) == [] && PreviewsOf([]) == []
  {
  }

  // The emitter object

  class StreamSink {
    var events: seq<Event>

    constructor ()
      ensures events == []
    {
      events := [];
    }

    method Emit(e: Event)
      modifies this
      ensures events == old(events) + [e]
    {
      events := events + [e];
    }
  }

  /** The part of an execution's state that the emitter writes. */
  class CallRuntime {
    var streamDeltaEmitted: bool

    constructor ()
      ensures !streamDeltaEmitted
    {
      streamDeltaEmitted := false;
    }
  }

  class StreamEventEmitter {
    const runtime: CallRuntime
    const sink: StreamSink?
    var inThinking: bool
    var streamStarted: bool
    var previewEvents: seq<Event>

    ghost function Value(): Emitter
      reads this, runtime, sink
    {
      Emitter(sink != null, inThinking, streamStarted, runtime.streamDeltaEmitted,
              if sink != null then sink.events else [], previewEvents)
    }

    constructor (runtime: CallRuntime, sink: StreamSink?)
      ensures this.runtime == runtime && this.sink == sink
      ensures Value() == Fresh(sink != null, runtime.streamDeltaEmitted, if sink != null then sink.events else [])
    {
      this.runtime, this.sink := runtime, sink;
      inThinking, streamStarted, previewEvents := false, false, [];
    }

    method OnDelta(d: Delta)
      modifies this, runtime, sink
      ensures Value() == Heard(old(Value()), d)
    {
      match d
      case ThinkingPart(text) =>
        if sink == null {
          return;
        }
        if !inThinking {
          inThinking := true;
          sink.Emit(ThinkingStart);
        }
        sink.Emit(ThinkingDelta(text));
      case ContentPart(text) =>
        runtime.streamDeltaEmitted := true;
        if sink == null {
          return;
        }
        if inThinking {
          inThinking := false;
          sink.Emit(ThinkingEnd(""));
        }
        if !streamStarted {
          streamStarted := true;
          sink.Emit(StreamStart);
        }
        sink.Emit(StreamDelta(text));
      case ArgsPart(index, entry, text) =>
        if sink != null {
          sink.Emit(ToolArgs(index, entry, text));
        } else {
          previewEvents := previewEvents + [ToolArgs(index, entry, text)];
        }
    }

    method FinishThinking(thinking: string)
      modifies this, sink
      ensures Value() == ThinkingFinished(old(Value()), thinking)
    {
      if inThinking && sink != null {
        sink.Emit(ThinkingEnd(thinking));
      }
      inThinking := false;
    }
  }
}
