/** One streamed model call (core/llm_caller.py): two attempts on the primary model, then one on the
fallback, as long as nothing has been delivered yet. */
module StreamCalls {
  import opened Wrappers
  import opened StreamMessages
  import opened StreamEvents
  import opened StreamAggregator

  datatype CallResult =
    | Answer(message: Message, events: seq<Event>)
    | Interrupted
    | GaveUp(retryable: bool)

  /** How a call ended, what its sink holds then, and the flag of the execution. */
  datatype Call = Call(result: CallResult, emitted: seq<Event>, deltaEmitted: bool)

  /** The events handed back when there is no sink. */
  function Replay(m: Message): seq<Event> {
    (if m.hasContent then [StreamStart, StreamDelta(m.content)] else []) +
    (if m.thinking != "" then [ThinkingStart, ThinkingDelta(m.thinking), ThinkingEnd(m.thinking)] else [])
  }

  function HeardOf(a: Attempt, hasSink: bool, deltaEmitted: bool, emitted: seq<Event>): Emitter {
    HeardAll(Fresh(hasSink, deltaEmitted, emitted), Deltas(Read(a.chunks)))
  }

  function Attempted(a: Attempt, hasSink: bool, deltaEmitted: bool, emitted: seq<Event>): Call {
    var em := HeardOf(a, hasSink, deltaEmitted, emitted);
    match OutcomeOf(a)
    case Completed(m) =>
      Call(Answer(m, (if hasSink then [] else Replay(m)) + em.previews), ThinkingFinished(em, m.thinking).emitted, em.deltaEmitted)
    case Failed(retryable) => Call(GaveUp(retryable), em.emitted, em.deltaEmitted)
  }

  /** The call, attempt by attempt. */
  function RunCall(primary: seq<Attempt>, fallback: Option<Attempt>, hasSink: bool, deltaEmitted: bool, emitted: seq<Event>): Call
    requires primary != [] || fallback.Some?
  {
    if primary == [] then Attempted(fallback.value, hasSink, deltaEmitted, emitted)
    else
      var c := Attempted(primary[0], hasSink, deltaEmitted, emitted);
      if c.result != GaveUp(true) then c
      else if c.deltaEmitted then c.(result := Interrupted)
      else if |primary| == 1 && fallback.None? then c
      else RunCall(primary[1..], fallback, hasSink, c.deltaEmitted, c.emitted)
  }

  /** One attempt through the aggregator and a new emitter. */
  method AggregateStream(a: Attempt, runtime: CallRuntime, sink: StreamSink?) returns (result: CallResult)
    modifies runtime, sink
    ensures Call(result, if sink != null then sink.events else [], runtime.streamDeltaEmitted) ==
            Attempted(a, sink != null, old(runtime.streamDeltaEmitted), if sink != null then old(sink.events) else [])
  {
    hide Heard, HeardAll, Deltas, Read, MessageOf, AtLimit, HasPayload, Replay;
    var emitter := new StreamEventEmitter(runtime, sink);
    var outcome := Aggregate(a, emitter);
    if outcome.Failed? {
      return GaveUp(outcome.retryable);
    }
    emitter.FinishThinking(outcome.message.thinking);
    var events := if sink == null then Replay(outcome.message) else [];
    return Answer(outcome.message, events + emitter.previewEvents);
  }

  /** The retry loop. */
  method CallWithRetry(first: Attempt, second: Attempt, fallback: Option<Attempt>, runtime: CallRuntime, sink: StreamSink?)
    returns (result: CallResult)
    modifies runtime, sink
    ensures Call(result, if sink != null then sink.events else [], runtime.streamDeltaEmitted) ==
            RunCall([first, second], fallback, sink != null, old(runtime.streamDeltaEmitted),
                    if sink != null then old(sink.events) else [])
  {
    hide Attempted;
    var primary := [first, second];
    assert primary[0..] == primary && primary[1..] == [second] && primary[2..] == [];
    for attempt := 0 to 2
      invariant attempt < 2
      invariant RunCall(primary[attempt..], fallback, sink != null, runtime.streamDeltaEmitted, if sink != null then sink.events else []) ==
                RunCall(primary, fallback, sink != null, old(runtime.streamDeltaEmitted), if sink != null then old(sink.events) else [])
    {
      result := AggregateStream(primary[attempt], runtime, sink);
      if result != GaveUp(true) {
        return;
      }
      if runtime.streamDeltaEmitted {
        return Interrupted;
      }
      if attempt == 0 {
        continue;
      }
      if fallback.Some? {
        result := AggregateStream(fallback.value, runtime, sink);
        return;
      }
      return;
    }
    assert false;
  }

  // The attempt that decides the call

  function ContentOf(a: Attempt): string {
    Content(Read(a.chunks))
  }

  function ThinkingOf(a: Attempt): string {
    Thinking(Read(a.chunks))
  }

  /** The first of these attempts fails in a way that lets the next one go ahead. */
  predicate MovesOn(primary: seq<Attempt>, fallback: Option<Attempt>, deltaEmitted: bool) {
    && primary != [] && OutcomeOf(primary[0]) == Failed(true) && ContentOf(primary[0]) == "" && !deltaEmitted
    && (|primary| > 1 || fallback.Some?)
  }

  function Deciding(primary: seq<Attempt>, fallback: Option<Attempt>, deltaEmitted: bool): Attempt
    requires primary != [] || fallback.Some?
  {
    if MovesOn(primary, fallback, deltaEmitted) then Deciding(primary[1..], fallback, deltaEmitted)
    else if primary == [] then fallback.value
    else primary[0]
  }

  /** No attempt before the deciding one has shown any thinking. */
  predicate QuietRetries(primary: seq<Attempt>, fallback: Option<Attempt>, deltaEmitted: bool) {
    MovesOn(primary, fallback, deltaEmitted) ==>
      ThinkingOf(primary[0]) == "" && QuietRetries(primary[1..], fallback, deltaEmitted)
  }

  lemma AttemptSays(a: Attempt)
    ensures OutcomeOf(a).Completed? ==>
              var m := OutcomeOf(a).message;
              m.content == ContentOf(a) && m.thinking == ThinkingOf(a) && (m.hasContent <==> m.content != "")
  {
    hide AtLimit, HasPayload, Content, Thinking, Listed;
    PartsAreGiven(Read(a.chunks));
  }

  lemma AttemptDelivers(a: Attempt, hasSink: bool, deltaEmitted: bool, emitted: seq<Event>)
    requires Deliver(emitted) == Silent
    ensures var c := Attempted(a, hasSink, deltaEmitted, emitted);
            && (c.deltaEmitted <==> deltaEmitted || ContentOf(a) != "")
            && Deliver(c.emitted) == (if hasSink then Told(ContentOf(a)) else Silent)
            && (c.result.Answer? ==> c.result.message.content == ContentOf(a))
            && (c.result == GaveUp(true) <==> OutcomeOf(a) == Failed(true))
            && !c.result.Interrupted?
  {
    hide Heard, HeardAll, Deltas, Deliver, OutcomeOf;
    AttemptSays(a);
    var em, ds := Fresh(hasSink, deltaEmitted, emitted), Deltas(Read(a.chunks));
    DeltasTellTheMessage(Read(a.chunks));
    ContentSetsTheFlag(em, ds);
    if hasSink {
      DeliversWhatItHears(em, ds);
      FinishThinks(HeardAll(em, ds), ThinkingOf(a));
    }
  }

  /** Whatever happens, the listener gets one STREAM_START followed by text of one single attempt, the
      deciding one, or no text at all. An answered call delivers exactly the answer's content. */
  lemma {:induction false} TextOfOneAttempt(primary: seq<Attempt>, fallback: Option<Attempt>, deltaEmitted: bool, emitted: seq<Event>)
    requires primary != [] || fallback.Some?
    requires Deliver(emitted) == Silent
    ensures var c := RunCall(primary, fallback, true, deltaEmitted, emitted);
            && Deliver(c.emitted) == Told(ContentOf(Deciding(primary, fallback, deltaEmitted)))
            && (c.result.Answer? ==> Deliver(c.emitted) == Told(c.result.message.content))
            && (c.result.Interrupted? ==> c.deltaEmitted)
  {
    hide Attempted, Deliver, OutcomeOf, ContentOf;
    if primary == [] {
      AttemptDelivers(fallback.value, true, deltaEmitted, emitted);
    } else {
      AttemptDelivers(primary[0], true, deltaEmitted, emitted);
      if MovesOn(primary, fallback, deltaEmitted) {
        var c := Attempted(primary[0], true, deltaEmitted, emitted);
        TextOfOneAttempt(primary[1..], fallback, c.deltaEmitted, c.emitted);
      }
    }
  }

  lemma AttemptThinks(a: Attempt, deltaEmitted: bool, emitted: seq<Event>)
    requires Think(emitted) == Outside("")
    ensures var c := Attempted(a, true, deltaEmitted, emitted);
            && (c.result.Answer? ==> Think(c.emitted) == Outside(c.result.message.thinking))
            && (ContentOf(a) == "" && !c.result.Answer? ==>
                  (Think(c.emitted).Outside? <==> ThinkingOf(a) == "")
                  && (ThinkingOf(a) == "" ==> Think(c.emitted) == Outside("")))
  {
    hide Heard, HeardAll, Deltas, Think, ThinkingFinished, OutcomeOf, Replay;
    AttemptSays(a);
    var em, ds := Fresh(true, deltaEmitted, emitted), Deltas(Read(a.chunks));
    DeltasTellTheMessage(Read(a.chunks));
    ThinksWhatItHears(em, ds);
    FinishLeavesThinking(HeardAll(em, ds), ThinkingOf(a), ThinkingOf(a));
    if ContentOf(a) == "" {
      ThinkingIsLeftOpen(em, ds);
    }
  }

  lemma AttemptStaysOpen(a: Attempt, deltaEmitted: bool, emitted: seq<Event>)
    requires !Think(emitted).Outside?
    ensures !Think(Attempted(a, true, deltaEmitted, emitted).emitted).Outside?
  {
    hide Heard, HeardAll, Deltas, Think, OutcomeOf;
    AttemptSays(a);
    var em, ds := Fresh(true, deltaEmitted, emitted), Deltas(Read(a.chunks));
    OpenThinkingStaysOpen(em, ds);
    FinishThinks(HeardAll(em, ds), ThinkingOf(a));
  }

  lemma {:induction false} CallStaysOpen(primary: seq<Attempt>, fallback: Option<Attempt>, deltaEmitted: bool, emitted: seq<Event>)
    requires primary != [] || fallback.Some?
    requires !Think(emitted).Outside?
    ensures !Think(RunCall(primary, fallback, true, deltaEmitted, emitted).emitted).Outside?
  {
    hide Attempted, Think;
    if primary == [] {
      AttemptStaysOpen(fallback.value, deltaEmitted, emitted);
    } else {
      AttemptStaysOpen(primary[0], deltaEmitted, emitted);
      var c := Attempted(primary[0], true, deltaEmitted, emitted);
      if c.result == GaveUp(true) && !c.deltaEmitted && (|primary| > 1 || fallback.Some?) {
        CallStaysOpen(primary[1..], fallback, c.deltaEmitted, c.emitted);
      }
    }
  }

  /** The fallback decides: both attempts on the primary model let the next one go ahead. */
  predicate FallsBack(primary: seq<Attempt>, fallback: Option<Attempt>, deltaEmitted: bool) {
    primary == [] || (MovesOn(primary, fallback, deltaEmitted) && FallsBack(primary[1..], fallback, deltaEmitted))
  }

  /** A call ends the way its deciding attempt does, except that a failure that could be retried interrupts the
      call when text has been delivered, unless it is the fallback that failed. */
  lemma {:induction false} CallEndsAsDecided(
      primary: seq<Attempt>, fallback: Option<Attempt>, hasSink: bool, deltaEmitted: bool, emitted: seq<Event>)
    requires primary != [] || fallback.Some?
    ensures var c, a := RunCall(primary, fallback, hasSink, deltaEmitted, emitted), Deciding(primary, fallback, deltaEmitted);
            && (c.deltaEmitted <==> deltaEmitted || ContentOf(a) != "")
            && match OutcomeOf(a)
               case Completed(m) => c.result.Answer? && c.result.message == m
               case Failed(retryable) =>
                 if retryable && c.deltaEmitted && !FallsBack(primary, fallback, deltaEmitted) then c.result.Interrupted?
                 else c.result == GaveUp(retryable)
  {
    hide Attempted, OutcomeOf, ContentOf;
    var a := if primary == [] then fallback.value else primary[0];
    AttemptEnds(a, hasSink, deltaEmitted, emitted);
    if MovesOn(primary, fallback, deltaEmitted) {
      var c := Attempted(a, hasSink, deltaEmitted, emitted);
      CallEndsAsDecided(primary[1..], fallback, hasSink, c.deltaEmitted, c.emitted);
    }
  }

  lemma AttemptEnds(a: Attempt, hasSink: bool, deltaEmitted: bool, emitted: seq<Event>)
    ensures var c := Attempted(a, hasSink, deltaEmitted, emitted);
            && (c.deltaEmitted <==> deltaEmitted || ContentOf(a) != "")
            && match OutcomeOf(a)
               case Completed(m) => c.result.Answer? && c.result.message == m
               case Failed(retryable) => c.result == GaveUp(retryable)
  {
    hide Heard, HeardAll, Deltas, OutcomeOf;
    DeltasTellTheMessage(Read(a.chunks));
    ContentSetsTheFlag(Fresh(hasSink, deltaEmitted, emitted), Deltas(Read(a.chunks)));
  }

  /** The events of an answered call bracket its thinking properly exactly when no failed attempt had
      begun to think: the brackets an attempt leaves open when it fails are never closed. */
  lemma {:induction false} BracketsCloseExactlyWhenRetriesAreQuiet(
      primary: seq<Attempt>, fallback: Option<Attempt>, deltaEmitted: bool, emitted: seq<Event>)
    requires primary != [] || fallback.Some?
    requires Think(emitted) == Outside("") && Deliver(emitted) == Silent
    requires RunCall(primary, fallback, true, deltaEmitted, emitted).result.Answer?
    ensures var c := RunCall(primary, fallback, true, deltaEmitted, emitted);
            && (Think(c.emitted).Outside? <==> QuietRetries(primary, fallback, deltaEmitted))
            && (Think(c.emitted).Outside? ==> Think(c.emitted) == Outside(c.result.message.thinking))
  {
    hide Attempted, Think, Deliver, OutcomeOf, ContentOf, ThinkingOf;
    if primary == [] {
      AttemptThinks(fallback.value, deltaEmitted, emitted);
    } else {
      AttemptThinks(primary[0], deltaEmitted, emitted);
      AttemptDelivers(primary[0], true, deltaEmitted, emitted);
      if MovesOn(primary, fallback, deltaEmitted) {
        var c := Attempted(primary[0], true, deltaEmitted, emitted);
        if ThinkingOf(primary[0]) == "" {
          BracketsCloseExactlyWhenRetriesAreQuiet(primary[1..], fallback, c.deltaEmitted, c.emitted);
        } else {
          CallStaysOpen(primary[1..], fallback, c.deltaEmitted, c.emitted);
        }
      }
    }
  }

  // Each attempt by itself

  /** What an attempt shows a listener, on its own. */
  function OwnEvents(a: Attempt): seq<Event> {
    Attempted(a, true, false, []).emitted
  }

  lemma AttemptShowsItsOwn(a: Attempt, deltaEmitted: bool, emitted: seq<Event>)
    ensures Attempted(a, true, deltaEmitted, emitted).emitted == emitted + OwnEvents(a)
  {
    hide Heard, HeardAll, Deltas, OutcomeOf;
    var em, ds := Fresh(true, false, []), Deltas(Read(a.chunks));
    var own := HeardAll(em, ds);
    FlagDoesNotShow(em, deltaEmitted, ds);
    var f :| HeardAll(em.(deltaEmitted := deltaEmitted), ds) == own.(deltaEmitted := f);
    HeardAllAfter(emitted, Fresh(true, deltaEmitted, []), ds);
    assert emitted + [] == emitted;
    assert HeardOf(a, true, deltaEmitted, emitted) == After(emitted, own).(deltaEmitted := f);
    if OutcomeOf(a).Completed? {
      var thinking := OutcomeOf(a).message.thinking;
      assert own.inThinking && own.hasSink ==>
        emitted + own.emitted + [ThinkingEnd(thinking)] == emitted + (own.emitted + [ThinkingEnd(thinking)]);
    }
  }

  /** An attempt shows one preview for each fragment of a tool call it reads, and an answer without content
      closes its thinking with all of it. */
  lemma AttemptShowsItsCalls(a: Attempt)
    ensures var ds, previews := AllToolDeltas(Read(a.chunks)), PreviewsIn(OwnEvents(a));
            && |previews| == |ds|
            && forall k :: 0 <= k < |ds| ==>
                 previews[k] == ToolArgs(ds[k].index, Assembled(OfIndex(ds[..k + 1], ds[k].index)), ds[k].arguments)
    ensures OutcomeOf(a).Completed? && ContentOf(a) == "" && ThinkingOf(a) != "" ==>
              OwnEvents(a) != [] && OwnEvents(a)[|OwnEvents(a)| - 1] == ThinkingEnd(ThinkingOf(a))
  {
    hide Heard, HeardAll, Deltas, OutcomeOf, AllShown, PreviewsIn, Assembled, OfIndex, AllToolDeltas;
    AttemptSays(a);
    var em, ds := Fresh(true, false, []), Deltas(Read(a.chunks));
    CallsArePreviewed(Read(a.chunks));
    ShowsPreviewsItHears(em, ds);
    NoPreviews();
    OneMorePreview(HeardAll(em, ds).emitted, ThinkingEnd(ThinkingOf(a)));
    DeltasTellTheMessage(Read(a.chunks));
    if ContentOf(a) == "" {
      ThinkingIsLeftOpen(em, ds);
    }
  }

  lemma NoPreviews()
    ensures PreviewsIn([]) == []
  {
  }

  /** What the attempts before the deciding one have shown. */
  function EarlierEvents(primary: seq<Attempt>, fallback: Option<Attempt>, deltaEmitted: bool): seq<Event> {
    if MovesOn(primary, fallback, deltaEmitted)
    then OwnEvents(primary[0]) + EarlierEvents(primary[1..], fallback, deltaEmitted)
    else []
  }

  /** A call shows the events of its attempts one after the other. In an answered call those of the deciding
      attempt, by themselves, bracket exactly the answer's thinking and deliver exactly its content, whatever
      was left open before them. */
  lemma {:induction false} DecidingAttemptStandsAlone(
      primary: seq<Attempt>, fallback: Option<Attempt>, deltaEmitted: bool, emitted: seq<Event>)
    requires primary != [] || fallback.Some?
    ensures var c, own := RunCall(primary, fallback, true, deltaEmitted, emitted), OwnEvents(Deciding(primary, fallback, deltaEmitted));
            && c.emitted == emitted + EarlierEvents(primary, fallback, deltaEmitted) + own
            && (c.result.Answer? ==> Think(own) == Outside(c.result.message.thinking) && Deliver(own) == Told(c.result.message.content))
  {
    hide Attempted, Think, Deliver, OutcomeOf, ContentOf, OwnEvents;
    var a := if primary == [] then fallback.value else primary[0];
    AttemptShowsItsOwn(a, deltaEmitted, emitted);
    AttemptMovesOn(a, deltaEmitted, emitted);
    if MovesOn(primary, fallback, deltaEmitted) {
      var c := Attempted(a, true, deltaEmitted, emitted);
      DecidingAttemptStandsAlone(primary[1..], fallback, c.deltaEmitted, c.emitted);
      var rest, own := EarlierEvents(primary[1..], fallback, deltaEmitted), OwnEvents(Deciding(primary, fallback, deltaEmitted));
      assert emitted + OwnEvents(a) + rest + own == emitted + (OwnEvents(a) + rest) + own;
    } else {
      assert emitted + [] + OwnEvents(a) == emitted + OwnEvents(a);
    }
  }

  lemma AttemptMovesOn(a: Attempt, deltaEmitted: bool, emitted: seq<Event>)
    ensures var c := Attempted(a, true, deltaEmitted, emitted);
            && (c.deltaEmitted <==> deltaEmitted || ContentOf(a) != "")
            && (c.result == GaveUp(true) <==> OutcomeOf(a) == Failed(true))
            && !c.result.Interrupted?
            && (c.result.Answer? ==> && Think(OwnEvents(a)) == Outside(c.result.message.thinking)
                                     && Deliver(OwnEvents(a)) == Told(c.result.message.content))
  {
    hide Heard, HeardAll, Deltas, Think, Deliver, OutcomeOf;
    AttemptSays(a);
    var ds := Deltas(Read(a.chunks));
    DeltasTellTheMessage(Read(a.chunks));
    ContentSetsTheFlag(Fresh(true, deltaEmitted, emitted), ds);
    NothingYet();
    AttemptDelivers(a, true, false, []);
    AttemptThinks(a, false, []);
  }

  const ThinksThenDrops := Attempt([Chunk("hm", "", NoTool, None)], Raised(true))
  const Says := Attempt([Chunk("", "yes", NoTool, None)], Finished)

  lemma ReadOne(c: Chunk)
    requires |c.content| < STREAM_MAX_CONTENT_LENGTH
    ensures Read([c]) == [c] && Content([c]) == c.content && Thinking([c]) == c.thinking && !AtLimit([c])
  {
    hide Content, Thinking;
    assert [c][..0] == [] && [c][..1] == [c];
    assert [] + [c] == [c];
    ContentStep([], c);
    NoText();
  }

  /** The brackets can stay open: thinking, a dropped connection, and an answer without thinking. */
  lemma DroppedThinkingIsNeverClosed()
    ensures var c := RunCall([ThinksThenDrops, Says], None, true, false, []);
            c.result.Answer? && !Think(c.emitted).Outside?
  {
    hide Deliver, Think, HeardAll, Content, Thinking, AtLimit, Deltas, Read, MessageOf;
    ReadOne(ThinksThenDrops.chunks[0]);
    ReadOne(Says.chunks[0]);
    NothingYet();
    var calls := [ThinksThenDrops, Says];
    assert calls[1..] == [Says];
    AttemptDelivers(ThinksThenDrops, true, false, []);
    var c := Attempted(ThinksThenDrops, true, false, []);
    AttemptDelivers(Says, true, c.deltaEmitted, c.emitted);
    BracketsCloseExactlyWhenRetriesAreQuiet(calls, None, false, []);
  }

  lemma OnlyArgsAreKept(em: Emitter, ds: seq<Delta>)
    requires !em.hasSink && ArgsOnly(em.previews)
    ensures !HeardAll(em, ds).hasSink && ArgsOnly(HeardAll(em, ds).previews)
  {
  }

  predicate ArgsOnly(events: seq<Event>) {
    forall i :: 0 <= i < |events| ==> events[i].ToolArgs?
  }

  lemma {:induction false} ArgsChangeNothing(events: seq<Event>, args: seq<Event>)
    requires ArgsOnly(args) && Think(events).Outside?
    ensures Deliver(events + args) == Deliver(events) && Think(events + args) == Think(events)
  {
    if args == [] {
      assert events + args == events;
    } else {
      var k := |args| - 1;
      ArgsChangeNothing(events, args[..k]);
      OneMore(events + args[..k], args[k]);
      assert events + args[..k] + [args[k]] == events + args;
    }
  }

  lemma ReplaySays(m: Message)
    requires m.hasContent <==> m.content != ""
    ensures Deliver(Replay(m)) == Told(m.content) && Think(Replay(m)) == Outside(m.thinking)
  {
    hide Deliver, Think;
    NothingYet();
    var text := if m.hasContent then [StreamStart, StreamDelta(m.content)] else [];
    OneMore([], StreamStart);
    OneMore([StreamStart], StreamDelta(m.content));
    assert [] + [StreamStart] == [StreamStart];
    assert [StreamStart] + [StreamDelta(m.content)] == [StreamStart, StreamDelta(m.content)];
    if m.thinking == "" {
      assert Replay(m) == text;
    } else {
      OneMore(text, ThinkingStart);
      OneMore(text + [ThinkingStart], ThinkingDelta(m.thinking));
      OneMore(text + [ThinkingStart] + [ThinkingDelta(m.thinking)], ThinkingEnd(m.thinking));
      assert Replay(m) == text + [ThinkingStart] + [ThinkingDelta(m.thinking)] + [ThinkingEnd(m.thinking)];
    }
  }

  lemma NothingYet()
    ensures Deliver([]) == Silent && Think([]) == Outside("")
  {
  }

  /** Without a sink, the events handed back by an answered call deliver the same content and the same
      thinking, whatever the attempts before it did. */
  lemma {:induction false} EventsSayTheSame(primary: seq<Attempt>, fallback: Option<Attempt>, deltaEmitted: bool)
    requires primary != [] || fallback.Some?
    requires RunCall(primary, fallback, false, deltaEmitted, []).result.Answer?
    ensures var c := RunCall(primary, fallback, false, deltaEmitted, []);
            && c.emitted == [] && Deliver(c.result.events) == Told(c.result.message.content)
            && Think(c.result.events) == Outside(c.result.message.thinking)
  {
    hide Attempted, Think, Deliver;
    if primary == [] {
      AttemptReplays(fallback.value, deltaEmitted);
    } else {
      AttemptReplays(primary[0], deltaEmitted);
      var c := Attempted(primary[0], false, deltaEmitted, []);
      if c.result == GaveUp(true) && !c.deltaEmitted && (|primary| > 1 || fallback.Some?) {
        EventsSayTheSame(primary[1..], fallback, c.deltaEmitted);
      }
    }
  }

  lemma AttemptReplays(a: Attempt, deltaEmitted: bool)
    ensures var c := Attempted(a, false, deltaEmitted, []);
            && c.emitted == []
            && (c.result.Answer? ==>
                  && Deliver(c.result.events) == Told(c.result.message.content)
                  && Think(c.result.events) == Outside(c.result.message.thinking))
  {
    hide Heard, HeardAll, Deltas, Think, Deliver, OutcomeOf;
    AttemptSays(a);
    var em, ds := Fresh(false, deltaEmitted, []), Deltas(Read(a.chunks));
    DeltasTellTheMessage(Read(a.chunks));
    ContentSetsTheFlag(em, ds);
    OnlyArgsAreKept(em, ds);
    match OutcomeOf(a)
    case Failed(_) =>
    case Completed(m) =>
      ReplaySays(m);
      ArgsChangeNothing(Replay(m), HeardAll(em, ds).previews);
  }
}
