/** The translation preserves the stream: ids, brackets and text, for every chunk sequence. */
module StreamFaithful {
  import opened Text
  import opened Wrappers
  import opened StreamTranslator

  // ----- What each input chunk should become, by its place in the stream -----

  function Init<T>(s: seq<T>): seq<T>
    requires s != []
  {
    s[..|s| - 1]
  }

  function Last<T>(s: seq<T>): T
    requires s != []
  {
    s[|s| - 1]
  }

  /** How many steps have started. */
  function Steps(chunks: seq<Chunk>): nat {
    if chunks == [] then 0 else Steps(Init(chunks)) + if Last(chunks).kind.StartStep? then 1 else 0
  }

  /** The last start on the channel that no end on the channel follows. */
  function OpenStart(chunks: seq<Chunk>, channel: Channel): (i: Option<nat>)
    ensures i.Some? ==> i.value < |chunks| && chunks[i.value].kind == Begin(channel)
  {
    if chunks == [] then None
    else if Last(chunks).kind == Begin(channel) then Some(|chunks| - 1)
    else if Last(chunks).kind == End(channel) then None
    else OpenStart(Init(chunks), channel)
  }

  lemma {:induction false} OpenStartIs(chunks: seq<Chunk>, channel: Channel, i: nat)
    ensures OpenStart(chunks, channel) == Some(i) <==>
            && i < |chunks| && chunks[i].kind == Begin(channel)
            && forall k :: i < k < |chunks| ==> chunks[k].kind != Begin(channel) && chunks[k].kind != End(channel)
    decreases |chunks|
  {
    if chunks != [] {
      OpenStartIs(Init(chunks), channel, i);
      if i < |chunks| - 1 {
        assert chunks[|chunks| - 1] == Last(chunks);
      }
    }
  }

  /** The id a start is given: its own base, suffixed with the number of the step it falls in. */
  function StartId(turn: nat, chunks: seq<Chunk>, i: nat): string
    requires i < |chunks| && chunks[i].kind.Begin?
  {
    Suffixed(StartBase(turn, chunks, i), Steps(chunks[..i]))
  }

  function StartBase(turn: nat, chunks: seq<Chunk>, i: nat): string
    requires i < |chunks| && chunks[i].kind.Begin?
  {
    PartBase(chunks[i], chunks[i].kind.channel, turn, Steps(chunks[..i]))
  }

  function OpenId(turn: nat, chunks: seq<Chunk>, channel: Channel): Option<string> {
    var start := OpenStart(chunks, channel);
    if start.Some? then Some(StartId(turn, chunks, start.value)) else None
  }

  /** All text deltas, concatenated. */
  function ProseOf(chunks: seq<Chunk>): string {
    if chunks == [] then ""
    else ProseOf(Init(chunks)) + if Last(chunks).kind == Delta(Prose) then PickDelta(Last(chunks)) else ""
  }

  function CountOf(p: Chunk -> bool, chunks: seq<Chunk>): nat {
    if chunks == [] then 0 else CountOf(p, Init(chunks)) + if p(Last(chunks)) then 1 else 0
  }

  function LastReason(chunks: seq<Chunk>): Option<string> {
    if chunks == [] then None
    else if Last(chunks).kind.Finish? && Last(chunks).finishReason.Some? then Last(chunks).finishReason
    else LastReason(Init(chunks))
  }

  /** The browser chunk for an input chunk that comes after the given ones; None when it is dropped. */
  function Rendered(turn: nat, before: seq<Chunk>, chunk: Chunk): Option<Wire> {
    match chunk.kind
    case Start => None
    case Unknown(_) => None
    case StartStep => Some(WireStartStep)
    case FinishStep => Some(WireFinishStep(chunk.finishReason))
    case Begin(channel) => Some(WireStart(channel, StartId(turn, before + [chunk], |before|)))
    case Delta(channel) =>
      if PickDelta(chunk) == "" then None
      else Some(WireDelta(channel, OpenId(turn, before, channel), PickDelta(chunk)))
    case End(channel) =>
      Some(WireEnd(channel, Or(OpenId(turn, before, channel), PickPartId(chunk, channel, turn, Steps(before)))))
    case ToolCall =>
      Some(ToolInputAvailable(Or(chunk.toolCallId, ""), Or(chunk.toolName, "tool"), Coalesce(chunk.input, chunk.args)))
    case ToolResult =>
      Some(ToolOutputAvailable(Or(chunk.toolCallId, ""), Coalesce(chunk.output, chunk.result)))
    case ToolError =>
      Some(ToolOutputError(Or(chunk.toolCallId, ""), Or(chunk.error, "")))
    case Finish =>
      Some(WireFinish(LastReason(before + [chunk])))
  }

  function Rewritten(turn: nat, chunks: seq<Chunk>): seq<Wire> {
    if chunks == [] then []
    else
      var wire := Rendered(turn, Init(chunks), Last(chunks));
      Rewritten(turn, Init(chunks)) + if wire.Some? then [wire.value] else []
  }

  lemma ToWireSnoc(emitted: seq<Emission>, e: Emission)
    ensures ToWire(emitted + [e])
         == ToWire(emitted) + if PayloadToChunk(e.payload).Some? then [PayloadToChunk(e.payload).value] else []
  {
    assert (emitted + [e])[..|emitted|] == emitted;
  }

  lemma StartIdPrefix(turn: nat, chunks: seq<Chunk>, i: nat)
    requires chunks != [] && i < |chunks| - 1 && chunks[i].kind.Begin?
    ensures StartId(turn, Init(chunks), i) == StartId(turn, chunks, i)
    ensures StartBase(turn, Init(chunks), i) == StartBase(turn, chunks, i)
  {
    assert Init(chunks)[..i] == chunks[..i];
  }

  lemma StartIdLast(turn: nat, chunks: seq<Chunk>)
    requires chunks != [] && Last(chunks).kind.Begin?
    ensures StartId(turn, chunks, |chunks| - 1)
         == PickPartId(Last(chunks), Last(chunks).kind.channel, turn, Steps(Init(chunks)))
  {
  }

  lemma OpenIdStep(turn: nat, chunks: seq<Chunk>, channel: Channel)
    requires chunks != []
    ensures OpenId(turn, chunks, channel)
         == if Last(chunks).kind == Begin(channel) then
              Some(PickPartId(Last(chunks), channel, turn, Steps(Init(chunks))))
            else if Last(chunks).kind == End(channel) then None
            else OpenId(turn, Init(chunks), channel)
  {
    hide PickPartId, Suffixed, PartBase, Steps;
    var start := OpenStart(chunks, channel);
    if Last(chunks).kind == Begin(channel) {
      StartIdLast(turn, chunks);
    } else if start.Some? && start.value < |chunks| - 1 {
      StartIdPrefix(turn, chunks, start.value);
    }
  }

  lemma NothingOpen(turn: nat)
    ensures forall channel :: OpenId(turn, [], channel) == None
  {
  }

  lemma AdvanceSteps(turn: nat, p: Pump, chunk: Chunk)
    ensures Advance(turn, p, chunk).stepCount == p.stepCount + if chunk.kind.StartStep? then 1 else 0
  {
    hide PickDelta, PickPartId, Coalesce, Or;
  }

  lemma AdvanceText(turn: nat, p: Pump, chunk: Chunk)
    ensures Advance(turn, p, chunk).assembledText
         == p.assembledText + if chunk.kind == Delta(Prose) then PickDelta(chunk) else ""
  {
    hide PickDelta, PickPartId, Coalesce, Or;
  }

  lemma AdvanceReason(turn: nat, p: Pump, chunk: Chunk)
    ensures Advance(turn, p, chunk).finishReason
         == if chunk.kind.Finish? && chunk.finishReason.Some? then chunk.finishReason else p.finishReason
  {
    hide PickDelta, PickPartId, Coalesce, Or;
  }

  lemma {:induction false} PumpCounters(turn: nat, chunks: seq<Chunk>)
    ensures var p := Pumped(turn, chunks);
      && p.stepCount == Steps(chunks)
      && p.assembledText == ProseOf(chunks)
      && p.finishReason == LastReason(chunks)
    decreases |chunks|
  {
    hide Advance, PickDelta;
    if chunks != [] {
      var before := Pumped(turn, Init(chunks));
      PumpCounters(turn, Init(chunks));
      AdvanceSteps(turn, before, Last(chunks));
      AdvanceText(turn, before, Last(chunks));
      AdvanceReason(turn, before, Last(chunks));
    }
  }

  /** What a chunk does to the active part of a channel. */
  lemma AdvanceActive(turn: nat, p: Pump, chunk: Chunk, channel: Channel)
    ensures Advance(turn, p, chunk).Active(channel)
         == if chunk.kind == Begin(channel) then Some(PickPartId(chunk, channel, turn, p.stepCount))
            else if chunk.kind == End(channel) then None
            else p.Active(channel)
  {
    hide PickDelta, PickPartId, Coalesce, Or;
  }

  lemma {:induction false} PumpActive(turn: nat, chunks: seq<Chunk>, channel: Channel)
    ensures Pumped(turn, chunks).Active(channel) == OpenId(turn, chunks, channel)
    decreases |chunks|
  {
    hide Advance, PickPartId, OpenId, Steps;
    if chunks == [] {
      NothingOpen(turn);
    } else {
      PumpActive(turn, Init(chunks), channel);
      PumpCounters(turn, Init(chunks));
      AdvanceActive(turn, Pumped(turn, Init(chunks)), Last(chunks), channel);
      OpenIdStep(turn, chunks, channel);
    }
  }

  /** The pump's variables after a stream, read off the stream itself. */
  lemma PumpState(turn: nat, chunks: seq<Chunk>)
    ensures var p := Pumped(turn, chunks);
      && p.stepCount == Steps(chunks)
      && p.activeText == OpenId(turn, chunks, Prose)
      && p.activeReasoning == OpenId(turn, chunks, Reasoning)
      && p.assembledText == ProseOf(chunks)
      && p.finishReason == LastReason(chunks)
  {
    hide Pumped, OpenId, Steps, ProseOf, LastReason;
    PumpCounters(turn, chunks);
    PumpActive(turn, chunks, Prose);
    PumpActive(turn, chunks, Reasoning);
  }

  lemma LastReasonStep(chunks: seq<Chunk>)
    requires chunks != []
    ensures LastReason(chunks)
         == if Last(chunks).kind.Finish? && Last(chunks).finishReason.Some? then Last(chunks).finishReason
            else LastReason(Init(chunks))
  {
  }

  /** The pump is where the chunks before put it. */
  ghost predicate At(turn: nat, p: Pump, before: seq<Chunk>) {
    && p.stepCount == Steps(before)
    && p.finishReason == LastReason(before)
    && p.activeText == OpenId(turn, before, Prose)
    && p.activeReasoning == OpenId(turn, before, Reasoning)
  }

  function Maybe(wire: Option<Wire>): seq<Wire> {
    if wire.Some? then [wire.value] else []
  }

  lemma PartTranslates(turn: nat, p: Pump, before: seq<Chunk>, chunk: Chunk)
    requires At(turn, p, before)
    requires chunk.kind.Begin? || chunk.kind.Delta? || chunk.kind.End?
    ensures ToWire(Advance(turn, p, chunk).emitted) == ToWire(p.emitted) + Maybe(Rendered(turn, before, chunk))
  {
    hide PickDelta, PickPartId, OpenId, ToWire, Steps, LastReason, StartId;
    if chunk.kind.Begin? {
      StartIdLast(turn, before + [chunk]);
      assert Init(before + [chunk]) == before;
    }
    var q := Advance(turn, p, chunk);
    if q.emitted != p.emitted {
      ToWireSnoc(p.emitted, q.emitted[|p.emitted|]);
    }
  }

  lemma FinishTranslates(turn: nat, p: Pump, before: seq<Chunk>, chunk: Chunk)
    requires At(turn, p, before) && chunk.kind.Finish?
    ensures ToWire(Advance(turn, p, chunk).emitted) == ToWire(p.emitted) + Maybe(Rendered(turn, before, chunk))
  {
    hide OpenId, ToWire, Steps, LastReason;
    assert Init(before + [chunk]) == before;
    LastReasonStep(before + [chunk]);
    var q := Advance(turn, p, chunk);
    ToWireSnoc(p.emitted, q.emitted[|p.emitted|]);
    if p.assembledText != "" {
      ToWireSnoc(p.emitted + [q.emitted[|p.emitted|]], q.emitted[|p.emitted| + 1]);
    }
  }

  lemma PlainTranslates(turn: nat, p: Pump, before: seq<Chunk>, chunk: Chunk)
    requires At(turn, p, before)
    requires !chunk.kind.Begin? && !chunk.kind.Delta? && !chunk.kind.End? && !chunk.kind.Finish?
    ensures ToWire(Advance(turn, p, chunk).emitted) == ToWire(p.emitted) + Maybe(Rendered(turn, before, chunk))
  {
    hide At, Coalesce, Or, OpenId, ToWire, Steps, LastReason;
    match chunk.kind
    case Start =>
    case Unknown(_) =>
    case StartStep =>
      ToWireSnoc(p.emitted, Emission(StepStarted(turn, p.stepCount + 1), false));
    case FinishStep =>
      ToWireSnoc(p.emitted, Emission(StepCompleted(turn, p.stepCount, chunk.finishReason), true));
    case ToolCall =>
      ToWireSnoc(p.emitted, Emission(ToolCalled(turn, Or(chunk.toolCallId, ""), Or(chunk.toolName, "tool"),
                                                Coalesce(chunk.input, chunk.args)), false));
    case ToolResult =>
      ToWireSnoc(p.emitted, Emission(ToolReturned(turn, Or(chunk.toolCallId, ""), Or(chunk.toolName, "tool"),
                                                  Coalesce(chunk.output, chunk.result)), false));
    case ToolError =>
      ToWireSnoc(p.emitted, Emission(ToolFailed(turn, Or(chunk.toolCallId, ""), Or(chunk.toolName, "tool"),
                                                Or(chunk.error, "")), false));
  }

  /** One chunk adds to the wire what its place in the stream says. */
  lemma StepTranslates(turn: nat, p: Pump, before: seq<Chunk>, chunk: Chunk)
    requires At(turn, p, before)
    ensures ToWire(Advance(turn, p, chunk).emitted) == ToWire(p.emitted) + Maybe(Rendered(turn, before, chunk))
  {
    var kind := chunk.kind;
    if kind.Begin? || kind.Delta? || kind.End? {
      PartTranslates(turn, p, before, chunk);
    } else if kind.Finish? {
      FinishTranslates(turn, p, before, chunk);
    } else {
      PlainTranslates(turn, p, before, chunk);
    }
  }

  /** For every stream: the browser receives the input chunk by chunk, rewritten by its place in the stream. */
  lemma {:induction false} TranslationPreserves(turn: nat, chunks: seq<Chunk>)
    ensures ToWire(Pumped(turn, chunks).emitted) == Rewritten(turn, chunks)
    decreases |chunks|
  {
    assert ToWire([]) == [];
    hide Advance, Rendered, OpenId, ToWire, Steps, LastReason;
    if chunks != [] {
      TranslationPreserves(turn, Init(chunks));
      PumpState(turn, Init(chunks));
      StepTranslates(turn, Pumped(turn, Init(chunks)), Init(chunks), Last(chunks));
    }
  }

  // ----- Text -----

  function DeltasSent(wires: seq<Wire>): string {
    if wires == [] then ""
    else
      var text := if Last(wires).WireDelta? && Last(wires).channel.Prose? then Last(wires).delta else "";
      DeltasSent(Init(wires)) + text
  }

  lemma DeltasSnoc(wires: seq<Wire>, w: Wire)
    ensures DeltasSent(wires + [w]) == DeltasSent(wires) + if w.WireDelta? && w.channel.Prose? then w.delta else ""
  {
    assert Init(wires + [w]) == wires;
  }

  lemma DeltasOfNothing()
    ensures DeltasSent([]) == ""
  {
  }

  /** The text deltas that reach the browser concatenate to the text the pump assembled. */
  lemma {:induction false} DeltasConcatenate(turn: nat, chunks: seq<Chunk>)
    ensures DeltasSent(Rewritten(turn, chunks)) == Pumped(turn, chunks).assembledText == ProseOf(chunks)
    decreases |chunks|
  {
    hide PickDelta, PickPartId, Coalesce, OpenId, DeltasSent, StartId, Pumped, LastReason;
    PumpState(turn, chunks);
    if chunks == [] {
      assert DeltasSent([]) == "" by { DeltasOfNothing(); }
    } else {
      var before := Rewritten(turn, Init(chunks));
      DeltasConcatenate(turn, Init(chunks));
      var wire := Rendered(turn, Init(chunks), Last(chunks));
      if wire.Some? {
        DeltasSnoc(before, wire.value);
      } else {
        assert Rewritten(turn, chunks) == before;
      }
    }
  }

  // ----- Counters and events -----

  predicate IsTextDelta(chunk: Chunk) {
    chunk.kind == Delta(Prose) && PickDelta(chunk) != ""
  }

  /** The counters the pump reports are the numbers of non-empty text deltas and of tool calls. */
  lemma {:induction false} PumpCounts(turn: nat, chunks: seq<Chunk>)
    ensures Pumped(turn, chunks).textDeltaCount == CountOf(IsTextDelta, chunks)
    ensures Pumped(turn, chunks).toolCallCount == CountOf((chunk: Chunk) => chunk.kind.ToolCall?, chunks)
    decreases |chunks|
  {
    hide PickDelta, PickPartId, Coalesce, Or;
    if chunks != [] {
      PumpCounts(turn, Init(chunks));
    }
  }

  predicate IsBoundary(payload: Payload) {
    payload.StepCompleted? || payload.AssistantMessage? || payload.TurnCompleted?
  }

  /** Exactly the boundary events touch the activity clock. */
  ghost predicate Timely(emitted: seq<Emission>) {
    forall k :: 0 <= k < |emitted| ==> (emitted[k].touchActivity <==> IsBoundary(emitted[k].payload))
  }

  /** The contents of the assistant messages emitted, in order. */
  function Messages(emitted: seq<Emission>): seq<string> {
    if emitted == [] then []
    else
      var payload := Last(emitted).payload;
      Messages(Init(emitted)) + if payload.AssistantMessage? then [payload.content] else []
  }

  lemma MessagesSnoc(emitted: seq<Emission>, e: Emission)
    ensures Messages(emitted + [e])
         == Messages(emitted) + if e.payload.AssistantMessage? then [e.payload.content] else []
  {
    assert Init(emitted + [e]) == emitted;
  }

  /** What one chunk adds to the events, when the text so far is `text`. */
  lemma AdvanceEmits(turn: nat, p: Pump, chunk: Chunk)
    requires Timely(p.emitted)
    ensures var q := Advance(turn, p, chunk);
      && Timely(q.emitted)
      && Messages(q.emitted)
         == Messages(p.emitted) + if chunk.kind.Finish? && p.assembledText != "" then [p.assembledText] else []
  {
    hide PickDelta, PickPartId, Coalesce, Or, Messages;
    var q := Advance(turn, p, chunk);
    if chunk.kind.Finish? {
      var r := if p.assembledText == "" then p else p.Emit(AssistantMessage(turn, p.assembledText), true);
      MessagesSnoc(p.emitted, Emission(AssistantMessage(turn, p.assembledText), true));
      MessagesSnoc(r.emitted, q.emitted[|r.emitted|]);
    } else if q.emitted != p.emitted {
      MessagesSnoc(p.emitted, q.emitted[|p.emitted|]);
    }
  }

  /** The finish chunks that come after some text, in order. */
  function FinishPlaces(chunks: seq<Chunk>): (places: seq<nat>)
    ensures forall k :: 0 <= k < |places| ==> places[k] < |chunks|
  {
    if chunks == [] then []
    else
      FinishPlaces(Init(chunks))
      + if Last(chunks).kind.Finish? && ProseOf(Init(chunks)) != "" then [|chunks| - 1] else []
  }

  /** The places are ascending, and exactly those of the finish chunks that come after some text. */
  lemma {:induction false} FinishPlacesAre(chunks: seq<Chunk>)
    ensures var places := FinishPlaces(chunks);
      && (forall j, k :: 0 <= j < k < |places| ==> places[j] < places[k])
      && forall i :: i in places <==> 0 <= i < |chunks| && chunks[i].kind.Finish? && ProseOf(chunks[..i]) != ""
    decreases |chunks|
  {
    hide ProseOf;
    if chunks != [] {
      var before, places := FinishPlaces(Init(chunks)), FinishPlaces(chunks);
      FinishPlacesAre(Init(chunks));
      forall i ensures i in places <==> 0 <= i < |chunks| && chunks[i].kind.Finish? && ProseOf(chunks[..i]) != "" {
        if 0 <= i < |chunks| - 1 {
          assert Init(chunks)[..i] == chunks[..i] && Init(chunks)[i] == chunks[i];
        } else if i == |chunks| - 1 {
          assert chunks[..i] == Init(chunks);
        }
      }
    }
  }

  /** The text of the stream before each of some places. */
  function TextsAt(chunks: seq<Chunk>, places: seq<nat>): (texts: seq<string>)
    requires forall k :: 0 <= k < |places| ==> places[k] < |chunks|
    ensures |texts| == |places| && forall k :: 0 <= k < |places| ==> texts[k] == ProseOf(chunks[..places[k]])
  {
    seq(|places|, k requires 0 <= k < |places| => ProseOf(chunks[..places[k]]))
  }

  lemma TextsAtInit(chunks: seq<Chunk>, places: seq<nat>)
    requires chunks != [] && forall k :: 0 <= k < |places| ==> places[k] < |chunks| - 1
    ensures TextsAt(chunks, places) == TextsAt(Init(chunks), places)
    ensures TextsAt(chunks, places + [|chunks| - 1]) == TextsAt(chunks, places) + [ProseOf(Init(chunks))]
  {
    hide ProseOf;
    assert chunks[..|chunks| - 1] == Init(chunks);
    assert forall k :: 0 <= k < |places| ==> Init(chunks)[..places[k]] == chunks[..places[k]];
  }

  /**
   * Exactly the boundary events touch the activity clock; and the assistant messages are, in order, the whole
   * text so far at each finish chunk that comes after some text, and no others.
   */
  lemma {:induction false} EventsAsPromised(turn: nat, chunks: seq<Chunk>)
    ensures Timely(Pumped(turn, chunks).emitted)
    ensures Messages(Pumped(turn, chunks).emitted) == TextsAt(chunks, FinishPlaces(chunks))
    decreases |chunks|
  {
    assert Timely([]) && Messages([]) == [];
    hide Advance, Timely, Messages, ProseOf, TextsAt;
    if chunks == [] {
      assert FinishPlaces(chunks) == [];
    } else {
      var before := Init(chunks);
      assert Pumped(turn, chunks) == Advance(turn, Pumped(turn, before), Last(chunks));
      hide Pumped;
      EventsAsPromised(turn, before);
      PumpCounters(turn, before);
      AdvanceEmits(turn, Pumped(turn, before), Last(chunks));
      TextsAtInit(chunks, FinishPlaces(before));
    }
  }

  // ----- The pump's own comment on assistant messages -----

  /** Handling chunk i emits an assistant message. */
  ghost predicate EmitsMessageAt(turn: nat, chunks: seq<Chunk>, i: nat)
    requires i < |chunks|
  {
    Messages(Pumped(turn, chunks[..i + 1]).emitted) != Messages(Pumped(turn, chunks[..i]).emitted)
  }

  /** Since the last step began, the text part that was open has ended. */
  ghost predicate ClosedInStep(before: seq<Chunk>) {
    exists j :: 0 <= j < |before| && before[j].kind == End(Prose) && OpenStart(before[..j], Prose).Some?
                && forall k :: j < k < |before| ==> !before[k].kind.StartStep?
  }

  /** Where the comment announces one: when a step in which a text part closed ends, and at a finish after text. */
  ghost predicate AnnouncedAt(chunks: seq<Chunk>, i: nat)
    requires i < |chunks|
  {
    || (chunks[i].kind.FinishStep? && ClosedInStep(chunks[..i]))
    || (chunks[i].kind.Finish? && ProseOf(chunks[..i]) != "")
  }

  lemma EmitsMessageIff(turn: nat, chunks: seq<Chunk>, i: nat)
    requires i < |chunks|
    ensures EmitsMessageAt(turn, chunks, i) <==> chunks[i].kind.Finish? && ProseOf(chunks[..i]) != ""
  {
    hide Advance, Timely, Messages, ProseOf, FinishPlaces;
    EventsAsPromised(turn, chunks[..i]);
    PumpCounters(turn, chunks[..i]);
    PumpedStep(turn, chunks, i);
    AdvanceEmits(turn, Pumped(turn, chunks[..i]), chunks[i]);
  }

  /** The comment is true of a stream exactly when no step ends after a text part closed in it. */
  lemma CommentMetIff(turn: nat, chunks: seq<Chunk>)
    ensures (forall i :: 0 <= i < |chunks| ==> (EmitsMessageAt(turn, chunks, i) <==> AnnouncedAt(chunks, i)))
       <==> (forall i :: 0 <= i < |chunks| ==> !(chunks[i].kind.FinishStep? && ClosedInStep(chunks[..i])))
  {
    hide EmitsMessageAt, ClosedInStep, ProseOf;
    forall i | 0 <= i < |chunks|
      ensures EmitsMessageAt(turn, chunks, i) <==> chunks[i].kind.Finish? && ProseOf(chunks[..i]) != ""
    {
      EmitsMessageIff(turn, chunks, i);
    }
    if i :| 0 <= i < |chunks| && chunks[i].kind.FinishStep? && ClosedInStep(chunks[..i]) {
      assert AnnouncedAt(chunks, i) && !EmitsMessageAt(turn, chunks, i);
    }
  }

  lemma {:induction false} NoFinishNoPlaces(chunks: seq<Chunk>)
    requires forall i :: 0 <= i < |chunks| ==> !chunks[i].kind.Finish?
    ensures FinishPlaces(chunks) == []
    decreases |chunks|
  {
    hide ProseOf;
    if chunks != [] {
      NoFinishNoPlaces(Init(chunks));
    }
  }

  /** One step with one text part that starts, gets some text and ends, whatever else the chunks carry. */
  predicate TextStep(chunks: seq<Chunk>) {
    && |chunks| == 5
    && chunks[0].kind.StartStep? && chunks[1].kind == Begin(Prose) && chunks[2].kind == Delta(Prose)
    && PickDelta(chunks[2]) != "" && chunks[3].kind == End(Prose) && chunks[4].kind.FinishStep?
  }

  /** At the end of such a step a message is announced, and the stream has none. */
  lemma StepEndsSilently(turn: nat, chunks: seq<Chunk>)
    requires TextStep(chunks)
    ensures AnnouncedAt(chunks, 4) && Messages(Pumped(turn, chunks).emitted) == []
  {
    hide Advance, Messages, ProseOf, PickDelta;
    EventsAsPromised(turn, chunks);
    NoFinishNoPlaces(chunks);
    hide FinishPlaces;
    OpenStartIs(chunks[..3], Prose, 1);
    assert chunks[..4][..3] == chunks[..3];
    assert chunks[..4][3].kind == End(Prose);
  }

  // ----- Ids -----

  /** The step suffix can be read back: a suffixed id determines its base and its step. */
  lemma SuffixInjective(base: string, step: nat, otherBase: string, otherStep: nat)
    requires Suffixed(base, step) == Suffixed(otherBase, otherStep)
    ensures base == otherBase && step == otherStep
  {
    var d, e := Decimal(step), Decimal(otherStep);
    var s, t := base + "-s" + d, otherBase + "-s" + e;
    assert s[|base| + 1] == 's' && t[|otherBase| + 1] == 's';
    assert forall k :: |base| + 2 <= k < |s| ==> s[k] == d[k - |base| - 2] && IsDigit(s[k]);
    assert forall k :: |otherBase| + 2 <= k < |t| ==> t[k] == e[k - |otherBase| - 2] && IsDigit(t[k]);
    assert !IsDigit('s');
    assert |base| == |otherBase|;
    assert s[..|base|] == base && t[..|base|] == otherBase;
    assert s[|base| + 2..] == d && t[|base| + 2..] == e;
    DecimalInjective(step, otherStep);
  }

  predicate SameKindOfStart(chunks: seq<Chunk>, i: nat, j: nat)
    requires i < |chunks| && j < |chunks|
  {
    chunks[i].kind.Begin? && chunks[j].kind == chunks[i].kind
  }

  /** Within a step, no base is used by two starts on one channel. */
  ghost predicate BasesDistinct(turn: nat, chunks: seq<Chunk>) {
    forall i, j :: 0 <= i < j < |chunks| && SameKindOfStart(chunks, i, j) && Steps(chunks[..i]) == Steps(chunks[..j])
      ==> StartBase(turn, chunks, i) != StartBase(turn, chunks, j)
  }

  ghost predicate IdsDistinct(turn: nat, chunks: seq<Chunk>) {
    forall i, j :: 0 <= i < j < |chunks| && SameKindOfStart(chunks, i, j)
      ==> StartId(turn, chunks, i) != StartId(turn, chunks, j)
  }

  /** Start ids are unique over the whole turn exactly when bases are unique within each step. */
  lemma IdsDistinctIff(turn: nat, chunks: seq<Chunk>)
    ensures IdsDistinct(turn, chunks) <==> BasesDistinct(turn, chunks)
  {
    hide StartBase, Suffixed, Steps;
    forall i, j | 0 <= i < j < |chunks| && SameKindOfStart(chunks, i, j)
      ensures StartId(turn, chunks, i) == StartId(turn, chunks, j) <==>
              Steps(chunks[..i]) == Steps(chunks[..j]) && StartBase(turn, chunks, i) == StartBase(turn, chunks, j)
    {
      if StartId(turn, chunks, i) == StartId(turn, chunks, j) {
        SuffixInjective(StartBase(turn, chunks, i), Steps(chunks[..i]), StartBase(turn, chunks, j), Steps(chunks[..j]));
      }
    }
  }

  // ----- Brackets -----

  /** Each channel alternates: a start only when no part is open, text and ends only inside a part. */
  predicate WellBracketed(chunks: seq<Chunk>) {
    chunks == [] ||
    (&& WellBracketed(Init(chunks))
     && match Last(chunks).kind
        case Begin(channel) => OpenStart(Init(chunks), channel).None?
        case End(channel) => OpenStart(Init(chunks), channel).Some?
        case Delta(channel) => PickDelta(Last(chunks)) != "" ==> OpenStart(Init(chunks), channel).Some?
        case _ => true)
  }

  /** What the browser has seen: ids of open parts and of all parts ever started. */
  datatype Client = Client(open: set<(Channel, string)>, started: set<(Channel, string)>)

  /**
   * The browser's rules: a start must bring a new id, a delta or an end must name an open part.
   * None when a chunk breaks them.
   */
  function Receive(client: Client, wire: Wire): Option<Client> {
    match wire
    case WireStart(channel, partId) =>
      if (channel, partId) in client.started then None
      else Some(Client(client.open + {(channel, partId)}, client.started + {(channel, partId)}))
    case WireDelta(channel, openId, _) =>
      if openId.Some? && (channel, openId.value) in client.open then Some(client) else None
    case WireEnd(channel, partId) =>
      if (channel, partId) in client.open then Some(client.(open := client.open - {(channel, partId)})) else None
    case _ => Some(client)
  }

  function ReceiveAll(wires: seq<Wire>): Option<Client> {
    if wires == [] then Some(Client({}, {}))
    else
      var client := ReceiveAll(Init(wires));
      if client.None? then None else Receive(client.value, Last(wires))
  }

  lemma ReceiveSnoc(wires: seq<Wire>, w: Wire)
    ensures ReceiveAll(wires + [w])
         == if ReceiveAll(wires).None? then None else Receive(ReceiveAll(wires).value, w)
  {
    assert Init(wires + [w]) == wires;
  }

  function OpenPart(turn: nat, chunks: seq<Chunk>, channel: Channel): set<(Channel, string)> {
    var id := OpenId(turn, chunks, channel);
    if id.Some? then {(channel, id.value)} else {}
  }

  function StartedParts(turn: nat, chunks: seq<Chunk>): set<(Channel, string)> {
    set i | 0 <= i < |chunks| && chunks[i].kind.Begin? :: (chunks[i].kind.channel, StartId(turn, chunks, i))
  }

  function Seen(turn: nat, chunks: seq<Chunk>): Client {
    Client(OpenPart(turn, chunks, Prose) + OpenPart(turn, chunks, Reasoning), StartedParts(turn, chunks))
  }

  lemma StartedSnoc(turn: nat, chunks: seq<Chunk>)
    requires chunks != []
    ensures StartedParts(turn, chunks)
         == StartedParts(turn, Init(chunks))
          + if Last(chunks).kind.Begin? then {(Last(chunks).kind.channel, StartId(turn, chunks, |chunks| - 1))} else {}
  {
    hide StartId;
    forall i | 0 <= i < |chunks| - 1 && chunks[i].kind.Begin?
      ensures StartId(turn, Init(chunks), i) == StartId(turn, chunks, i)
    {
      StartIdPrefix(turn, chunks, i);
    }
    var shorter, longer := StartedParts(turn, Init(chunks)), StartedParts(turn, chunks);
    forall part | part in shorter ensures part in longer {
      var i :| && 0 <= i < |chunks| - 1 && chunks[i].kind.Begin?
               && part == (chunks[i].kind.channel, StartId(turn, Init(chunks), i));
      assert part == (chunks[i].kind.channel, StartId(turn, chunks, i));
    }
    if Last(chunks).kind.Begin? {
      assert (chunks[|chunks| - 1].kind.channel, StartId(turn, chunks, |chunks| - 1)) in longer;
    }
  }

  /** Ids stay distinct with one more chunk exactly when its id, if it starts a part, is not among the started. */
  lemma DistinctSnoc(turn: nat, chunks: seq<Chunk>)
    requires chunks != []
    ensures IdsDistinct(turn, chunks) <==>
            && IdsDistinct(turn, Init(chunks))
            && (Last(chunks).kind.Begin? ==>
                  (Last(chunks).kind.channel, StartId(turn, chunks, |chunks| - 1)) !in StartedParts(turn, Init(chunks)))
  {
    hide StartId;
    var n := |chunks| - 1;
    forall i | 0 <= i < n && chunks[i].kind.Begin?
      ensures StartId(turn, Init(chunks), i) == StartId(turn, chunks, i)
    {
      StartIdPrefix(turn, chunks, i);
    }
    if Last(chunks).kind.Begin? {
      var part := (Last(chunks).kind.channel, StartId(turn, chunks, n));
      if part in StartedParts(turn, Init(chunks)) {
        var i :| && 0 <= i < n && chunks[i].kind.Begin?
                 && part == (chunks[i].kind.channel, StartId(turn, Init(chunks), i));
        assert chunks[n].kind == chunks[i].kind;
      } else if IdsDistinct(turn, Init(chunks)) {
        forall i | 0 <= i < n && chunks[i].kind == chunks[n].kind
          ensures StartId(turn, chunks, i) != StartId(turn, chunks, n)
        {
          assert Init(chunks)[i] == chunks[i];
          assert (chunks[i].kind.channel, StartId(turn, Init(chunks), i)) in StartedParts(turn, Init(chunks));
        }
      }
    }
  }

  /** In a well-bracketed stream every end carries the id of its start, however many steps began in between. */
  lemma {:induction false} EndCarriesStartId(turn: nat, chunks: seq<Chunk>)
    requires chunks != [] && WellBracketed(chunks) && Last(chunks).kind.End?
    ensures var channel := Last(chunks).kind.channel;
      exists j :: 0 <= j < |chunks| - 1 && chunks[j].kind == Begin(channel)
        && (forall k :: j < k < |chunks| - 1 ==> chunks[k].kind != Begin(channel) && chunks[k].kind != End(channel))
        && Rendered(turn, chunks[..j], chunks[j]) == Some(WireStart(channel, StartId(turn, chunks, j)))
        && Rendered(turn, Init(chunks), Last(chunks)) == Some(WireEnd(channel, StartId(turn, chunks, j)))
  {
    hide StartId, Steps, PickPartId, OpenStart, PickDelta, LastReason, Coalesce, Rendered, WellBracketed;
    var channel := Last(chunks).kind.channel;
    Brackets(chunks, channel);
    var j := OpenStart(Init(chunks), channel).value;
    OpenStartIs(Init(chunks), channel, j);
    assert Init(chunks)[j] == chunks[j];
    StartRendered(turn, chunks, j);
    EndRendered(turn, chunks, j);
    forall k | j < k < |chunks| - 1 ensures chunks[k].kind != Begin(channel) && chunks[k].kind != End(channel) {
      assert Init(chunks)[k] == chunks[k];
    }
  }

  lemma StartRendered(turn: nat, chunks: seq<Chunk>, j: nat)
    requires j < |chunks| && chunks[j].kind.Begin?
    ensures Rendered(turn, chunks[..j], chunks[j]) == Some(WireStart(chunks[j].kind.channel, StartId(turn, chunks, j)))
  {
    hide StartId;
    StartIdWithin(turn, chunks, j);
  }

  lemma EndRendered(turn: nat, chunks: seq<Chunk>, j: nat)
    requires chunks != [] && Last(chunks).kind.End? && j < |chunks| - 1
    requires OpenStart(Init(chunks), Last(chunks).kind.channel) == Some(j)
    ensures chunks[j].kind.Begin?
    ensures Rendered(turn, Init(chunks), Last(chunks))
         == Some(WireEnd(Last(chunks).kind.channel, StartId(turn, chunks, j)))
  {
    hide StartId, PickPartId, OpenStart;
    assert Init(chunks)[j] == chunks[j];
    StartIdPrefix(turn, chunks, j);
  }

  lemma StartIdWithin(turn: nat, chunks: seq<Chunk>, j: nat)
    requires j < |chunks| && chunks[j].kind.Begin?
    ensures StartId(turn, chunks[..j] + [chunks[j]], j) == StartId(turn, chunks, j)
  {
    assert (chunks[..j] + [chunks[j]])[..j] == chunks[..j];
  }

  lemma OpenPartStep(turn: nat, chunks: seq<Chunk>, channel: Channel)
    requires chunks != []
    ensures OpenPart(turn, chunks, channel)
         == if Last(chunks).kind == Begin(channel) then {(channel, StartId(turn, chunks, |chunks| - 1))}
            else if Last(chunks).kind == End(channel) then {}
            else OpenPart(turn, Init(chunks), channel)
  {
    hide OpenId, StartId, PickPartId;
    OpenIdStep(turn, chunks, channel);
    if Last(chunks).kind == Begin(channel) {
      StartIdLast(turn, chunks);
    }
  }

  function Other(channel: Channel): Channel {
    if channel.Prose? then Reasoning else Prose
  }

  lemma SeenSplit(turn: nat, chunks: seq<Chunk>, channel: Channel)
    ensures Seen(turn, chunks).open == OpenPart(turn, chunks, channel) + OpenPart(turn, chunks, Other(channel))
  {
  }

  lemma OpenPartHas(turn: nat, chunks: seq<Chunk>, channel: Channel)
    ensures OpenId(turn, chunks, channel).Some? <==> OpenStart(chunks, channel).Some?
    ensures forall part <- OpenPart(turn, chunks, channel) :: part.0 == channel
  {
  }

  lemma ReceivePart(turn: nat, chunks: seq<Chunk>, channel: Channel)
    requires chunks != [] && WellBracketed(chunks)
    requires IdsDistinct(turn, Init(chunks))
    requires Last(chunks).kind in {Begin(channel), Delta(channel), End(channel)}
    ensures var wire := Rendered(turn, Init(chunks), Last(chunks));
      var client := Seen(turn, Init(chunks));
      (if wire.Some? then Receive(client, wire.value) else Some(client))
      == if IdsDistinct(turn, chunks) then Some(Seen(turn, chunks)) else None
  {
    hide StartId, PickPartId, PickDelta, Steps, StartedParts, IdsDistinct, OpenId, OpenStart, WellBracketed;
    var before, chunk := Init(chunks), Last(chunks);
    assert before + [chunk] == chunks;
    var client := Seen(turn, before);
    DistinctSnoc(turn, chunks);
    StartedSnoc(turn, chunks);
    OpenPartStep(turn, chunks, channel);
    OpenPartStep(turn, chunks, Other(channel));
    SeenSplit(turn, before, channel);
    SeenSplit(turn, chunks, channel);
    OpenPartHas(turn, before, channel);
    OpenPartHas(turn, before, Other(channel));
    Brackets(chunks, channel);
    if chunk.kind.Begin? {
      assert OpenPart(turn, before, channel) == {};
      assert Seen(turn, chunks).open == client.open + OpenPart(turn, chunks, channel);
    } else if chunk.kind.End? {
      var id := OpenId(turn, before, channel).value;
      assert OpenPart(turn, before, channel) == {(channel, id)};
      assert Seen(turn, chunks).open == client.open - {(channel, id)};
      assert StartedParts(turn, chunks) == StartedParts(turn, before);
    } else {
      assert StartedParts(turn, chunks) == StartedParts(turn, before);
    }
  }

  lemma Brackets(chunks: seq<Chunk>, channel: Channel)
    requires chunks != [] && WellBracketed(chunks)
    ensures Last(chunks).kind == Begin(channel) ==> OpenStart(Init(chunks), channel).None?
    ensures Last(chunks).kind == End(channel) ==> OpenStart(Init(chunks), channel).Some?
    ensures Last(chunks).kind == Delta(channel) && PickDelta(Last(chunks)) != "" ==>
              OpenStart(Init(chunks), channel).Some?
  {
  }

  lemma ReceiveStep(turn: nat, chunks: seq<Chunk>)
    requires chunks != [] && WellBracketed(chunks)
    requires IdsDistinct(turn, Init(chunks))
    ensures var wire := Rendered(turn, Init(chunks), Last(chunks));
      var client := Seen(turn, Init(chunks));
      (if wire.Some? then Receive(client, wire.value) else Some(client))
      == if IdsDistinct(turn, chunks) then Some(Seen(turn, chunks)) else None
  {
    var kind := Last(chunks).kind;
    if kind.Begin? || kind.Delta? || kind.End? {
      ReceivePart(turn, chunks, kind.channel);
    } else {
      hide StartId, PickPartId, PickDelta, Steps, StartedParts, IdsDistinct, OpenId, OpenStart, WellBracketed;
      hide LastReason;
      DistinctSnoc(turn, chunks);
      StartedSnoc(turn, chunks);
      OpenPartStep(turn, chunks, Prose);
      OpenPartStep(turn, chunks, Reasoning);
      assert StartedParts(turn, chunks) == StartedParts(turn, Init(chunks));
    }
  }

  /**
   * A browser that refuses repeated start ids and unmatched deltas and ends accepts the translation of a
   * well-bracketed stream exactly when no base is started twice within a step.
   */
  lemma {:induction false} BrowserAcceptsIff(turn: nat, chunks: seq<Chunk>)
    requires WellBracketed(chunks)
    ensures ReceiveAll(Rewritten(turn, chunks))
         == if BasesDistinct(turn, chunks) then Some(Seen(turn, chunks)) else None
    decreases |chunks|
  {
    hide ReceiveAll, Receive, Seen, Rendered, BasesDistinct, IdsDistinct;
    IdsDistinctIff(turn, chunks);
    if chunks == [] {
      NothingReceived(turn);
    } else {
      var before := Rewritten(turn, Init(chunks));
      BrowserAcceptsIff(turn, Init(chunks));
      IdsDistinctIff(turn, Init(chunks));
      DistinctSnoc(turn, chunks);
      var wire := Rendered(turn, Init(chunks), Last(chunks));
      if wire.Some? {
        ReceiveSnoc(before, wire.value);
      } else {
        assert Rewritten(turn, chunks) == before;
      }
      if IdsDistinct(turn, Init(chunks)) {
        ReceiveStep(turn, chunks);
      } else {
        DistinctStaysLost(turn, chunks);
      }
    }
  }

  lemma NothingReceived(turn: nat)
    ensures ReceiveAll([]) == Some(Seen(turn, [])) && IdsDistinct(turn, [])
  {
    assert StartedParts(turn, []) == {};
    assert OpenPart(turn, [], Prose) + OpenPart(turn, [], Reasoning) == {};
  }

  /** Once an id is repeated it stays repeated, and a refused stream stays refused. */
  lemma DistinctStaysLost(turn: nat, chunks: seq<Chunk>)
    requires chunks != [] && !IdsDistinct(turn, Init(chunks))
    ensures !IdsDistinct(turn, chunks)
  {
    hide IdsDistinct;
    DistinctSnoc(turn, chunks);
  }

  /** A delta goes out under an id of the given base exactly when the open part was started with that base. */
  lemma DeltaUnderOwnIdIff(turn: nat, before: seq<Chunk>, chunk: Chunk, base: string)
    requires chunk.kind.Delta? && PickDelta(chunk) != "" && OpenStart(before, chunk.kind.channel).Some?
    ensures (exists step: nat {:trigger Suffixed(base, step)} ::
               Rendered(turn, before, chunk)
               == Some(WireDelta(chunk.kind.channel, Some(Suffixed(base, step)), PickDelta(chunk))))
       <==> StartBase(turn, before, OpenStart(before, chunk.kind.channel).value) == base
  {
    hide Suffixed, StartBase, PickDelta, OpenStart;
    var j := OpenStart(before, chunk.kind.channel).value;
    var own, at := StartBase(turn, before, j), Steps(before[..j]);
    assert Rendered(turn, before, chunk)
        == Some(WireDelta(chunk.kind.channel, Some(Suffixed(own, at)), PickDelta(chunk)));
    forall step: nat | Suffixed(base, step) == Suffixed(own, at) ensures base == own {
      SuffixInjective(base, step, own, at);
    }
  }

  /** Parts that overlap on a channel are not kept apart: a delta of the first goes out under the second's id. */
  lemma OverlapMisattributes(turn: nat, a: string, b: string, text: string)
    requires a != b && text != ""
    ensures
      var none :=
        Chunk(Start, None, None, None, None, None, None, None, None, None, None, None, None, None, None, None);
      var first := none.(kind := Begin(Prose), id := Some(a));
      var second := none.(kind := Begin(Prose), id := Some(b));
      var late := none.(kind := Delta(Prose), id := Some(a), delta := Some(text));
      Rewritten(turn, [first, second, late])
      == [WireStart(Prose, Suffixed(a, 0)), WireStart(Prose, Suffixed(b, 0)),
          WireDelta(Prose, Some(Suffixed(b, 0)), text)]
  {
    hide Suffixed;
    var none := Chunk(Start, None, None, None, None, None, None, None, None, None, None, None, None, None, None, None);
    var first := none.(kind := Begin(Prose), id := Some(a));
    var second := none.(kind := Begin(Prose), id := Some(b));
    var late := none.(kind := Delta(Prose), id := Some(a), delta := Some(text));
    assert Init([first]) == [] && Init([first, second]) == [first] && Init([first, second, late]) == [first, second];
    assert [first, second][..1] == [first] && [first][..0] == [];
    assert [first] + [second] == [first, second];
    assert Rewritten(turn, [first]) == [WireStart(Prose, Suffixed(a, 0))] by { assert [] + [first] == [first]; }
    assert Rewritten(turn, [first, second]) == [WireStart(Prose, Suffixed(a, 0)), WireStart(Prose, Suffixed(b, 0))];
    assert OpenId(turn, [first, second], Prose) == Some(Suffixed(b, 0));
  }
}
