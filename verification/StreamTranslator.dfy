/** Translating a model's chunk stream into agent events, and agent events into browser chunks. */
module StreamTranslator {
  import Json
  import opened Text
  import opened Wrappers

  datatype Channel = Prose | Reasoning

  datatype Kind =
    | Start
    | StartStep
    | Begin(channel: Channel)
    | Delta(channel: Channel)
    | End(channel: Channel)
    | ToolCall
    | ToolResult
    | ToolError
    | FinishStep
    | Finish
    | Unknown(name: string)

  /** A chunk of the SDK's stream; None is an absent field, and `error` is the text of the error. */
  datatype Chunk = Chunk(
    kind: Kind,
    id: Option<string>, textId: Option<string>, reasoningId: Option<string>,
    delta: Option<string>, text: Option<string>, textDelta: Option<string>, reasoning: Option<string>,
    toolCallId: Option<string>, toolName: Option<string>,
    input: Option<Json.Value>, args: Option<Json.Value>,
    output: Option<Json.Value>, result: Option<Json.Value>,
    error: Option<string>, finishReason: Option<string>)

  datatype Payload =
    | StepStarted(turn: nat, step: nat)
    | StepCompleted(turn: nat, step: nat, reason: Option<string>)
    | PartStarted(turn: nat, channel: Channel, partId: string)
    | PartDelta(turn: nat, channel: Channel, openId: Option<string>, delta: string)
    | PartEnded(turn: nat, channel: Channel, partId: string)
    | ToolCalled(turn: nat, toolCallId: string, toolName: string, input: Option<Json.Value>)
    | ToolReturned(turn: nat, toolCallId: string, toolName: string, output: Option<Json.Value>)
    | ToolFailed(turn: nat, toolCallId: string, toolName: string, error: string)
    | AssistantMessage(turn: nat, content: string)
    | TurnCompleted(turn: nat, reason: Option<string>)

  datatype Emission = Emission(payload: Payload, touchActivity: bool)

  /** What the browser receives. */
  datatype Wire =
    | WireStartStep
    | WireFinishStep(reason: Option<string>)
    | WireStart(channel: Channel, partId: string)
    | WireDelta(channel: Channel, openId: Option<string>, delta: string)
    | WireEnd(channel: Channel, partId: string)
    | ToolInputAvailable(toolCallId: string, toolName: string, input: Option<Json.Value>)
    | ToolOutputAvailable(toolCallId: string, output: Option<Json.Value>)
    | ToolOutputError(toolCallId: string, errorText: string)
    | WireFinish(reason: Option<string>)

  function Or<T>(a: Option<T>, b: T): T {
    if a.Some? then a.value else b
  }

  /** `a ?? b`, where a JSON null gives way as an absent field does. */
  function Coalesce(a: Option<Json.Value>, b: Option<Json.Value>): Option<Json.Value> {
    if a.None? || a.value.Null? then b else a
  }

  function PickDelta(chunk: Chunk): string {
    Or(chunk.delta, Or(chunk.text, Or(chunk.textDelta, Or(chunk.reasoning, ""))))
  }

  function Fallback(channel: Channel, turn: nat, step: nat): string {
    (if channel.Prose? then "text-" else "reasoning-") + Decimal(turn) + "-" + Decimal(step)
  }

  function PartBase(chunk: Chunk, channel: Channel, turn: nat, step: nat): string {
    Or(chunk.id, Or(chunk.textId, Or(chunk.reasoningId, Fallback(channel, turn, step))))
  }

  function Suffixed(base: string, step: nat): string {
    base + "-s" + Decimal(step)
  }

  function PickPartId(chunk: Chunk, channel: Channel, turn: nat, step: nat): string {
    Suffixed(PartBase(chunk, channel, turn, step), step)
  }

  // ----- The pump -----

  datatype Pump = Pump(
    textDeltaCount: nat, toolCallCount: nat, stepCount: nat, finishReason: Option<string>,
    activeText: Option<string>, activeReasoning: Option<string>, assembledText: string,
    emitted: seq<Emission>)
  {
    function Active(channel: Channel): Option<string> {
      if channel.Prose? then activeText else activeReasoning
    }

    function Activate(channel: Channel, part: Option<string>): Pump {
      if channel.Prose? then this.(activeText := part) else this.(activeReasoning := part)
    }

    function Emit(payload: Payload, touchActivity: bool): Pump {
      this.(emitted := emitted + [Emission(payload, touchActivity)])
    }
  }

  const IDLE := Pump(0, 0, 0, None, None, None, "", [])

  function Advance(turn: nat, p: Pump, chunk: Chunk): Pump {
    match chunk.kind
    case Start => p
    case StartStep =>
      p.(stepCount := p.stepCount + 1).Emit(StepStarted(turn, p.stepCount + 1), false)
    case Begin(channel) =>
      var id := PickPartId(chunk, channel, turn, p.stepCount);
      p.Activate(channel, Some(id)).Emit(PartStarted(turn, channel, id), false)
    case Delta(channel) =>
      var delta := PickDelta(chunk);
      if delta == "" then p
      else
        (if channel.Prose?
         then p.(textDeltaCount := p.textDeltaCount + 1, assembledText := p.assembledText + delta)
         else p).Emit(PartDelta(turn, channel, p.Active(channel), delta), false)
    case End(channel) =>
      var id := Or(p.Active(channel), PickPartId(chunk, channel, turn, p.stepCount));
      p.Activate(channel, None).Emit(PartEnded(turn, channel, id), false)
    case ToolCall =>
      p.(toolCallCount := p.toolCallCount + 1).Emit(
        ToolCalled(turn, Or(chunk.toolCallId, ""), Or(chunk.toolName, "tool"), Coalesce(chunk.input, chunk.args)),
        false)
    case ToolResult =>
      p.Emit(ToolReturned(turn, Or(chunk.toolCallId, ""), Or(chunk.toolName, "tool"),
                          Coalesce(chunk.output, chunk.result)), false)
    case ToolError =>
      p.Emit(ToolFailed(turn, Or(chunk.toolCallId, ""), Or(chunk.toolName, "tool"), Or(chunk.error, "")), false)
    case FinishStep =>
      p.Emit(StepCompleted(turn, p.stepCount, chunk.finishReason), true)
    case Finish =>
      var reason := if chunk.finishReason.Some? then chunk.finishReason else p.finishReason;
      var q := p.(finishReason := reason);
      (if p.assembledText != "" then q.Emit(AssistantMessage(turn, p.assembledText), true) else q)
      .Emit(TurnCompleted(turn, reason), true)
    case Unknown(_) => p
  }

  function Pumped(turn: nat, chunks: seq<Chunk>): Pump {
    if chunks == [] then IDLE
    else Advance(turn, Pumped(turn, chunks[..|chunks| - 1]), chunks[|chunks| - 1])
  }

  lemma PumpedStep(turn: nat, chunks: seq<Chunk>, i: nat)
    requires i < |chunks|
    ensures Pumped(turn, chunks[..i + 1]) == Advance(turn, Pumped(turn, chunks[..i]), chunks[i])
  {
    assert chunks[..i + 1][..i] == chunks[..i];
  }

  /** The variables of the pumping loop; `emitted` is what the service has received. */
  class StreamPump {
    const turnIndex: nat
    var textDeltaCount: nat
    var toolCallCount: nat
    var stepCount: nat
    var finishReason: Option<string>
    var activeText: Option<string>
    var activeReasoning: Option<string>
    var assembledText: string
    var emitted: seq<Emission>

    function View(): Pump
      reads this
    {
      Pump(textDeltaCount, toolCallCount, stepCount, finishReason, activeText, activeReasoning, assembledText, emitted)
    }

    constructor (turnIndex: nat)
      ensures View() == IDLE && this.turnIndex == turnIndex
    {
      this.turnIndex := turnIndex;
      textDeltaCount, toolCallCount, stepCount, finishReason := 0, 0, 0, None;
      activeText, activeReasoning, assembledText, emitted := None, None, "", [];
    }

    method Emit(payload: Payload, touchActivity: bool)
      modifies this`emitted
      ensures View() == old(View()).Emit(payload, touchActivity)
    {
      emitted := emitted + [Emission(payload, touchActivity)];
    }

    method HandlePart(chunk: Chunk)
      requires chunk.kind.Begin? || chunk.kind.Delta? || chunk.kind.End?
      modifies this
      ensures View() == Advance(turnIndex, old(View()), chunk)
    {
      hide PickDelta, PickPartId;
      match chunk.kind {
        case Begin(channel) =>
          var id := PickPartId(chunk, channel, turnIndex, stepCount);
          if channel.Prose? { activeText := Some(id); } else { activeReasoning := Some(id); }
          Emit(PartStarted(turnIndex, channel, id), false);
        case Delta(channel) =>
          var delta := PickDelta(chunk);
          if delta == "" {
            return;
          }
          if channel.Prose? {
            textDeltaCount, assembledText := textDeltaCount + 1, assembledText + delta;
          }
          Emit(PartDelta(turnIndex, channel, if channel.Prose? then activeText else activeReasoning, delta), false);
        case End(channel) =>
          var active := if channel.Prose? then activeText else activeReasoning;
          Emit(PartEnded(turnIndex, channel, Or(active, PickPartId(chunk, channel, turnIndex, stepCount))), false);
          if channel.Prose? { activeText := None; } else { activeReasoning := None; }
      }
    }

    method HandleTool(chunk: Chunk)
      requires chunk.kind.ToolCall? || chunk.kind.ToolResult? || chunk.kind.ToolError?
      modifies this
      ensures View() == Advance(turnIndex, old(View()), chunk)
    {
      hide Coalesce, Or;
      var toolCallId, toolName := Or(chunk.toolCallId, ""), Or(chunk.toolName, "tool");
      match chunk.kind {
        case ToolCall =>
          toolCallCount := toolCallCount + 1;
          Emit(ToolCalled(turnIndex, toolCallId, toolName, Coalesce(chunk.input, chunk.args)), false);
        case ToolResult =>
          Emit(ToolReturned(turnIndex, toolCallId, toolName, Coalesce(chunk.output, chunk.result)), false);
        case ToolError =>
          Emit(ToolFailed(turnIndex, toolCallId, toolName, Or(chunk.error, "")), false);
      }
    }

    method HandleFinish(chunk: Chunk)
      requires chunk.kind.Finish?
      modifies this
      ensures View() == Advance(turnIndex, old(View()), chunk)
    {
      if chunk.finishReason.Some? {
        finishReason := chunk.finishReason;
      }
      if assembledText != "" {
        Emit(AssistantMessage(turnIndex, assembledText), true);
      }
      Emit(TurnCompleted(turnIndex, finishReason), true);
    }

    method Handle(chunk: Chunk)
      modifies this
      ensures View() == Advance(turnIndex, old(View()), chunk)
    {
      match chunk.kind {
        case Start =>
        case StartStep =>
          stepCount := stepCount + 1;
          Emit(StepStarted(turnIndex, stepCount), false);
        case Begin(_) => HandlePart(chunk);
        case Delta(_) => HandlePart(chunk);
        case End(_) => HandlePart(chunk);
        case ToolCall => HandleTool(chunk);
        case ToolResult => HandleTool(chunk);
        case ToolError => HandleTool(chunk);
        case FinishStep =>
          Emit(StepCompleted(turnIndex, stepCount, chunk.finishReason), true);
        case Finish => HandleFinish(chunk);
        case Unknown(_) =>
      }
    }
  }

  method PumpFullStream(chunks: seq<Chunk>, turnIndex: nat) returns (pump: StreamPump)
    ensures pump.View() == Pumped(turnIndex, chunks)
  {
    hide Advance;
    pump := new StreamPump(turnIndex);
    var i := 0;
    while i < |chunks|
      invariant 0 <= i <= |chunks|
      invariant fresh(pump) && pump.turnIndex == turnIndex
      invariant pump.View() == Pumped(turnIndex, chunks[..i])
    {
      PumpedStep(turnIndex, chunks, i);
      pump.Handle(chunks[i]);
      i := i + 1;
    }
    assert chunks[..i] == chunks;
  }

  // ----- The wire -----

  function PayloadToChunk(payload: Payload): Option<Wire> {
    match payload
    case StepStarted(_, _) => Some(WireStartStep)
    case StepCompleted(_, _, reason) => Some(WireFinishStep(reason))
    case PartStarted(_, channel, partId) => Some(WireStart(channel, partId))
    case PartDelta(_, channel, openId, delta) => Some(WireDelta(channel, openId, delta))
    case PartEnded(_, channel, partId) => Some(WireEnd(channel, partId))
    case ToolCalled(_, toolCallId, toolName, input) => Some(ToolInputAvailable(toolCallId, toolName, input))
    case ToolReturned(_, toolCallId, _, output) => Some(ToolOutputAvailable(toolCallId, output))
    case ToolFailed(_, toolCallId, _, error) => Some(ToolOutputError(toolCallId, error))
    case AssistantMessage(_, _) => None
    case TurnCompleted(_, reason) => Some(WireFinish(reason))
  }

  function ToWire(emitted: seq<Emission>): seq<Wire> {
    if emitted == [] then []
    else
      var last := PayloadToChunk(emitted[|emitted| - 1].payload);
      ToWire(emitted[..|emitted| - 1]) + if last.Some? then [last.value] else []
  }
}
