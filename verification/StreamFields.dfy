/** Which field of a chunk becomes which part of what the browser receives, whatever came before. */
module StreamFields {
  import opened Text
  import opened Wrappers
  import opened StreamTranslator
  import opened StreamFaithful
  import Json

  /** A chunk comes after others; `sent` is what the browser receives for it, and `text` what the turn's text gains. */
  ghost predicate Sends(turn: nat, before: seq<Chunk>, chunk: Chunk, sent: seq<Wire>, text: string) {
    var p, q := Pumped(turn, before), Pumped(turn, before + [chunk]);
    ToWire(q.emitted) == ToWire(p.emitted) + sent && q.assembledText == p.assembledText + text
  }

  /** The first of some fields that is present is the k-th, with this content. */
  predicate FirstPresent<T(==)>(fields: seq<Option<T>>, k: nat, content: T) {
    k < |fields| && fields[k] == Some(content) && forall j :: 0 <= j < k ==> fields[j].None?
  }

  predicate NonePresent<T>(fields: seq<Option<T>>) {
    forall j :: 0 <= j < |fields| ==> fields[j].None?
  }

  /** The fields that may hold a delta's text, in the order in which they are looked at. */
  function TextFields(chunk: Chunk): seq<Option<string>> {
    [chunk.delta, chunk.text, chunk.textDelta, chunk.reasoning]
  }

  function IdFields(chunk: Chunk): seq<Option<string>> {
    [chunk.id, chunk.textId, chunk.reasoningId]
  }

  lemma SendsRendered(turn: nat, before: seq<Chunk>, chunk: Chunk)
    ensures Sends(turn, before, chunk, Maybe(Rendered(turn, before, chunk)),
                  if chunk.kind == Delta(Prose) then PickDelta(chunk) else "")
  {
    hide Advance, Rendered, OpenId, ToWire, Steps, LastReason, PickDelta;
    var all := before + [chunk];
    assert all[..|all| - 1] == before;
    PumpState(turn, before);
    StepTranslates(turn, Pumped(turn, before), before, chunk);
    AdvanceText(turn, Pumped(turn, before), chunk);
  }

  /** A delta's text is that of the first field present; a delta without one, or with an empty one, sends nothing. */
  lemma DeltaCarries(turn: nat, before: seq<Chunk>, chunk: Chunk, channel: Channel)
    requires chunk.kind == Delta(channel)
    ensures forall k, content :: FirstPresent(TextFields(chunk), k, content) && content != "" ==>
              Sends(turn, before, chunk, [WireDelta(channel, OpenId(turn, before, channel), content)],
                    if channel.Prose? then content else "")
    ensures NonePresent(TextFields(chunk)) || (exists k :: FirstPresent(TextFields(chunk), k, "")) ==>
              Sends(turn, before, chunk, [], "")
  {
    hide Sends, OpenId;
    SendsRendered(turn, before, chunk);
    var fields := TextFields(chunk);
    assert fields[0] == chunk.delta && fields[1] == chunk.text;
    assert fields[2] == chunk.textDelta && fields[3] == chunk.reasoning;
    forall k, content | FirstPresent(fields, k, content) ensures PickDelta(chunk) == content {
    }
    assert NonePresent(fields) ==> PickDelta(chunk) == "";
    hide PickDelta, TextFields, FirstPresent, NonePresent;
  }

  /** The base of a part's id: the first id field present, or else the channel, the turn and the step. */
  ghost predicate BaseOf(turn: nat, step: nat, chunk: Chunk, channel: Channel, base: string) {
    || (exists k :: FirstPresent(IdFields(chunk), k, base))
    || (NonePresent(IdFields(chunk))
        && base == (if channel.Prose? then "text-" else "reasoning-") + Decimal(turn) + "-" + Decimal(step))
  }

  lemma BaseIs(turn: nat, step: nat, chunk: Chunk, channel: Channel, base: string)
    requires BaseOf(turn, step, chunk, channel, base)
    ensures PartBase(chunk, channel, turn, step) == base
  {
    var fields := IdFields(chunk);
    assert fields[0] == chunk.id && fields[1] == chunk.textId && fields[2] == chunk.reasoningId;
  }

  /** A start goes out under its base and the number of steps begun; so does an end that closes nothing. */
  lemma PartIdIs(turn: nat, before: seq<Chunk>, chunk: Chunk, channel: Channel, base: string)
    requires BaseOf(turn, Steps(before), chunk, channel, base)
    ensures var id := base + "-s" + Decimal(Steps(before));
      && (chunk.kind == Begin(channel) ==> Sends(turn, before, chunk, [WireStart(channel, id)], ""))
      && (chunk.kind == End(channel) && OpenStart(before, channel).None? ==>
            Sends(turn, before, chunk, [WireEnd(channel, id)], ""))
  {
    hide Sends, Steps, BaseOf, PartBase;
    SendsRendered(turn, before, chunk);
    BaseIs(turn, Steps(before), chunk, channel, base);
    if chunk.kind == Begin(channel) {
      StartIdLast(turn, before + [chunk]);
      assert Init(before + [chunk]) == before;
    }
  }

  /** The first of two fields that holds a value, a JSON null counting as none, or else the second as it is. */
  predicate FirstValue(a: Option<Json.Value>, b: Option<Json.Value>, v: Option<Json.Value>) {
    || (a.Some? && a.value != Json.Null && v == a)
    || (a == None && v == b)
    || (a == Some(Json.Null) && v == b)
  }

  predicate Given(field: Option<string>, otherwise: string, v: string) {
    field == Some(v) || (field.None? && v == otherwise)
  }

  /** Tool chunks carry their own id, name and content, each with its default. */
  lemma ToolCarries(
    turn: nat, before: seq<Chunk>, chunk: Chunk, id: string, name: string, content: Option<Json.Value>, error: string)
    requires Given(chunk.toolCallId, "", id) && Given(chunk.toolName, "tool", name) && Given(chunk.error, "", error)
    ensures chunk.kind.ToolCall? && FirstValue(chunk.input, chunk.args, content) ==>
              Sends(turn, before, chunk, [ToolInputAvailable(id, name, content)], "")
    ensures chunk.kind.ToolResult? && FirstValue(chunk.output, chunk.result, content) ==>
              Sends(turn, before, chunk, [ToolOutputAvailable(id, content)], "")
    ensures chunk.kind.ToolError? ==> Sends(turn, before, chunk, [ToolOutputError(id, error)], "")
  {
    hide Sends;
    SendsRendered(turn, before, chunk);
  }

  /** Steps, the start of the stream, its finish and unknown chunks. */
  lemma OthersSend(turn: nat, before: seq<Chunk>, chunk: Chunk)
    ensures chunk.kind.StartStep? ==> Sends(turn, before, chunk, [WireStartStep], "")
    ensures chunk.kind.FinishStep? ==> Sends(turn, before, chunk, [WireFinishStep(chunk.finishReason)], "")
    ensures chunk.kind.Finish? && chunk.finishReason.Some? ==>
              Sends(turn, before, chunk, [WireFinish(chunk.finishReason)], "")
    ensures chunk.kind.Start? || chunk.kind.Unknown? ==> Sends(turn, before, chunk, [], "")
  {
    hide Sends;
    SendsRendered(turn, before, chunk);
    assert Last(before + [chunk]) == chunk;
  }
}
