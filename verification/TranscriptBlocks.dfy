/** Grouping a message's parts into transcript blocks. */
module TranscriptBlocks {
  import Json
  import opened Text
  import opened Wrappers

  /** A part is an object: `ref` is its identity, and comparing parts compares objects. */
  datatype RawPart = RawPart(
    ref: nat, kind: string, text: Option<string>, toolName: Option<string>, toolCallId: Option<string>,
    data: Option<Json.Value>)

  datatype Interaction = Question | Approval | Aside

  datatype ProcessItem = Thought(part: RawPart) | ToolGroup(name: string, calls: seq<RawPart>)

  datatype Block =
    | Process(id: string, items: seq<ProcessItem>)
    | Prose(id: string, text: string)
    | Interact(id: string, interaction: Interaction, data: Json.Value)

  predicate IsToolPart(p: RawPart) {
    "tool-" <= p.kind || p.kind == "dynamic-tool"
  }

  predicate IsDynamic(p: RawPart) {
    p.kind == "dynamic-tool"
  }

  function InteractionOf(p: RawPart): Option<Interaction> {
    if p.kind == "data-ask" then Some(Question)
    else if p.kind == "data-approval" then Some(Approval)
    else if p.kind == "data-aside" then Some(Aside)
    else None
  }

  function ToolNameOf(p: RawPart): string {
    if p.toolName.Some? && p.toolName.value != "" then p.toolName.value
    else if "tool-" <= p.kind then p.kind[5..]
    else p.kind
  }

  function CallId(p: RawPart): Option<string> {
    if p.toolCallId.Some? && p.toolCallId.value != "" then p.toolCallId else None
  }

  /** The id under which a tool part competes with its duplicates. */
  function DedupeId(p: RawPart): Option<string> {
    if IsToolPart(p) then CallId(p) else None
  }

  // ----- Dropping duplicate tool parts -----

  function Prefer(existing: Option<RawPart>, part: RawPart): Option<RawPart> {
    if existing.None? || (IsDynamic(existing.value) && !IsDynamic(part)) then Some(part) else existing
  }

  function Preferred(parts: seq<RawPart>, id: string): Option<RawPart> {
    if parts == [] then None
    else
      var existing := Preferred(parts[..|parts| - 1], id);
      var part := parts[|parts| - 1];
      if DedupeId(part) == Some(id) then Prefer(existing, part) else existing
  }

  predicate Keeps(all: seq<RawPart>, before: seq<RawPart>, part: RawPart) {
    DedupeId(part).Some? ==> Preferred(all, DedupeId(part).value) == Some(part) && part !in before
  }

  function KeptOf(all: seq<RawPart>, parts: seq<RawPart>): seq<RawPart>
    decreases |parts|
  {
    if parts == [] then []
    else
      var before, part := parts[..|parts| - 1], parts[|parts| - 1];
      KeptOf(all, before) + if Keeps(all, before, part) then [part] else []
  }

  function Dedupe(parts: seq<RawPart>): seq<RawPart> {
    KeptOf(parts, parts)
  }

  /** The first pass: the part preferred for each id. */
  method PreferTools(parts: seq<RawPart>) returns (preferredToolById: map<string, RawPart>)
    ensures forall id :: Preferred(parts, id) == if id in preferredToolById then Some(preferredToolById[id]) else None
  {
    hide IsToolPart, CallId, IsDynamic;
    preferredToolById := map[];
    var i := 0;
    while i < |parts|
      invariant 0 <= i <= |parts|
      invariant forall id :: Preferred(parts[..i], id)
                          == if id in preferredToolById then Some(preferredToolById[id]) else None
    {
      var part := parts[i];
      assert parts[..i + 1][..i] == parts[..i];
      if DedupeId(part).Some? {
        var id := DedupeId(part).value;
        if id !in preferredToolById || (IsDynamic(preferredToolById[id]) && !IsDynamic(part)) {
          preferredToolById := preferredToolById[id := part];
        }
      }
      i := i + 1;
    }
    assert parts[..i] == parts;
  }

  lemma KeptStep(all: seq<RawPart>, parts: seq<RawPart>, i: nat)
    requires i < |parts|
    ensures KeptOf(all, parts[..i + 1])
         == KeptOf(all, parts[..i]) + if Keeps(all, parts[..i], parts[i]) then [parts[i]] else []
  {
    hide Keeps;
    assert parts[..i + 1][..i] == parts[..i];
  }

  method DedupeRenderableParts(parts: seq<RawPart>) returns (kept: seq<RawPart>)
    ensures kept == Dedupe(parts)
  {
    assert KeptOf(parts, parts[..0]) == [];
    hide IsToolPart, CallId, IsDynamic, DedupeId, Preferred, KeptOf;
    var preferredToolById := PreferTools(parts);
    forall id | id in preferredToolById ensures DedupeId(preferredToolById[id]) == Some(id) {
      PreferredHasId(parts, id);
    }
    kept := [];
    var emittedToolIds: set<string> := {};
    var i := 0;
    while i < |parts|
      invariant 0 <= i <= |parts|
      invariant kept == KeptOf(parts, parts[..i])
      invariant forall id :: id in emittedToolIds <==> id in preferredToolById && preferredToolById[id] in parts[..i]
    {
      var part := parts[i];
      KeptStep(parts, parts, i);
      assert parts[..i + 1] == parts[..i] + [part];
      if DedupeId(part).None? {
        kept := kept + [part];
      } else {
        var id := DedupeId(part).value;
        assert Preferred(parts, id) == if id in preferredToolById then Some(preferredToolById[id]) else None;
        if id in preferredToolById && preferredToolById[id] == part && id !in emittedToolIds {
          emittedToolIds := emittedToolIds + {id};
          kept := kept + [part];
        }
      }
      i := i + 1;
    }
    assert parts[..i] == parts;
  }

  lemma {:induction false} PreferredHasId(parts: seq<RawPart>, id: string)
    ensures Preferred(parts, id).Some? ==>
              Preferred(parts, id).value in parts && DedupeId(Preferred(parts, id).value) == Some(id)
    ensures Preferred(parts, id).None? <==> forall k :: 0 <= k < |parts| ==> DedupeId(parts[k]) != Some(id)
  {
    hide DedupeId;
    if parts != [] {
      PreferredHasId(parts[..|parts| - 1], id);
    }
  }

  // ----- Building the blocks -----

  /** The loop's variables. */
  datatype Builder = Builder(
    messageId: string, blocks: seq<Block>, items: seq<ProcessItem>,
    processOrdinal: nat, textOrdinal: nat, interactionOrdinal: nat)

  function ProcessId(messageId: string, n: nat): string {
    messageId + "-process-" + Decimal(n)
  }

  function TextId(messageId: string, n: nat): string {
    messageId + "-text-" + Decimal(n)
  }

  function InteractionId(messageId: string, n: nat): string {
    messageId + "-interaction-" + Decimal(n)
  }

  function FlushProcess(b: Builder): Builder {
    if b.items == [] then b
    else b.(processOrdinal := b.processOrdinal + 1,
            blocks := b.blocks + [Process(ProcessId(b.messageId, b.processOrdinal + 1), b.items)],
            items := [])
  }

  function AppendText(b: Builder, text: string): Builder {
    var n := |b.blocks|;
    if text == "" then b
    else if n > 0 && b.blocks[n - 1].Prose? then
      b.(blocks := b.blocks[n - 1 := b.blocks[n - 1].(text := b.blocks[n - 1].text + text)])
    else
      b.(textOrdinal := b.textOrdinal + 1,
         blocks := b.blocks + [Prose(TextId(b.messageId, b.textOrdinal + 1), text)])
  }

  function AppendInteraction(b: Builder, interaction: Interaction, data: Json.Value): Builder {
    b.(interactionOrdinal := b.interactionOrdinal + 1,
       blocks := b.blocks + [Interact(InteractionId(b.messageId, b.interactionOrdinal + 1), interaction, data)])
  }

  function AppendCall(items: seq<ProcessItem>, name: string, part: RawPart): seq<ProcessItem> {
    var n := |items|;
    if n > 0 && items[n - 1].ToolGroup? && items[n - 1].name == name
    then items[n - 1 := ToolGroup(name, items[n - 1].calls + [part])]
    else items + [ToolGroup(name, [part])]
  }

  /** The part's data, or the empty object for want of it. */
  function DataOf(part: RawPart): Json.Value {
    if part.data.None? || part.data.value.Null? then Json.Obj(map[]) else part.data.value
  }

  function Place(b: Builder, part: RawPart): Builder {
    if part.kind == "text" && part.text.Some? then AppendText(FlushProcess(b), part.text.value)
    else if InteractionOf(part).Some? then
      AppendInteraction(FlushProcess(b), InteractionOf(part).value, DataOf(part))
    else if part.kind == "reasoning" then b.(items := b.items + [Thought(part)])
    else if IsToolPart(part) then b.(items := AppendCall(b.items, ToolNameOf(part), part))
    else b
  }

  function Placed(parts: seq<RawPart>, messageId: string): Builder {
    if parts == [] then Builder(messageId, [], [], 0, 0, 0)
    else Place(Placed(parts[..|parts| - 1], messageId), parts[|parts| - 1])
  }

  function Build(parts: seq<RawPart>, messageId: string): seq<Block> {
    FlushProcess(Placed(Dedupe(parts), messageId)).blocks
  }

  /** The variables that the loop shares with its two local functions. */
  class BlockBuilder {
    const messageId: string
    var blocks: seq<Block>
    var processItems: seq<ProcessItem>
    var processOrdinal: nat
    var textOrdinal: nat
    var interactionOrdinal: nat

    function View(): Builder
      reads this
    {
      Builder(messageId, blocks, processItems, processOrdinal, textOrdinal, interactionOrdinal)
    }

    constructor (messageId: string)
      ensures View() == Builder(messageId, [], [], 0, 0, 0)
    {
      this.messageId := messageId;
      blocks, processItems, processOrdinal, textOrdinal, interactionOrdinal := [], [], 0, 0, 0;
    }

    method Flush()
      modifies this
      ensures View() == FlushProcess(old(View()))
    {
      hide ProcessId;
      if |processItems| == 0 {
        return;
      }
      processOrdinal := processOrdinal + 1;
      blocks := blocks + [Process(ProcessId(messageId, processOrdinal), processItems)];
      processItems := [];
    }

    method AddText(text: string)
      modifies this
      ensures View() == AppendText(old(View()), text)
    {
      hide TextId;
      if |text| == 0 {
        return;
      }
      var last := |blocks| - 1;
      if last >= 0 && blocks[last].Prose? {
        blocks := blocks[last := blocks[last].(text := blocks[last].text + text)];
        return;
      }
      textOrdinal := textOrdinal + 1;
      blocks := blocks + [Prose(TextId(messageId, textOrdinal), text)];
    }

    method AddInteraction(interaction: Interaction, data: Json.Value)
      modifies this
      ensures View() == AppendInteraction(old(View()), interaction, data)
    {
      hide InteractionId;
      interactionOrdinal := interactionOrdinal + 1;
      blocks := blocks + [Interact(InteractionId(messageId, interactionOrdinal), interaction, data)];
    }

    method AddCall(name: string, part: RawPart)
      modifies this`processItems
      ensures processItems == AppendCall(old(processItems), name, part)
    {
      var last := |processItems| - 1;
      if last >= 0 && processItems[last].ToolGroup? && processItems[last].name == name {
        processItems := processItems[last := ToolGroup(name, processItems[last].calls + [part])];
      } else {
        processItems := processItems + [ToolGroup(name, [part])];
      }
    }

    method Add(part: RawPart)
      modifies this
      ensures View() == Place(old(View()), part)
    {
      hide IsToolPart, InteractionOf, ToolNameOf, DataOf, FlushProcess, AppendText, AppendInteraction, AppendCall;
      if part.kind == "text" && part.text.Some? {
        Flush();
        AddText(part.text.value);
      } else if InteractionOf(part).Some? {
        Flush();
        AddInteraction(InteractionOf(part).value, DataOf(part));
      } else if part.kind == "reasoning" {
        processItems := processItems + [Thought(part)];
      } else if IsToolPart(part) {
        AddCall(ToolNameOf(part), part);
      }
    }
  }

  method BuildTranscriptBlocks(parts: seq<RawPart>, messageId: string) returns (blocks: seq<Block>)
    ensures blocks == Build(parts, messageId)
  {
    hide Dedupe, Place, FlushProcess;
    var builder := new BlockBuilder(messageId);
    var renderable := DedupeRenderableParts(parts);
    var i := 0;
    while i < |renderable|
      invariant 0 <= i <= |renderable|
      invariant fresh(builder) && builder.View() == Placed(renderable[..i], messageId)
    {
      assert renderable[..i + 1][..i] == renderable[..i];
      builder.Add(renderable[i]);
      i := i + 1;
    }
    assert renderable[..i] == renderable;
    builder.Flush();
    return builder.blocks;
  }
}
