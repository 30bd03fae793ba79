/** What each kind of part becomes, and which of two tool parts under one call id stays. */
module TranscriptParts {
  import Json
  import opened Text
  import opened Wrappers
  import opened TranscriptBlocks

  predicate IsToolKind(kind: string) {
    kind == "dynamic-tool" || "tool-" <= kind
  }

  predicate IsTalkKind(kind: string) {
    kind == "data-ask" || kind == "data-approval" || kind == "data-aside"
  }

  lemma FirstIds(messageId: string)
    ensures ProcessId(messageId, 1) == messageId + "-process-1"
    ensures TextId(messageId, 1) == messageId + "-text-1"
    ensures InteractionId(messageId, 1) == messageId + "-interaction-1"
  {
    assert Decimal(1) == "1";
    assert "-process-" + "1" == "-process-1" && "-text-" + "1" == "-text-1";
    assert "-interaction-" + "1" == "-interaction-1";
    assert messageId + "-process-" + "1" == messageId + ("-process-" + "1");
    assert messageId + "-text-" + "1" == messageId + ("-text-" + "1");
    assert messageId + "-interaction-" + "1" == messageId + ("-interaction-" + "1");
  }

  lemma DedupeOne(part: RawPart)
    ensures Dedupe([part]) == [part]
  {
    assert [part][..0] == [] && [part][..1] == [part];
    assert KeptOf([part], []) == [];
    if DedupeId(part).Some? {
      assert Preferred([], DedupeId(part).value) == None;
    }
  }

  lemma BuildOne(part: RawPart, messageId: string)
    ensures Build([part], messageId) == FlushProcess(Place(Builder(messageId, [], [], 0, 0, 0), part)).blocks
  {
    hide Dedupe, Place, FlushProcess;
    DedupeOne(part);
    assert [part][..0] == [];
    assert Placed([], messageId) == Builder(messageId, [], [], 0, 0, 0);
  }

  /** A text part becomes prose, and nothing at all when it is empty or has no text. */
  lemma TextBecomes(part: RawPart, messageId: string)
    requires part.kind == "text"
    ensures Build([part], messageId)
         == if part.text.None? || part.text == Some("") then [] else [Prose(messageId + "-text-1", part.text.value)]
  {
    hide ProcessId, TextId, InteractionId, Build;
    FirstIds(messageId);
    BuildOne(part, messageId);
  }

  /** A reasoning part becomes a thought, whatever its text. */
  lemma ReasoningBecomes(part: RawPart, messageId: string)
    requires part.kind == "reasoning"
    ensures Build([part], messageId) == [Process(messageId + "-process-1", [Thought(part)])]
  {
    hide ProcessId, TextId, InteractionId, Build;
    FirstIds(messageId);
    assert [] + [Thought(part)] == [Thought(part)];
    BuildOne(part, messageId);
  }

  /** An interaction part becomes an interaction of its kind with its data, or the empty object for want of data. */
  lemma TalkBecomes(part: RawPart, messageId: string, data: Json.Value)
    requires data == if part.data.Some? && !part.data.value.Null? then part.data.value else Json.Obj(map[])
    ensures part.kind == "data-ask" ==>
              Build([part], messageId) == [Interact(messageId + "-interaction-1", Question, data)]
    ensures part.kind == "data-approval" ==>
              Build([part], messageId) == [Interact(messageId + "-interaction-1", Approval, data)]
    ensures part.kind == "data-aside" ==>
              Build([part], messageId) == [Interact(messageId + "-interaction-1", Aside, data)]
  {
    hide ProcessId, TextId, InteractionId, Build;
    FirstIds(messageId);
    BuildOne(part, messageId);
  }

  lemma ToolKindsApart(kind: string)
    requires IsToolKind(kind)
    ensures kind != "text" && kind != "reasoning" && !IsTalkKind(kind)
  {
    assert kind[0] == 'd' ==> kind[1] == 'y';
  }

  lemma ToolNameIs(part: RawPart, name: string)
    requires IsToolKind(part.kind)
    requires if part.toolName.Some? && part.toolName.value != "" then name == part.toolName.value
             else part.kind == "tool-" + name || (part.kind == "dynamic-tool" && name == "dynamic-tool")
    ensures IsToolPart(part) && ToolNameOf(part) == name
  {
    assert part.kind == "tool-" + name ==> part.kind[5..] == name;
    assert part.kind == "dynamic-tool" ==> part.kind[0] == 'd';
  }

  /** A tool part becomes a group under its own name, else under what its kind says after the prefix, else its kind. */
  lemma ToolBecomes(part: RawPart, messageId: string, name: string)
    requires IsToolKind(part.kind)
    requires if part.toolName.Some? && part.toolName.value != "" then name == part.toolName.value
             else part.kind == "tool-" + name || (part.kind == "dynamic-tool" && name == "dynamic-tool")
    ensures Build([part], messageId) == [Process(messageId + "-process-1", [ToolGroup(name, [part])])]
  {
    hide ProcessId, TextId, InteractionId, Build;
    FirstIds(messageId);
    ToolKindsApart(part.kind);
    ToolNameIs(part, name);
    hide ToolNameOf, IsToolPart;
    assert AppendCall([], name, part) == [ToolGroup(name, [part])];
    BuildOne(part, messageId);
  }

  /** A part shows up exactly when it is a text with characters, a thought, an interaction or a tool call. */
  lemma ShowsIff(part: RawPart, messageId: string)
    ensures Build([part], messageId) != [] <==>
            || (part.kind == "text" && part.text.Some? && part.text.value != "")
            || part.kind == "reasoning" || IsTalkKind(part.kind) || IsToolKind(part.kind)
  {
    BuildOne(part, messageId);
  }

  /** Only a tool part with a call id that is not empty competes with duplicates, and it does so under that id. */
  lemma CompetesIff(part: RawPart, id: string)
    ensures DedupeId(part) == Some(id) <==> IsToolKind(part.kind) && part.toolCallId == Some(id) && id != ""
  {
  }

  lemma DedupeTwo(a: RawPart, b: RawPart, id: string)
    requires DedupeId(a) == Some(id) == DedupeId(b) && a != b
    ensures Dedupe([a, b]) == if IsDynamic(a) && !IsDynamic(b) then [b] else [a]
  {
    hide DedupeId, IsDynamic;
    var parts := [a, b];
    assert parts[..1] == [a] && parts[..1][..0] == [] && parts[..2] == parts;
    assert Preferred([], id) == None;
    assert Preferred([a], id) == Some(a);
    assert Preferred(parts, id) == if IsDynamic(a) && !IsDynamic(b) then Some(b) else Some(a);
    assert KeptOf(parts, []) == [];
    assert KeptOf(parts, [a]) == if IsDynamic(a) && !IsDynamic(b) then [] else [a];
  }

  /** Of two tool parts under one id the first stays, unless it is dynamic and the second is of a known tool. */
  lemma OneOfTwo(a: RawPart, b: RawPart, id: string)
    requires a != b && id != "" && a.toolCallId == Some(id) == b.toolCallId
    requires IsToolKind(a.kind) && IsToolKind(b.kind)
    ensures Dedupe([a, b]) == if a.kind == "dynamic-tool" && b.kind != "dynamic-tool" then [b] else [a]
  {
    CompetesIff(a, id);
    CompetesIff(b, id);
    hide DedupeId;
    DedupeTwo(a, b, id);
  }
}
