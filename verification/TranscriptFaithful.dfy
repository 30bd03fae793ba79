/** Block building loses nothing, keeps its shape, and is stable while the stream grows. */
module TranscriptFaithful {
  import opened Text
  import opened Wrappers
  import opened TranscriptBlocks

  // ----- Which duplicate survives -----

  predicate Bears(p: RawPart, id: string) {
    DedupeId(p) == Some(id)
  }

  /** The place of the survivor of an id: its first part of a known tool, or else its first part. */
  predicate Survives(parts: seq<RawPart>, id: string, i: nat)
    requires i < |parts|
  {
    && Bears(parts[i], id)
    && (forall k :: 0 <= k < i && Bears(parts[k], id) ==> !IsDynamic(parts[i]) && IsDynamic(parts[k]))
    && (IsDynamic(parts[i]) ==> forall k :: 0 <= k < |parts| && Bears(parts[k], id) ==> IsDynamic(parts[k]))
  }

  lemma {:induction false} PreferredSurvives(parts: seq<RawPart>, id: string)
    ensures Preferred(parts, id).Some? ==>
              exists i :: 0 <= i < |parts| && parts[i] == Preferred(parts, id).value && Survives(parts, id, i)
    ensures Preferred(parts, id).None? <==> forall k :: 0 <= k < |parts| ==> !Bears(parts[k], id)
    decreases |parts|
  {
    hide DedupeId, IsDynamic;
    if parts != [] {
      var n := |parts| - 1;
      var before := parts[..n];
      PreferredSurvives(before, id);
      var existing := Preferred(before, id);
      if existing.Some? {
        var i :| 0 <= i < n && before[i] == existing.value && Survives(before, id, i);
        if Preferred(parts, id) == existing {
          assert parts[i] == existing.value && Survives(parts, id, i);
        } else {
          assert Survives(parts, id, n);
        }
      } else if Bears(parts[n], id) {
        assert Survives(parts, id, n);
      }
    }
  }

  /** A part is kept exactly when it bears no id or stands in the survivor's place. */
  lemma KeepsIff(parts: seq<RawPart>, i: nat)
    requires i < |parts|
    ensures Keeps(parts, parts[..i], parts[i]) <==>
            DedupeId(parts[i]).None? || Survives(parts, DedupeId(parts[i]).value, i)
  {
    hide DedupeId, IsDynamic;
    if DedupeId(parts[i]).Some? {
      var id := DedupeId(parts[i]).value;
      PreferredSurvives(parts, id);
      assert Bears(parts[i], id);
      var j :| 0 <= j < |parts| && parts[j] == Preferred(parts, id).value && Survives(parts, id, j);
      assert Survives(parts, id, i) ==> i == j;
    }
  }

  // ----- Nothing is lost -----

  /** What a reader sees: characters of text, interactions, and process parts. */
  datatype Atom = Char(c: char) | Exchange(interaction: Interaction, data: Json.Value) | Piece(part: RawPart)

  function Chars(text: string): seq<Atom> {
    seq(|text|, k requires 0 <= k < |text| => Char(text[k]))
  }

  function Pieces(parts: seq<RawPart>): seq<Atom> {
    seq(|parts|, k requires 0 <= k < |parts| => Piece(parts[k]))
  }

  /** The atoms of a part; none for a part that is not rendered. */
  function AtomsOf(part: RawPart): seq<Atom> {
    if part.kind == "text" && part.text.Some? then Chars(part.text.value)
    else if InteractionOf(part).Some? then [Exchange(InteractionOf(part).value, DataOf(part))]
    else if part.kind == "reasoning" || IsToolPart(part) then [Piece(part)]
    else []
  }

  function Atoms(parts: seq<RawPart>): seq<Atom> {
    if parts == [] then [] else Atoms(parts[..|parts| - 1]) + AtomsOf(parts[|parts| - 1])
  }

  function FlatItems(items: seq<ProcessItem>): seq<Atom> {
    if items == [] then []
    else
      var last := items[|items| - 1];
      FlatItems(items[..|items| - 1]) + if last.Thought? then [Piece(last.part)] else Pieces(last.calls)
  }

  function FlatBlock(block: Block): seq<Atom> {
    match block
    case Process(_, items) => FlatItems(items)
    case Prose(_, text) => Chars(text)
    case Interact(_, interaction, data) => [Exchange(interaction, data)]
  }

  function Flat(blocks: seq<Block>): seq<Atom> {
    if blocks == [] then [] else Flat(blocks[..|blocks| - 1]) + FlatBlock(blocks[|blocks| - 1])
  }

  lemma FlatSnoc(blocks: seq<Block>, block: Block)
    ensures Flat(blocks + [block]) == Flat(blocks) + FlatBlock(block)
  {
    assert (blocks + [block])[..|blocks|] == blocks;
  }

  lemma FlatItemsSnoc(items: seq<ProcessItem>, item: ProcessItem)
    ensures FlatItems(items + [item])
         == FlatItems(items) + if item.Thought? then [Piece(item.part)] else Pieces(item.calls)
  {
    assert (items + [item])[..|items|] == items;
  }

  lemma FlushFlat(b: Builder)
    ensures Flat(FlushProcess(b).blocks) == Flat(b.blocks) + FlatItems(b.items)
    ensures FlushProcess(b).items == []
  {
    if b.items != [] {
      FlatSnoc(b.blocks, Process(ProcessId(b.messageId, b.processOrdinal + 1), b.items));
    }
  }

  lemma MergeFlat(blocks: seq<Block>, text: string)
    requires blocks != [] && blocks[|blocks| - 1].Prose?
    ensures var n, last := |blocks|, blocks[|blocks| - 1];
      Flat(blocks[n - 1 := last.(text := last.text + text)]) == Flat(blocks) + Chars(text)
  {
    hide Flat, Chars;
    var n, last := |blocks|, blocks[|blocks| - 1];
    var merged := last.(text := last.text + text);
    assert blocks[n - 1 := merged] == blocks[..n - 1] + [merged];
    assert blocks == blocks[..n - 1] + [last];
    FlatSnoc(blocks[..n - 1], merged);
    FlatSnoc(blocks[..n - 1], last);
    CharsAppend(last.text, text);
  }

  lemma CharsAppend(a: string, b: string)
    ensures Chars(a + b) == Chars(a) + Chars(b)
  {
  }

  lemma TextFlat(b: Builder, text: string)
    ensures Flat(AppendText(b, text).blocks) == Flat(b.blocks) + Chars(text)
  {
    assert Chars("") == [];
    hide Flat, Chars, TextId;
    var n := |b.blocks|;
    if text == "" {
    } else if n > 0 && b.blocks[n - 1].Prose? {
      MergeFlat(b.blocks, text);
    } else {
      FlatSnoc(b.blocks, Prose(TextId(b.messageId, b.textOrdinal + 1), text));
    }
  }

  lemma CallFlat(items: seq<ProcessItem>, name: string, part: RawPart)
    ensures FlatItems(AppendCall(items, name, part)) == FlatItems(items) + [Piece(part)]
  {
    var n := |items|;
    if n > 0 && items[n - 1].ToolGroup? && items[n - 1].name == name {
      var calls := items[n - 1].calls;
      assert AppendCall(items, name, part) == items[..n - 1] + [ToolGroup(name, calls + [part])];
      FlatItemsSnoc(items[..n - 1], ToolGroup(name, calls + [part]));
      assert Pieces(calls + [part]) == Pieces(calls) + [Piece(part)];
    } else {
      FlatItemsSnoc(items, ToolGroup(name, [part]));
      assert Pieces([part]) == [Piece(part)];
    }
  }

  lemma NothingFlat()
    ensures FlatItems([]) == [] && Flat([]) == []
  {
  }

  lemma TextKeepsItems(b: Builder, text: string)
    ensures AppendText(b, text).items == b.items
  {
  }

  lemma PlaceFlat(b: Builder, part: RawPart)
    ensures var c := Place(b, part);
      Flat(c.blocks) + FlatItems(c.items) == Flat(b.blocks) + FlatItems(b.items) + AtomsOf(part)
  {
    hide IsToolPart, InteractionOf, ToolNameOf, DataOf, Flat, FlatItems, FlushProcess, AppendText, AppendCall;
    var flushed := FlushProcess(b);
    FlushFlat(b);
    NothingFlat();
    if part.kind == "text" && part.text.Some? {
      TextFlat(flushed, part.text.value);
      TextKeepsItems(flushed, part.text.value);
    } else if InteractionOf(part).Some? {
      FlatSnoc(flushed.blocks, Interact(InteractionId(flushed.messageId, flushed.interactionOrdinal + 1),
                                        InteractionOf(part).value, DataOf(part)));
    } else if part.kind == "reasoning" {
      FlatItemsSnoc(b.items, Thought(part));
    } else if IsToolPart(part) {
      CallFlat(b.items, ToolNameOf(part), part);
    }
  }

  lemma {:induction false} PlacedFlat(parts: seq<RawPart>, messageId: string)
    ensures var b := Placed(parts, messageId);
      Flat(b.blocks) + FlatItems(b.items) == Atoms(parts)
    decreases |parts|
  {
    hide Place, AtomsOf;
    if parts != [] {
      var before, part := parts[..|parts| - 1], parts[|parts| - 1];
      PlacedFlat(before, messageId);
      PlaceFlat(Placed(before, messageId), part);
    }
  }

  /** Flattening the blocks gives back the renderable parts that survive deduplication, in order. */
  lemma BuildLosesNothing(parts: seq<RawPart>, messageId: string)
    ensures Flat(Build(parts, messageId)) == Atoms(Dedupe(parts))
  {
    hide Dedupe;
    PlacedFlat(Dedupe(parts), messageId);
    FlushFlat(Placed(Dedupe(parts), messageId));
  }

  // ----- The shape of the blocks -----

  ghost predicate TidyItems(items: seq<ProcessItem>) {
    && (forall k :: 0 <= k < |items| && items[k].ToolGroup? ==>
          items[k].calls != [] && forall part <- items[k].calls :: ToolNameOf(part) == items[k].name)
    && (forall k :: 0 < k < |items| && items[k - 1].ToolGroup? && items[k].ToolGroup? ==>
          items[k - 1].name != items[k].name)
  }

  ghost predicate TidyBlock(block: Block) {
    match block
    case Process(_, items) => items != [] && TidyItems(items)
    case Prose(_, text) => text != ""
    case Interact(_, _, _) => true
  }

  /** No block is empty, no two text blocks touch, and touching tool groups have different names. */
  ghost predicate Tidy(blocks: seq<Block>) {
    && (forall k :: 0 <= k < |blocks| ==> TidyBlock(blocks[k]))
    && (forall k :: 0 < k < |blocks| ==> !(blocks[k - 1].Prose? && blocks[k].Prose?))
  }

  datatype BlockKind = Steps | Writing | Talk

  function KindOf(block: Block): BlockKind {
    match block
    case Process(_, _) => Steps
    case Prose(_, _) => Writing
    case Interact(_, _, _) => Talk
  }

  /** How many of the blocks are of a kind. */
  function Count(blocks: seq<Block>, kind: BlockKind): nat {
    if blocks == [] then 0
    else Count(blocks[..|blocks| - 1], kind) + if KindOf(blocks[|blocks| - 1]) == kind then 1 else 0
  }

  function NumberedId(messageId: string, kind: BlockKind, n: nat): string {
    match kind
    case Steps => messageId + "-process-" + Decimal(n)
    case Writing => messageId + "-text-" + Decimal(n)
    case Talk => messageId + "-interaction-" + Decimal(n)
  }

  /** A block's id tells which of its kind it is, counting from one. */
  predicate Ranked(messageId: string, blocks: seq<Block>, k: nat)
    requires k < |blocks|
  {
    var kind := KindOf(blocks[k]);
    blocks[k].id == NumberedId(messageId, kind, Count(blocks[..k], kind) + 1)
  }

  ghost predicate Numbered(messageId: string, blocks: seq<Block>) {
    forall k :: 0 <= k < |blocks| ==> Ranked(messageId, blocks, k)
  }

  predicate Counted(b: Builder) {
    && b.processOrdinal == Count(b.blocks, Steps)
    && b.textOrdinal == Count(b.blocks, Writing)
    && b.interactionOrdinal == Count(b.blocks, Talk)
  }

  lemma SameTail(messageId: string, a: string, b: string)
    requires messageId + a == messageId + b
    ensures a == b
  {
    assert (messageId + a)[|messageId|..] == a && (messageId + b)[|messageId|..] == b;
  }

  lemma SameLabel(prefix: string, m: nat, n: nat)
    requires prefix + Decimal(m) == prefix + Decimal(n)
    ensures m == n
  {
    SameTail(prefix, Decimal(m), Decimal(n));
    DecimalInjective(m, n);
  }

  lemma IdsApart(messageId: string, a: BlockKind, m: nat, b: BlockKind, n: nat)
    requires NumberedId(messageId, a, m) == NumberedId(messageId, b, n)
    ensures a == b && m == n
  {
    var k := |messageId| + 1;
    assert NumberedId(messageId, a, m)[k] == NumberedId(messageId, b, n)[k];
    match a
    case Steps => SameLabel(messageId + "-process-", m, n);
    case Writing => SameLabel(messageId + "-text-", m, n);
    case Talk => SameLabel(messageId + "-interaction-", m, n);
  }

  lemma {:induction false} CountGrows(blocks: seq<Block>, kind: BlockKind, j: nat, k: nat)
    requires j < k <= |blocks| && KindOf(blocks[j]) == kind
    ensures Count(blocks[..j], kind) < Count(blocks[..k], kind)
  {
    assert blocks[..k][..k - 1] == blocks[..k - 1];
    if j < k - 1 {
      CountGrows(blocks, kind, j, k - 1);
    }
  }

  lemma NumberedApart(messageId: string, blocks: seq<Block>, j: nat, k: nat)
    requires Numbered(messageId, blocks) && j < k < |blocks|
    ensures blocks[j].id != blocks[k].id
  {
    hide NumberedId, Count;
    assert Ranked(messageId, blocks, j) && Ranked(messageId, blocks, k);
    var a, b := KindOf(blocks[j]), KindOf(blocks[k]);
    if blocks[j].id == blocks[k].id {
      IdsApart(messageId, a, Count(blocks[..j], a) + 1, b, Count(blocks[..k], b) + 1);
      CountGrows(blocks, a, j, k);
    }
  }

  /** A block with its kind's next number keeps the numbering. */
  lemma NumberedSnoc(messageId: string, blocks: seq<Block>, block: Block)
    requires Numbered(messageId, blocks)
    requires block.id == NumberedId(messageId, KindOf(block), Count(blocks, KindOf(block)) + 1)
    ensures Numbered(messageId, blocks + [block])
    ensures forall kind :: Count(blocks + [block], kind) == Count(blocks, kind) + if kind == KindOf(block) then 1 else 0
  {
    hide NumberedId, KindOf;
    var c := blocks + [block];
    assert c[..|blocks|] == blocks;
    forall k | 0 <= k < |blocks| ensures Ranked(messageId, c, k) {
      assert Ranked(messageId, blocks, k) && c[..k] == blocks[..k];
    }
    assert Ranked(messageId, c, |blocks|);
  }

  /** A last block that keeps its kind and id keeps the numbering. */
  lemma NumberedLast(messageId: string, blocks: seq<Block>, block: Block)
    requires Numbered(messageId, blocks) && blocks != []
    requires block.id == blocks[|blocks| - 1].id && KindOf(block) == KindOf(blocks[|blocks| - 1])
    ensures Numbered(messageId, blocks[|blocks| - 1 := block])
    ensures forall kind :: Count(blocks[|blocks| - 1 := block], kind) == Count(blocks, kind)
  {
    hide NumberedId, KindOf;
    var n := |blocks| - 1;
    var c := blocks[n := block];
    assert c[..n] == blocks[..n];
    forall k | 0 <= k < |c| ensures Ranked(messageId, c, k) {
      assert Ranked(messageId, blocks, k) && c[..k] == blocks[..k];
    }
  }

  ghost predicate Sound(b: Builder) {
    Tidy(b.blocks) && TidyItems(b.items) && Numbered(b.messageId, b.blocks) && Counted(b)
  }

  lemma FlushSound(b: Builder)
    requires Sound(b)
    ensures Sound(FlushProcess(b)) && FlushProcess(b).items == [] && FlushProcess(b).messageId == b.messageId
  {
    assert TidyItems([]);
    hide TidyItems, Numbered, Count;
    if b.items != [] {
      NumberedSnoc(b.messageId, b.blocks, Process(ProcessId(b.messageId, b.processOrdinal + 1), b.items));
    }
  }

  lemma TextSound(b: Builder, text: string)
    requires Sound(b)
    ensures Sound(AppendText(b, text)) && AppendText(b, text).messageId == b.messageId
  {
    hide TidyItems, Numbered, Count;
    var n := |b.blocks|;
    if text != "" && n > 0 && b.blocks[n - 1].Prose? {
      NumberedLast(b.messageId, b.blocks, b.blocks[n - 1].(text := b.blocks[n - 1].text + text));
    } else if text != "" {
      NumberedSnoc(b.messageId, b.blocks, Prose(TextId(b.messageId, b.textOrdinal + 1), text));
    }
  }

  lemma InteractionSound(b: Builder, interaction: Interaction, data: Json.Value)
    requires Sound(b)
    ensures Sound(AppendInteraction(b, interaction, data))
    ensures AppendInteraction(b, interaction, data).messageId == b.messageId
  {
    hide TidyItems, Numbered, Count;
    NumberedSnoc(b.messageId, b.blocks,
                 Interact(InteractionId(b.messageId, b.interactionOrdinal + 1), interaction, data));
  }

  lemma CallSound(items: seq<ProcessItem>, part: RawPart)
    requires TidyItems(items)
    ensures TidyItems(AppendCall(items, ToolNameOf(part), part))
  {
    hide ToolNameOf;
  }

  lemma PlaceSound(b: Builder, part: RawPart)
    requires Sound(b)
    ensures Sound(Place(b, part)) && Place(b, part).messageId == b.messageId
  {
    hide IsToolPart, InteractionOf, ToolNameOf, DataOf, Tidy, Numbered, Count;
    hide AppendText, AppendInteraction, AppendCall, FlushProcess;
    FlushSound(b);
    var flushed := FlushProcess(b);
    if part.kind == "text" && part.text.Some? {
      TextSound(flushed, part.text.value);
    } else if InteractionOf(part).Some? {
      InteractionSound(flushed, InteractionOf(part).value, DataOf(part));
    } else if part.kind != "reasoning" && IsToolPart(part) {
      CallSound(b.items, part);
    }
  }

  lemma {:induction false} PlacedSound(parts: seq<RawPart>, messageId: string)
    ensures Sound(Placed(parts, messageId)) && Placed(parts, messageId).messageId == messageId
    decreases |parts|
  {
    hide Place;
    if parts != [] {
      hide Sound;
      PlacedSound(parts[..|parts| - 1], messageId);
      PlaceSound(Placed(parts[..|parts| - 1], messageId), parts[|parts| - 1]);
    }
  }

  /** Of every build: blocks and groups are as few as their neighbours allow, and ids number each kind from one. */
  lemma BuildIsTidy(parts: seq<RawPart>, messageId: string)
    ensures var blocks := Build(parts, messageId);
      && Tidy(blocks)
      && Numbered(messageId, blocks)
      && forall j, k :: 0 <= j < k < |blocks| ==> blocks[j].id != blocks[k].id
  {
    hide Dedupe, Placed, FlushProcess, Tidy, Numbered;
    PlacedSound(Dedupe(parts), messageId);
    FlushSound(Placed(Dedupe(parts), messageId));
    var blocks := Build(parts, messageId);
    forall j, k | 0 <= j < k < |blocks| ensures blocks[j].id != blocks[k].id {
      NumberedApart(messageId, blocks, j, k);
    }
  }
}
