/** While a message streams in, the blocks already shown stay as they are. */
module TranscriptStreaming {
  import opened Wrappers
  import opened TranscriptBlocks
  import opened TranscriptFaithful

  // ----- Deduplication under one more part -----

  /** The part displaces an earlier dynamic tool part of its id: it is of a known tool and no earlier one is. */
  predicate Supersedes(parts: seq<RawPart>, part: RawPart) {
    && DedupeId(part).Some?
    && Preferred(parts, DedupeId(part).value).Some?
    && IsDynamic(Preferred(parts, DedupeId(part).value).value)
    && !IsDynamic(part)
  }

  lemma PreferredGrows(parts: seq<RawPart>, part: RawPart, id: string)
    requires !Supersedes(parts, part) && Preferred(parts, id).Some?
    ensures Preferred(parts + [part], id) == Preferred(parts, id)
  {
    assert (parts + [part])[..|parts|] == parts;
  }

  lemma {:induction false} KeptGrows(parts: seq<RawPart>, part: RawPart, upTo: nat)
    requires upTo <= |parts| && !Supersedes(parts, part)
    ensures KeptOf(parts + [part], parts[..upTo]) == KeptOf(parts, parts[..upTo])
    decreases upTo
  {
    hide Supersedes, Preferred, DedupeId;
    if upTo > 0 {
      KeptGrows(parts, part, upTo - 1);
      assert parts[..upTo][..upTo - 1] == parts[..upTo - 1];
      var last := parts[upTo - 1];
      if DedupeId(last).Some? {
        PreferredHasId(parts, DedupeId(last).value);
        PreferredGrows(parts, part, DedupeId(last).value);
      }
    }
  }

  lemma KeptSnoc(all: seq<RawPart>, parts: seq<RawPart>, part: RawPart)
    ensures KeptOf(all, parts + [part]) == KeptOf(all, parts) + if Keeps(all, parts, part) then [part] else []
  {
    assert (parts + [part])[..|parts|] == parts;
  }

  lemma DedupeGrows(parts: seq<RawPart>, part: RawPart)
    requires !Supersedes(parts, part)
    ensures Dedupe(parts) <= Dedupe(parts + [part]) && |Dedupe(parts + [part])| <= |Dedupe(parts)| + 1
  {
    hide Supersedes, Keeps, KeptOf;
    KeptGrows(parts, part, |parts|);
    assert parts[..|parts|] == parts;
    KeptSnoc(parts + [part], parts, part);
  }

  lemma {:induction false} KeptHas(all: seq<RawPart>, parts: seq<RawPart>, p: RawPart)
    ensures p in KeptOf(all, parts) ==>
              p in parts && (DedupeId(p).Some? ==> Preferred(all, DedupeId(p).value) == Some(p))
    ensures DedupeId(p).Some? && p in parts && Preferred(all, DedupeId(p).value) == Some(p) ==> p in KeptOf(all, parts)
    decreases |parts|
  {
    hide Preferred, DedupeId;
    if parts != [] {
      var before, last := parts[..|parts| - 1], parts[|parts| - 1];
      KeptHas(all, before, p);
      assert parts == before + [last];
    }
  }

  /** Appending a part keeps everything shown so far exactly when it does not supersede an earlier part. */
  lemma DedupeGrowsIff(parts: seq<RawPart>, part: RawPart)
    ensures Dedupe(parts) <= Dedupe(parts + [part]) <==> !Supersedes(parts, part)
  {
    hide KeptOf, DedupeId, IsDynamic;
    if Supersedes(parts, part) {
      var id := DedupeId(part).value;
      var shown := Preferred(parts, id).value;
      PreferredHasId(parts, id);
      KeptHas(parts, parts, shown);
      assert (parts + [part])[..|parts|] == parts;
      assert Preferred(parts + [part], id) == Some(part);
      KeptHas(parts + [part], parts + [part], shown);
      assert shown in Dedupe(parts) && shown !in Dedupe(parts + [part]);
    } else {
      DedupeGrows(parts, part);
    }
  }

  // ----- Blocks under one more part -----

  /** The same block, or one that shows more of the same kind under the same id. */
  predicate Continues(shown: Block, block: Block) {
    && block.id == shown.id
    && FlatBlock(shown) <= FlatBlock(block)
    && (shown.Process? <==> block.Process?)
    && (shown.Prose? <==> block.Prose?)
  }

  /** All blocks but the last are unchanged, the last continues, and new blocks come after it. */
  ghost predicate Extends(shown: seq<Block>, blocks: seq<Block>) {
    && |shown| <= |blocks|
    && (forall k :: 0 <= k < |shown| - 1 ==> blocks[k] == shown[k])
    && (shown != [] ==> Continues(shown[|shown| - 1], blocks[|shown| - 1]))
  }

  lemma ContinuesTrans(a: Block, b: Block, c: Block)
    requires Continues(a, b) && Continues(b, c)
    ensures Continues(a, c)
  {
  }

  lemma ExtendsTrans(a: seq<Block>, b: seq<Block>, c: seq<Block>)
    requires Extends(a, b) && Extends(b, c)
    ensures Extends(a, c)
  {
    hide Continues;
    if a != [] {
      var k := |a| - 1;
      if k < |b| - 1 {
        assert c[k] == b[k];
      } else {
        ContinuesTrans(a[k], b[k], c[k]);
      }
    }
  }

  lemma ExtendsMore(blocks: seq<Block>, more: seq<Block>)
    ensures Extends(blocks, blocks + more)
  {
    hide FlatBlock;
  }

  lemma ItemsContinue(items: seq<ProcessItem>, part: RawPart, id: string)
    requires items != []
    ensures Continues(Process(id, items), Process(id, items + [Thought(part)]))
    ensures Continues(Process(id, items), Process(id, AppendCall(items, ToolNameOf(part), part)))
  {
    hide ToolNameOf, FlatItems;
    FlatItemsSnoc(items, Thought(part));
    CallFlat(items, ToolNameOf(part), part);
  }

  lemma TextExtends(b: Builder, text: string)
    ensures Extends(b.blocks, AppendText(b, text).blocks)
  {
    var n := |b.blocks|;
    if text != "" && n > 0 && b.blocks[n - 1].Prose? {
      CharsAppend(b.blocks[n - 1].text, text);
    } else if text != "" {
      ExtendsMore(b.blocks, [Prose(TextId(b.messageId, b.textOrdinal + 1), text)]);
    } else {
      ExtendsMore(b.blocks, []);
      assert b.blocks + [] == b.blocks;
    }
  }

  lemma ItemsExtend(b: Builder, items: seq<ProcessItem>)
    requires items != []
    requires b.items != [] ==> forall id :: Continues(Process(id, b.items), Process(id, items))
    ensures Extends(FlushProcess(b).blocks, FlushProcess(b.(items := items)).blocks)
  {
    hide FlatBlock, ProcessId;
    var id := ProcessId(b.messageId, b.processOrdinal + 1);
    assert FlushProcess(b.(items := items)).blocks == b.blocks + [Process(id, items)];
    if b.items == [] {
      ExtendsMore(b.blocks, [Process(id, items)]);
    } else {
      assert Continues(Process(id, b.items), Process(id, items));
      hide Continues;
    }
  }

  /** Flushed after any one more part, the blocks extend those flushed before it. */
  lemma PlaceExtends(b: Builder, part: RawPart)
    ensures Extends(FlushProcess(b).blocks, FlushProcess(Place(b, part)).blocks)
  {
    var flushed := FlushProcess(b);
    assert part.text.Some? ==> AppendText(flushed, part.text.value).items == flushed.items;
    hide IsToolPart, InteractionOf, ToolNameOf, DataOf, AppendText, Extends, Continues, InteractionId, FlatBlock;
    if part.kind == "text" && part.text.Some? {
      TextExtends(flushed, part.text.value);
    } else if InteractionOf(part).Some? {
      ExtendsMore(flushed.blocks, [Interact(InteractionId(flushed.messageId, flushed.interactionOrdinal + 1),
                                            InteractionOf(part).value, DataOf(part))]);
    } else if part.kind == "reasoning" {
      if b.items != [] {
        forall id ensures Continues(Process(id, b.items), Process(id, b.items + [Thought(part)])) {
          ItemsContinue(b.items, part, id);
        }
      }
      ItemsExtend(b, b.items + [Thought(part)]);
    } else if IsToolPart(part) {
      if b.items != [] {
        forall id ensures Continues(Process(id, b.items), Process(id, AppendCall(b.items, ToolNameOf(part), part))) {
          ItemsContinue(b.items, part, id);
        }
      }
      ItemsExtend(b, AppendCall(b.items, ToolNameOf(part), part));
    } else {
      ExtendsMore(flushed.blocks, []);
      assert flushed.blocks + [] == flushed.blocks;
    }
  }

  lemma {:induction false} PlacedExtends(parts: seq<RawPart>, more: seq<RawPart>, messageId: string)
    ensures Extends(FlushProcess(Placed(parts, messageId)).blocks, FlushProcess(Placed(parts + more, messageId)).blocks)
    decreases |more|
  {
    hide FlushProcess, Place, Extends;
    if more == [] {
      assert parts + more == parts;
      var blocks := FlushProcess(Placed(parts, messageId)).blocks;
      ExtendsMore(blocks, []);
      assert blocks + [] == blocks;
    } else {
      var init, last := more[..|more| - 1], more[|more| - 1];
      PlacedExtends(parts, init, messageId);
      assert (parts + more)[..|parts + more| - 1] == parts + init;
      PlaceExtends(Placed(parts + init, messageId), last);
      ExtendsTrans(FlushProcess(Placed(parts, messageId)).blocks,
                   FlushProcess(Placed(parts + init, messageId)).blocks,
                   FlushProcess(Placed(parts + more, messageId)).blocks);
    }
  }

  /** No part of `more`, at the moment it arrives, supersedes an earlier one. */
  ghost predicate Steady(parts: seq<RawPart>, more: seq<RawPart>) {
    forall k :: 0 <= k < |more| ==> !Supersedes(parts + more[..k], more[k])
  }

  lemma {:induction false} DedupeSteady(parts: seq<RawPart>, more: seq<RawPart>)
    requires Steady(parts, more)
    ensures Dedupe(parts) <= Dedupe(parts + more)
    decreases |more|
  {
    hide Dedupe, Supersedes;
    if more == [] {
      assert parts + more == parts;
    } else {
      var init, last := more[..|more| - 1], more[|more| - 1];
      forall k | 0 <= k < |init| ensures !Supersedes(parts + init[..k], init[k]) {
        assert init[..k] == more[..k];
      }
      DedupeSteady(parts, init);
      DedupeGrows(parts + init, last);
      assert parts + init + [last] == parts + more;
    }
  }

  /**
   * However many parts arrive, as long as none supersedes an earlier one: every block but the last stays,
   * the last one continues under its id, and the old ids are a prefix of the new.
   */
  lemma StreamingIsStable(parts: seq<RawPart>, more: seq<RawPart>, messageId: string)
    requires Steady(parts, more)
    ensures var shown, blocks := Build(parts, messageId), Build(parts + more, messageId);
      && Extends(shown, blocks)
      && forall k :: 0 <= k < |shown| ==> blocks[k].id == shown[k].id
  {
    hide Dedupe, Placed, FlushProcess, Supersedes, FlatBlock;
    DedupeSteady(parts, more);
    var kept, all := Dedupe(parts), Dedupe(parts + more);
    PlacedExtends(kept, all[|kept|..], messageId);
    assert kept + all[|kept|..] == all;
  }

  // ----- The last text part grows -----

  lemma TextKept(parts: seq<RawPart>, part: RawPart)
    requires part.kind == "text"
    ensures Dedupe(parts + [part]) == Dedupe(parts) + [part]
  {
    hide KeptOf, Preferred;
    KeptGrows(parts, part, |parts|);
    assert parts[..|parts|] == parts;
    KeptSnoc(parts + [part], parts, part);
  }

  lemma TextBuilt(parts: seq<RawPart>, part: RawPart, messageId: string)
    requires part.kind == "text" && part.text.Some?
    ensures Build(parts + [part], messageId)
         == AppendText(FlushProcess(Placed(Dedupe(parts), messageId)), part.text.value).blocks
  {
    TextKept(parts, part);
    var kept := Dedupe(parts);
    assert (kept + [part])[..|kept|] == kept;
    hide Dedupe;
    var flushed := FlushProcess(Placed(kept, messageId));
    assert AppendText(flushed, part.text.value).items == [];
  }

  lemma LongerTextExtends(b: Builder, text: string, more: string)
    ensures Extends(AppendText(b, text).blocks, AppendText(b, text + more).blocks)
  {
    var n := |b.blocks|;
    if text == "" {
      assert text + more == more;
      TextExtends(b, more);
    } else if n > 0 && b.blocks[n - 1].Prose? {
      var before := b.blocks[n - 1].text;
      assert before + (text + more) == (before + text) + more;
      CharsAppend(before + text, more);
    } else {
      CharsAppend(text, more);
    }
  }

  /**
   * While the text of the last part grows in place, and parts then follow as above, the blocks shown before stay in
   * the same way.
   */
  lemma GrowingTextIsStable(parts: seq<RawPart>, last: RawPart, grown: RawPart, more: seq<RawPart>, messageId: string)
    requires last.kind == "text" && grown.kind == "text" && last.text.Some? && grown.text.Some?
    requires last.text.value <= grown.text.value && Steady(parts + [grown], more)
    ensures var shown, blocks := Build(parts + [last], messageId), Build(parts + [grown] + more, messageId);
      && Extends(shown, blocks)
      && forall k :: 0 <= k < |shown| ==> blocks[k].id == shown[k].id
  {
    hide Dedupe, Placed, FlushProcess, AppendText, Supersedes, FlatBlock, Build, Extends;
    var b, text := FlushProcess(Placed(Dedupe(parts), messageId)), last.text.value;
    TextBuilt(parts, last, messageId);
    TextBuilt(parts, grown, messageId);
    assert grown.text.value == text + grown.text.value[|text|..];
    LongerTextExtends(b, text, grown.text.value[|text|..]);
    StreamingIsStable(parts + [grown], more, messageId);
    ExtendsTrans(Build(parts + [last], messageId), Build(parts + [grown], messageId),
                 Build(parts + [grown] + more, messageId));
    ExtendsIds(Build(parts + [last], messageId), Build(parts + [grown] + more, messageId));
  }

  lemma ExtendsIds(shown: seq<Block>, blocks: seq<Block>)
    requires Extends(shown, blocks)
    ensures |shown| <= |blocks| && forall k :: 0 <= k < |shown| ==> blocks[k].id == shown[k].id
  {
    hide FlatBlock;
  }
}
