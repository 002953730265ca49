/** The structural edits of the AI summary view. Each takes the current
    document and returns the document handed to `onSummaryChange`, together
    with whatever the handler then selects or focuses. */
module Mutations {
  import opened Wrappers
  import opened Strings
  import opened Document

  /** Two documents with the same keys, in the same order, whose sections
      hold blocks with the same ids in the same order. */
  predicate SameShape(a: Summary, b: Summary)
  {
    && |a| == |b|
    && (forall i :: 0 <= i < |a| ==> a[i].key == b[i].key)
    && (forall i :: 0 <= i < |a| ==> SameIds(a[i].section.blocks, b[i].section.blocks))
  }

  predicate SameIds(a: seq<Block>, b: seq<Block>)
  {
    |a| == |b| && forall j :: 0 <= j < |a| ==> a[j].id == b[j].id
  }

  /** An edit that keeps the shape keeps the flattened order, so the
      selection, navigation and ranges see the same blocks. */
  lemma SameShapeFlatten(a: Summary, b: Summary)
    requires SameShape(a, b)
    ensures Flatten(a) == Flatten(b)
    ensures KeyedIds(a) <==> KeyedIds(b)
    ensures UniqueKeys(a) <==> UniqueKeys(b)
  {
    SameShapeSameFlat(a, b);
    assert forall i :: 0 <= i < |a| ==> a[i].key == b[i].key;
    assert forall i :: 0 <= i < |a| ==> KeyedBlocks(a[i].key, a[i].section.blocks) == KeyedBlocks(b[i].key, b[i].section.blocks);
  }

  lemma {:induction false} SameShapeSameFlat(a: Summary, b: Summary)
    requires SameShape(a, b)
    ensures Flatten(a) == Flatten(b)
  {
    if |a| > 0 {
      var n := |a| - 1;
      SameShapeSameFlat(a[..n], b[..n]);
      assert SectionFlat(a[n].key, a[n].section.blocks) == SectionFlat(b[n].key, b[n].section.blocks);
    }
  }

  // ---------------------------------------------------------------------
  // Content, type and title
  // ---------------------------------------------------------------------

  /** The `map` of `handleBlockChange`: every block with this id gets the new
      content, every other block stays. */
  function SetContent(blocks: seq<Block>, id: string, content: string): (r: seq<Block>)
    ensures SameIds(blocks, r)
    ensures forall j :: 0 <= j < |blocks| ==>
              r[j] == if blocks[j].id == id then blocks[j].(content := content) else blocks[j]
  {
    seq(|blocks|, j requires 0 <= j < |blocks| =>
      if blocks[j].id == id then blocks[j].(content := content) else blocks[j])
  }

  /** The `map` of `handleBlockTypeChange`. */
  function SetKind(blocks: seq<Block>, id: string, kind: BlockKind): (r: seq<Block>)
    ensures SameIds(blocks, r)
    ensures forall j :: 0 <= j < |blocks| ==>
              r[j] == if blocks[j].id == id then blocks[j].(kind := kind) else blocks[j]
  {
    seq(|blocks|, j requires 0 <= j < |blocks| =>
      if blocks[j].id == id then blocks[j].(kind := kind) else blocks[j])
  }

  /** `handleBlockChange(sectionKey, blockId, content)`: in the named section
      the blocks with this id get the new content; their id, type and color,
      every other block, the title and every other section stay. The source
      reads `summary[sectionKey].blocks`, so the key must exist. */
  function ChangeContent(doc: Summary, key: string, id: string, content: string): (r: Summary)
    requires UniqueKeys(doc) && HasKey(doc, key)
    ensures SameShape(doc, r) && UniqueKeys(r)
    ensures forall i :: 0 <= i < |doc| && doc[i].key != key ==> r[i] == doc[i]
    ensures forall i :: 0 <= i < |doc| && doc[i].key == key ==>
              r[i].section.title == doc[i].section.title
              && forall j :: 0 <= j < |doc[i].section.blocks| ==>
                   var b := doc[i].section.blocks[j];
                   r[i].section.blocks[j] == if b.id == id then b.(content := content) else b
  {
    var i := KeyIndex(doc, key).value;
    var section := doc[i].section;
    var r := Update(doc, i, section.(blocks := SetContent(section.blocks, id, content)));
    UpdateKeepsUniqueKeys(doc, i, section.(blocks := SetContent(section.blocks, id, content)));
    r
  }

  /** The scan the type, Enter and delete handlers start with: the first
      section in entry order holding a block with this id, and that block's
      first position. A hit in a section whose key is the empty string is
      treated as a miss, because the handlers then test the key for
      truthiness and return. */
  function Owner(doc: Summary, id: string): (r: Option<Location>)
    ensures r.Some? <==> Locate(doc, id).Some? && doc[Locate(doc, id).value.sectionIndex].key != ""
    ensures r.Some? ==> r == Locate(doc, id) && ValidLocation(doc, r.value)
    ensures r.Some? ==> doc[r.value.sectionIndex].section.blocks[r.value.blockIndex].id == id
  {
    match Locate(doc, id)
    case None => None
    case Some(loc) => if doc[loc.sectionIndex].key == "" then None else Some(loc)
  }

  /** `handleBlockTypeChange(blockId, type)`: in the first section holding the
      block, the blocks with this id get the new type and nothing else
      changes; an id that is in no section changes nothing. */
  function ChangeType(doc: Summary, id: string, kind: BlockKind): (r: Summary)
    requires UniqueKeys(doc)
    ensures SameShape(doc, r) && UniqueKeys(r)
    ensures Owner(doc, id).None? ==> r == doc
    ensures Owner(doc, id).Some? ==>
              var s := Owner(doc, id).value.sectionIndex;
              && (forall i :: 0 <= i < |doc| && i != s ==> r[i] == doc[i])
              && r[s].section.title == doc[s].section.title
              && forall j :: 0 <= j < |doc[s].section.blocks| ==>
                   var b := doc[s].section.blocks[j];
                   r[s].section.blocks[j] == if b.id == id then b.(kind := kind) else b
  {
    match Owner(doc, id)
    case None => doc
    case Some(loc) =>
      var i := loc.sectionIndex;
      var section := doc[i].section;
      UpdateKeepsUniqueKeys(doc, i, section.(blocks := SetKind(section.blocks, id, kind)));
      Update(doc, i, section.(blocks := SetKind(section.blocks, id, kind)))
  }

  /** `handleTitleChange(sectionKey, title)`: only that section's title
      changes. The source spreads `summary[sectionKey]`, so the key must
      exist. */
  function ChangeTitle(doc: Summary, key: string, title: string): (r: Summary)
    requires UniqueKeys(doc) && HasKey(doc, key)
    ensures SameShape(doc, r) && UniqueKeys(r)
    ensures forall i :: 0 <= i < |doc| && doc[i].key != key ==> r[i] == doc[i]
    ensures forall i :: 0 <= i < |doc| && doc[i].key == key ==>
              r[i].section == doc[i].section.(title := title)
    ensures Get(r, key) == Some(Get(doc, key).value.(title := title))
  {
    var i := KeyIndex(doc, key).value;
    UpdateKeepsUniqueKeys(doc, i, doc[i].section.(title := title));
    Update(doc, i, doc[i].section.(title := title))
  }

  // ---------------------------------------------------------------------
  // Enter: split
  // ---------------------------------------------------------------------

  /** `r` is `doc` with only the section at `s` given new blocks: same keys in
      the same order, every other section and this section's title as they
      were. */
  predicate OnlyBlocksOfChanged(doc: Summary, r: Summary, s: nat)
  {
    && s < |doc| && |r| == |doc| && Keys(r) == Keys(doc)
    && (forall i :: 0 <= i < |doc| && i != s ==> r[i] == doc[i])
    && r[s].section.title == doc[s].section.title
  }

  /** Replacing one section's blocks by blocks that all carry that section's
      key keeps every id keyed. */
  lemma KeyedUpdate(doc: Summary, s: nat, blocks: seq<Block>)
    requires s < |doc| && KeyedIds(doc) && KeyedBlocks(doc[s].key, blocks)
    ensures KeyedIds(Update(doc, s, doc[s].section.(blocks := blocks)))
  {
  }

  /** The block Enter inserts after `source`: a bullet after a bullet, text
      after anything else, the source's color or 'default' when it has none. */
  function NewBlockAfter(source: Block, id: string, content: string): (b: Block)
    ensures b.id == id && b.content == content
    ensures b.kind == if source.kind == Bullet then Bullet else Text
    ensures b.color == if source.color == "" then "default" else source.color
  {
    Block(id, if source.kind == Bullet then Bullet else Text, content,
          if source.color == "" then "default" else source.color)
  }

  /** `blocks.splice(k, 0, b)`. */
  function InsertAt(blocks: seq<Block>, k: nat, b: Block): (r: seq<Block>)
    requires k <= |blocks|
    ensures |r| == |blocks| + 1
    ensures forall j :: 0 <= j < |r| ==> r[j] == if j < k then blocks[j] else if j == k then b else blocks[j - 1]
  {
    blocks[..k] + [b] + blocks[k..]
  }

  /** `blocks.splice(k, 1)`. */
  function RemoveAt(blocks: seq<Block>, k: nat): (r: seq<Block>)
    requires k < |blocks|
    ensures |r| == |blocks| - 1
    ensures forall j :: 0 <= j < |r| ==> r[j] == if j < k then blocks[j] else blocks[j + 1]
  {
    blocks[..k] + blocks[k + 1..]
  }

  datatype SplitResult = SplitResult(doc: Summary, newId: string)

  /** The Enter branch of `handleKeyDown`: a block whose content is the text
      the block component left in its `newBlockContent` field is spliced in
      right after the source block, in the source's section. The source
      block itself is not edited. The new id is `generateUniqueId(key)` with a
      caller-supplied stamp. An id in no section changes nothing. */
  function SplitBlock(doc: Summary, id: string, stamp: string, newContent: string): (r: Option<SplitResult>)
    requires UniqueKeys(doc)
    ensures r.None? <==> Owner(doc, id).None?
    ensures r.Some? ==>
              var loc := Owner(doc, id).value;
              var before := doc[loc.sectionIndex].section.blocks;
              && OnlyBlocksOfChanged(doc, r.value.doc, loc.sectionIndex)
              && r.value.newId == GeneratedId(doc[loc.sectionIndex].key, stamp)
              && r.value.doc[loc.sectionIndex].section.blocks
                 == InsertAt(before, loc.blockIndex + 1, NewBlockAfter(before[loc.blockIndex], r.value.newId, newContent))
  {
    match Owner(doc, id)
    case None => None
    case Some(loc) =>
      var section := doc[loc.sectionIndex].section;
      var newId := GeneratedId(doc[loc.sectionIndex].key, stamp);
      var blocks := InsertAt(section.blocks, loc.blockIndex + 1,
                             NewBlockAfter(section.blocks[loc.blockIndex], newId, newContent));
      Some(SplitResult(Update(doc, loc.sectionIndex, section.(blocks := blocks)), newId))
  }

  /** A split keeps the keys distinct and every id keyed. */
  lemma SplitKeeps(doc: Summary, id: string, stamp: string, newContent: string)
    requires UniqueKeys(doc) && Owner(doc, id).Some?
    ensures var r := SplitBlock(doc, id, stamp, newContent).value;
            UniqueKeys(r.doc) && (KeyedIds(doc) ==> KeyedIds(r.doc))
  {
    var loc := Owner(doc, id).value;
    var s := loc.sectionIndex;
    var r := SplitBlock(doc, id, stamp, newContent).value;
    UpdateKeepsUniqueKeys(doc, s, r.doc[s].section);
    if KeyedIds(doc) {
      var blocks := r.doc[s].section.blocks;
      forall j | 0 <= j < |blocks| ensures Contains(blocks[j].id, doc[s].key) {
        if j < loc.blockIndex + 1 {
          assert blocks[j] == doc[s].section.blocks[j];
        } else if j > loc.blockIndex + 1 {
          assert blocks[j] == doc[s].section.blocks[j - 1];
        }
      }
      KeyedUpdate(doc, s, blocks);
    }
  }

  /** In the flattened order that up/down navigation walks, the new block
      comes right after the block Enter was pressed in. */
  lemma SplitPlacesAfter(doc: Summary, id: string, stamp: string, newContent: string)
    requires UniqueKeys(doc) && Owner(doc, id).Some?
    ensures var r := SplitBlock(doc, id, stamp, newContent).value;
            var loc := Owner(doc, id).value;
            var at := TotalBlocks(doc[..loc.sectionIndex]) + loc.blockIndex;
            && at + 1 < |FlatIds(r.doc)|
            && FlatIds(r.doc)[at] == id
            && FlatIds(r.doc)[at + 1] == r.newId
  {
    var loc := Owner(doc, id).value;
    var s, k := loc.sectionIndex, loc.blockIndex;
    var r := SplitBlock(doc, id, stamp, newContent).value;
    var before := doc[s].section.blocks;
    var blocks := r.doc[s].section.blocks;
    assert blocks == InsertAt(before, k + 1, NewBlockAfter(before[k], r.newId, newContent));
    assert blocks[k] == before[k];
    assert blocks[k + 1].id == r.newId;
    AdjacentInFlat(doc, r.doc, s, k);
  }

  /** Blocks `k` and `k + 1` of section `s` are adjacent in the flattened
      order, at a position that only depends on the sections before `s`. */
  lemma AdjacentInFlat(doc: Summary, d: Summary, s: nat, k: nat)
    requires s < |doc| == |d| && k + 1 < |d[s].section.blocks|
    requires forall i :: 0 <= i < s ==> d[i] == doc[i]
    ensures var at := TotalBlocks(doc[..s]) + k;
            && at + 1 < |FlatIds(d)|
            && FlatIds(d)[at] == d[s].section.blocks[k].id
            && FlatIds(d)[at + 1] == d[s].section.blocks[k + 1].id
  {
    assert d[..s] == doc[..s];
    FlatIdsAt(d, s, k);
    FlatIdsAt(d, s, k + 1);
  }

  /** The flattened position of the block at index `k` of section `s`. */
  lemma FlatIdsAt(doc: Summary, s: nat, k: nat)
    requires s < |doc| && k < |doc[s].section.blocks|
    ensures TotalBlocks(doc[..s]) + k < |FlatIds(doc)|
    ensures FlatIds(doc)[TotalBlocks(doc[..s]) + k] == doc[s].section.blocks[k].id
  {
    FlattenAt(doc, s, k);
  }

  /** A split adds exactly one block to the document. */
  lemma SplitAddsOneBlock(doc: Summary, id: string, stamp: string, newContent: string)
    requires UniqueKeys(doc) && Owner(doc, id).Some?
    ensures TotalBlocks(SplitBlock(doc, id, stamp, newContent).value.doc) == TotalBlocks(doc) + 1
  {
    var s := Owner(doc, id).value.sectionIndex;
    var d := SplitBlock(doc, id, stamp, newContent).value.doc;
    TotalAround(doc, s);
    TotalAround(d, s);
    assert d[..s] == doc[..s];
    assert d[s + 1..] == doc[s + 1..];
  }

  /** The block count of a document, split around one section. */
  lemma TotalAround(doc: Summary, s: nat)
    requires s < |doc|
    ensures TotalBlocks(doc) == TotalBlocks(doc[..s]) + |doc[s].section.blocks| + TotalBlocks(doc[s + 1..])
  {
    assert doc == doc[..s] + [doc[s]] + doc[s + 1..];
    FlattenAppend(doc[..s] + [doc[s]], doc[s + 1..]);
    FlattenAppend(doc[..s], [doc[s]]);
    assert [doc[s]][..0] == [];
  }

  /** Enter on the one text block "Hello" of an Agenda section with the
      remainder "World" gives two blocks, "Hello" and then a text block
      "World" with the default color. */
  lemma SplitExample()
    ensures var doc := [Entry("Agenda", Section("Agenda", [Block("b1", Text, "Hello", "")]))];
            var r := SplitBlock(doc, "b1", "1", "World");
            && r.Some?
            && r.value.doc == [Entry("Agenda", Section("Agenda", [Block("b1", Text, "Hello", ""),
                                                                  Block("Agenda-1", Text, "World", "default")]))]
  {
    var doc := [Entry("Agenda", Section("Agenda", [Block("b1", Text, "Hello", "")]))];
    assert doc[0].section.blocks[0].id == "b1";
    var loc := Owner(doc, "b1").value;
    assert loc == Location(0, 0);
    var r := SplitBlock(doc, "b1", "1", "World").value;
    assert r.newId == "Agenda-1";
    var blocks := r.doc[0].section.blocks;
    assert |blocks| == 2;
    assert blocks[0] == Block("b1", Text, "Hello", "");
    assert blocks[1] == Block("Agenda-1", Text, "World", "default");
    assert blocks == [Block("b1", Text, "Hello", ""), Block("Agenda-1", Text, "World", "default")];
  }

  // ---------------------------------------------------------------------
  // Backspace/Delete on one block: merge into the previous one, or remove
  // ---------------------------------------------------------------------

  /** What `handleBlockDelete` leaves behind: the new document, the block it
      then selects (none when the section is left empty), and, after a merge,
      the cursor offset inside that block. */
  datatype DeleteResult = DeleteResult(doc: Summary, select: Option<string>, cursor: Option<nat>)

  /** `handleBlockDelete(blockId, mergeContent)`. With a non-empty
      `mergeContent` and a previous block in the same section, that text is
      appended to the previous block, the block goes, the previous block is
      selected and the cursor goes where the two texts meet. Otherwise the
      block just goes and the block now at `max(0, index - 1)` is selected,
      or nothing when the section is empty. An id in no section changes
      nothing. */
  function DeleteBlock(doc: Summary, id: string, mergeContent: string): (r: Option<DeleteResult>)
    requires UniqueKeys(doc)
    ensures r.None? <==> Owner(doc, id).None?
    ensures r.Some? ==>
              var loc := Owner(doc, id).value;
              && OnlyBlocksOfChanged(doc, r.value.doc, loc.sectionIndex)
              && DeleteOutcome(doc[loc.sectionIndex].section.blocks, loc.blockIndex, mergeContent,
                               r.value.doc[loc.sectionIndex].section.blocks, r.value.select, r.value.cursor)
  {
    match Owner(doc, id)
    case None => None
    case Some(loc) =>
      var section := doc[loc.sectionIndex].section;
      var d := DeleteAt(section.blocks, loc.blockIndex, mergeContent);
      var after := Update(doc, loc.sectionIndex, section.(blocks := d.0));
      assert after[loc.sectionIndex].section.blocks == d.0;
      Some(DeleteResult(after, d.1, d.2))
  }

  /** The deletion on the block list of the owning section: the new list, the
      block to select and the cursor offset in it. */
  function DeleteAt(blocks: seq<Block>, k: nat, mergeContent: string): (r: (seq<Block>, Option<string>, Option<nat>))
    requires k < |blocks|
    ensures DeleteOutcome(blocks, k, mergeContent, r.0, r.1, r.2)
  {
    if mergeContent != "" && k > 0 then
      var previous := blocks[k - 1];
      (MergeBack(blocks, k, mergeContent), Some(previous.id), Some(Utf16Length(previous.content)))
    else
      var rest := RemoveAt(blocks, k);
      (rest, if |rest| > 0 then Some(rest[if k > 0 then k - 1 else 0].id) else None, None)
  }

  /** The merge on the block list: the block before `k` gets `mergeContent`
      appended and the block at `k` goes. */
  function MergeBack(blocks: seq<Block>, k: nat, mergeContent: string): (r: seq<Block>)
    requires 0 < k < |blocks|
    ensures |r| == |blocks| - 1
    ensures forall j :: 0 <= j < |r| ==>
              r[j] == if j < k - 1 then blocks[j]
                      else if j == k - 1 then blocks[k - 1].(content := blocks[k - 1].content + mergeContent)
                      else blocks[j + 1]
  {
    RemoveAt(blocks[k - 1 := blocks[k - 1].(content := blocks[k - 1].content + mergeContent)], k)
  }

  /** What deleting the block at `k` of `before` with `mergeContent` leaves:
      the list `after`, the selected id and the cursor offset. */
  predicate DeleteOutcome(before: seq<Block>, k: nat, mergeContent: string,
                          after: seq<Block>, select: Option<string>, cursor: Option<nat>)
  {
    && k < |before|
    && |after| == |before| - 1
    && (forall j :: k <= j < |after| ==> after[j] == before[j + 1])
    && (if mergeContent != "" && k > 0 then
          && (forall j :: 0 <= j < k - 1 ==> after[j] == before[j])
          && after[k - 1] == before[k - 1].(content := before[k - 1].content + mergeContent)
          && select == Some(before[k - 1].id)
          && cursor == Some(Utf16Length(before[k - 1].content))
        else
          && (forall j :: 0 <= j < k ==> after[j] == before[j])
          && cursor == None
          && select == (if |after| == 0 then None else Some(after[if k > 0 then k - 1 else 0].id)))
  }

  /** Deleting a block keeps the keys distinct and every id keyed, and takes
      exactly that block's id out of its section when it was there once. */
  lemma DeleteKeeps(doc: Summary, id: string, mergeContent: string)
    requires UniqueKeys(doc) && Owner(doc, id).Some?
    ensures var r := DeleteBlock(doc, id, mergeContent).value;
            && UniqueKeys(r.doc)
            && (KeyedIds(doc) ==> KeyedIds(r.doc))
  {
    var loc := Owner(doc, id).value;
    var s, k := loc.sectionIndex, loc.blockIndex;
    var r := DeleteBlock(doc, id, mergeContent).value;
    assert OnlyBlocksOfChanged(doc, r.doc, s);
    UpdateKeepsUniqueKeys(doc, s, r.doc[s].section);
    assert r.doc == Update(doc, s, r.doc[s].section);
    if KeyedIds(doc) {
      var after := r.doc[s].section.blocks;
      DeleteOutcomeKeyed(doc[s].section.blocks, k, mergeContent, after, r.select, r.cursor, doc[s].key);
      KeyedUpdate(doc, s, after);
    }
  }

  /** Every block a deletion leaves was a block before, up to its content,
      so the ids stay keyed. */
  lemma DeleteOutcomeKeyed(before: seq<Block>, k: nat, mergeContent: string,
                           after: seq<Block>, select: Option<string>, cursor: Option<nat>, key: string)
    requires DeleteOutcome(before, k, mergeContent, after, select, cursor) && KeyedBlocks(key, before)
    ensures KeyedBlocks(key, after)
  {
    forall j | 0 <= j < |after| ensures Contains(after[j].id, key) {
      if j >= k {
        assert after[j] == before[j + 1];
      } else if mergeContent != "" && k > 0 && j == k - 1 {
        assert after[j].id == before[j].id;
      } else {
        assert after[j] == before[j];
      }
    }
  }

  /** Merging or removing takes exactly one block out of the document. */
  lemma DeleteRemovesOneBlock(doc: Summary, id: string, mergeContent: string)
    requires UniqueKeys(doc) && Owner(doc, id).Some?
    ensures TotalBlocks(DeleteBlock(doc, id, mergeContent).value.doc) == TotalBlocks(doc) - 1
  {
    var s := Owner(doc, id).value.sectionIndex;
    var d := DeleteBlock(doc, id, mergeContent).value.doc;
    TotalAround(doc, s);
    TotalAround(d, s);
    assert d[..s] == doc[..s];
    assert d[s + 1..] == doc[s + 1..];
  }

  /** A merge loses no text: the previous block now reads its old content
      followed by the merged text, and the cursor sits after the old content,
      counted in UTF-16 code units as JavaScript's `length` counts; when that
      content has no character above the Basic Multilingual Plane the offset
      is also the character index that splits the two texts. */
  lemma MergeKeepsText(doc: Summary, id: string, mergeContent: string)
    requires UniqueKeys(doc) && Owner(doc, id).Some?
    requires mergeContent != "" && Owner(doc, id).value.blockIndex > 0
    ensures var loc := Owner(doc, id).value;
            var r := DeleteBlock(doc, id, mergeContent).value;
            var previous := doc[loc.sectionIndex].section.blocks[loc.blockIndex - 1];
            var merged := r.doc[loc.sectionIndex].section.blocks[loc.blockIndex - 1].content;
            && merged == previous.content + mergeContent
            && r.cursor == Some(Utf16Length(previous.content))
            && r.cursor.value <= Utf16Length(merged)
            && ((forall i :: 0 <= i < |previous.content| ==> previous.content[i] as int <= 0xFFFF) ==>
                  && merged[..r.cursor.value] == previous.content
                  && merged[r.cursor.value..] == mergeContent)
  {
    var loc := Owner(doc, id).value;
    var previous := doc[loc.sectionIndex].section.blocks[loc.blockIndex - 1];
    Utf16LengthAppend(previous.content, mergeContent);
  }

  // ---------------------------------------------------------------------
  // Deleting the selected blocks
  // ---------------------------------------------------------------------

  /** `blocks.filter(b => !ids.includes(b.id))`. */
  function FilterBlocks(blocks: seq<Block>, ids: seq<string>): (r: seq<Block>)
    ensures |r| <= |blocks|
    ensures forall j :: 0 <= j < |r| ==> r[j] in blocks && r[j].id !in ids
  {
    if |blocks| == 0 then []
    else
      var b := blocks[|blocks| - 1];
      FilterBlocks(blocks[..|blocks| - 1], ids) + (if b.id in ids then [] else [b])
  }

  /** Filtering keeps the order: the filter of two lists one after the other
      is the two filters one after the other. */
  lemma {:induction false} FilterBlocksAppend(a: seq<Block>, b: seq<Block>, ids: seq<string>)
    ensures FilterBlocks(a + b, ids) == FilterBlocks(a, ids) + FilterBlocks(b, ids)
    decreases |b|
  {
    if |b| > 0 {
      assert (a + b)[..|a + b| - 1] == a + b[..|b| - 1];
      FilterBlocksAppend(a, b[..|b| - 1], ids);
    } else {
      assert a + b == a;
    }
  }

  /** A block survives the filter exactly when its id is not one of `ids`. */
  lemma {:induction false} FilterBlocksKeeps(blocks: seq<Block>, ids: seq<string>, b: Block)
    requires b in blocks
    ensures b in FilterBlocks(blocks, ids) <==> b.id !in ids
  {
    if |blocks| > 0 {
      var front := blocks[..|blocks| - 1];
      if b in front {
        FilterBlocksKeeps(front, ids, b);
      }
    }
  }

  /** Only the blocks' own ids matter: two id lists that agree on them filter
      alike. */
  lemma {:induction false} FilterBlocksSameOn(blocks: seq<Block>, a: seq<string>, b: seq<string>)
    requires forall j :: 0 <= j < |blocks| ==> (blocks[j].id in a <==> blocks[j].id in b)
    ensures FilterBlocks(blocks, a) == FilterBlocks(blocks, b)
  {
    if |blocks| > 0 {
      FilterBlocksSameOn(blocks[..|blocks| - 1], a, b);
    }
  }

  /** A filter that matches no block removes nothing. */
  lemma {:induction false} FilterBlocksNone(blocks: seq<Block>, ids: seq<string>)
    requires forall j :: 0 <= j < |blocks| ==> blocks[j].id !in ids
    ensures FilterBlocks(blocks, ids) == blocks
  {
    if |blocks| > 0 {
      FilterBlocksNone(blocks[..|blocks| - 1], ids);
    }
  }

  /** The document after `handleDeleteSelectedBlocks`: every section keeps its
      key, position and title, and loses exactly the blocks whose id is
      selected. Sections left empty stay. */
  function RemoveIds(doc: Summary, ids: seq<string>): (r: Summary)
    ensures |r| == |doc| && Keys(r) == Keys(doc)
    ensures forall i :: 0 <= i < |doc| ==>
              r[i].section == doc[i].section.(blocks := FilterBlocks(doc[i].section.blocks, ids))
  {
    seq(|doc|, i requires 0 <= i < |doc| =>
      Entry(doc[i].key, doc[i].section.(blocks := FilterBlocks(doc[i].section.blocks, ids))))
  }

  /** Removing selected ids keeps unique keys and keyed ids, and no selected
      id is left in the document. */
  lemma RemoveIdsKeeps(doc: Summary, ids: seq<string>)
    ensures UniqueKeys(doc) ==> UniqueKeys(RemoveIds(doc, ids))
    ensures KeyedIds(doc) ==> KeyedIds(RemoveIds(doc, ids))
    ensures forall x :: x in ids ==> Locate(RemoveIds(doc, ids), x).None?
  {
    var r := RemoveIds(doc, ids);
    assert forall i :: 0 <= i < |doc| ==> r[i].key == doc[i].key;
    if KeyedIds(doc) {
      forall i, j | 0 <= i < |r| && 0 <= j < |r[i].section.blocks|
        ensures Contains(r[i].section.blocks[j].id, r[i].key)
      {
        var b := r[i].section.blocks[j];
        assert b in doc[i].section.blocks;
        var m :| 0 <= m < |doc[i].section.blocks| && doc[i].section.blocks[m] == b;
      }
    }
  }

  /** Selecting three blocks across two sections and deleting them removes
      those three and nothing else. */
  lemma RemoveIdsExample()
    ensures var a1 := Block("a-1", Text, "x", "default");
            var a2 := Block("a-2", Text, "y", "default");
            var b1 := Block("b-1", Bullet, "z", "default");
            var b2 := Block("b-2", Bullet, "w", "default");
            var doc := [Entry("a", Section("A", [a1, a2])), Entry("b", Section("B", [b1, b2]))];
            RemoveIds(doc, ["a-2", "b-1", "a-1"]) == [Entry("a", Section("A", [])), Entry("b", Section("B", [b2]))]
  {
    var a1 := Block("a-1", Text, "x", "default");
    var a2 := Block("a-2", Text, "y", "default");
    var b1 := Block("b-1", Bullet, "z", "default");
    var b2 := Block("b-2", Bullet, "w", "default");
    assert [a1, a2][..1] == [a1];
    assert [b1, b2][..1] == [b1];
    assert FilterBlocks([a1, a2], ["a-2", "b-1", "a-1"]) == [];
    assert FilterBlocks([b1, b2], ["a-2", "b-1", "a-1"]) == [b2];
  }

  /** The selected ids that name a block of `section`, in selection order:
      what the grouping loop pushes into that section's entry of
      `blocksBySection`. */
  function Group(section: Section, selected: seq<string>): (r: seq<string>)
    ensures forall x :: x in r <==> x in selected && InSection(section, x)
  {
    if |selected| == 0 then []
    else
      var x := selected[|selected| - 1];
      Group(section, selected[..|selected| - 1]) + (if InSection(section, x) then [x] else [])
  }

  /** `blocksBySection` with its insertion order: `order` names each key of
      `groups` once, and each is a key of the document. */
  predicate GroupsFormed(doc: Summary, groups: map<string, seq<string>>, order: seq<string>)
  {
    && (forall k :: k in order ==> k in groups)
    && (forall k :: k in groups ==> k in order)
    && (forall g :: 0 <= g < |order| ==> HasKey(doc, order[g]))
    && (forall a, b :: 0 <= a < b < |order| ==> order[a] != order[b])
  }

  /** Each section's group so far, for a given prefix of the selection. */
  predicate GroupsAre(doc: Summary, groups: map<string, seq<string>>, selected: seq<string>)
  {
    forall i :: 0 <= i < |doc| ==>
      && (doc[i].key in groups <==> Group(doc[i].section, selected) != [])
      && (doc[i].key in groups ==> groups[doc[i].key] == Group(doc[i].section, selected))
  }

  /** The inner `forEach` of the grouping: push `id` onto the group of every
      section holding a block with that id. */
  method PushToSections(doc: Summary, id: string, groups: map<string, seq<string>>, order: seq<string>)
    returns (groups': map<string, seq<string>>, order': seq<string>)
    requires UniqueKeys(doc) && GroupsFormed(doc, groups, order)
    ensures GroupsFormed(doc, groups', order')
    ensures forall i :: 0 <= i < |doc| ==>
              var had := if doc[i].key in groups then groups[doc[i].key] else [];
              && (doc[i].key in groups' <==> doc[i].key in groups || InSection(doc[i].section, id))
              && (doc[i].key in groups' ==> groups'[doc[i].key] == had + if InSection(doc[i].section, id) then [id] else [])
  {
    groups', order' := groups, order;
    var i := 0;
    while i < |doc|
      invariant 0 <= i <= |doc|
      invariant GroupsFormed(doc, groups', order') && PushedUpTo(doc, id, groups, groups', i)
    {
      PushStep(doc, id, groups, groups', order', i);
      if BlockIndex(doc[i].section.blocks, id) >= 0 {
        var key := doc[i].key;
        var blocks := if key in groups' then groups'[key] else [];
        if key !in groups' {
          order' := order' + [key];
        }
        groups' := groups'[key := blocks + [id]];
      }
      i := i + 1;
    }
  }

  /** The sections before `i` have `id` pushed onto their group when they
      hold it; the later ones keep the group they had. */
  predicate PushedUpTo(doc: Summary, id: string, groups: map<string, seq<string>>, groups': map<string, seq<string>>, i: nat)
  {
    forall m :: 0 <= m < |doc| ==>
      var had := if doc[m].key in groups then groups[doc[m].key] else [];
      var hit := m < i && InSection(doc[m].section, id);
      && (doc[m].key in groups' <==> doc[m].key in groups || hit)
      && (doc[m].key in groups' ==> groups'[doc[m].key] == had + if hit then [id] else [])
  }

  /** One iteration of the inner `forEach` keeps the groups well formed and
      handles section `i`. */
  lemma PushStep(doc: Summary, id: string, groups: map<string, seq<string>>,
                 groups': map<string, seq<string>>, order': seq<string>, i: nat)
    requires UniqueKeys(doc) && i < |doc|
    requires GroupsFormed(doc, groups', order') && PushedUpTo(doc, id, groups, groups', i)
    ensures var key := doc[i].key;
            var hit := BlockIndex(doc[i].section.blocks, id) >= 0;
            var blocks := if key in groups' then groups'[key] else [];
            var g := if hit then groups'[key := blocks + [id]] else groups';
            var o := if hit && key !in groups' then order' + [key] else order';
            GroupsFormed(doc, g, o) && PushedUpTo(doc, id, groups, g, i + 1)
  {
    var key := doc[i].key;
    if BlockIndex(doc[i].section.blocks, id) >= 0 {
      var blocks := if key in groups' then groups'[key] else [];
      PushHitFormed(doc, groups', order', i, blocks + [id]);
      PushHit(doc, id, groups, groups', i);
    } else {
      forall m | 0 <= m < |doc|
        ensures (m < i + 1 && InSection(doc[m].section, id)) == (m < i && InSection(doc[m].section, id))
      {
      }
    }
  }

  /** Writing the group of section `i` keeps the groups well formed, with the
      key appended to the order when it is new. */
  lemma PushHitFormed(doc: Summary, groups': map<string, seq<string>>, order': seq<string>, i: nat, v: seq<string>)
    requires i < |doc| && GroupsFormed(doc, groups', order')
    ensures var key := doc[i].key;
            GroupsFormed(doc, groups'[key := v], if key !in groups' then order' + [key] else order')
  {
    var key := doc[i].key;
    assert HasKey(doc, key);
  }

  /** Section `i` holds the id: its group gets the id, the others stay. */
  lemma PushHit(doc: Summary, id: string, groups: map<string, seq<string>>, groups': map<string, seq<string>>, i: nat)
    requires UniqueKeys(doc) && i < |doc| && PushedUpTo(doc, id, groups, groups', i)
    requires BlockIndex(doc[i].section.blocks, id) >= 0
    ensures var key := doc[i].key;
            var blocks := if key in groups' then groups'[key] else [];
            PushedUpTo(doc, id, groups, groups'[key := blocks + [id]], i + 1)
  {
    var key := doc[i].key;
    var blocks := if key in groups' then groups'[key] else [];
    var g := groups'[key := blocks + [id]];
    assert InSection(doc[i].section, id);
    forall m | 0 <= m < |doc|
      ensures var had := if doc[m].key in groups then groups[doc[m].key] else [];
              var hit := m < i + 1 && InSection(doc[m].section, id);
              && (doc[m].key in g <==> doc[m].key in groups || hit)
              && (doc[m].key in g ==> g[doc[m].key] == had + if hit then [id] else [])
    {
      if m != i {
        assert doc[m].key != key;
      }
    }
  }

  /** `blocksBySection` after the whole selection is grouped. */
  method GroupBySection(doc: Summary, selected: seq<string>)
    returns (groups: map<string, seq<string>>, order: seq<string>)
    requires UniqueKeys(doc)
    ensures GroupsFormed(doc, groups, order) && GroupsAre(doc, groups, selected)
  {
    groups, order := map[], [];
    var t := 0;
    while t < |selected|
      invariant 0 <= t <= |selected|
      invariant GroupsFormed(doc, groups, order) && GroupsAre(doc, groups, selected[..t])
    {
      assert selected[..t + 1][..t] == selected[..t];
      groups, order := PushToSections(doc, selected[t], groups, order);
      t := t + 1;
    }
    assert selected[..t] == selected;
  }

  /** The second `forEach`: each grouped section loses the blocks of its
      group. */
  method ApplyGroups(doc: Summary, groups: map<string, seq<string>>, order: seq<string>) returns (r: Summary)
    requires UniqueKeys(doc) && GroupsFormed(doc, groups, order)
    ensures |r| == |doc| && Keys(r) == Keys(doc)
    ensures forall i :: 0 <= i < |doc| ==>
              r[i].section == if doc[i].key in groups
                              then doc[i].section.(blocks := FilterBlocks(doc[i].section.blocks, groups[doc[i].key]))
                              else doc[i].section
  {
    r := doc;
    var g := 0;
    while g < |order|
      invariant 0 <= g <= |order|
      invariant FilteredFor(doc, groups, order[..g], r)
    {
      var key := order[g];
      OrderStep(doc, groups, order, g);
      FilterStep(doc, groups, order[..g], r, key);
      var i := KeyIndex(r, key).value;
      r := Update(r, i, r[i].section.(blocks := FilterBlocks(r[i].section.blocks, groups[key])));
      g := g + 1;
    }
    FilteredAll(doc, groups, order, r);
  }

  /** The next key of the order is grouped, not yet handled and a key of the
      document. */
  lemma OrderStep(doc: Summary, groups: map<string, seq<string>>, order: seq<string>, g: nat)
    requires GroupsFormed(doc, groups, order) && g < |order|
    ensures order[g] in groups && HasKey(doc, order[g])
    ensures order[g] !in order[..g] && order[..g + 1] == order[..g] + [order[g]]
  {
    assert order[g] in order;
    forall a | 0 <= a < g ensures order[..g][a] != order[g] {
      assert order[a] != order[g];
    }
  }

  /** Once every key of the order is handled, every grouped section is
      filtered. */
  lemma FilteredAll(doc: Summary, groups: map<string, seq<string>>, order: seq<string>, r: Summary)
    requires GroupsFormed(doc, groups, order) && FilteredFor(doc, groups, order[..|order|], r)
    ensures |r| == |doc| && Keys(r) == Keys(doc)
    ensures forall i :: 0 <= i < |doc| ==>
              r[i].section == if doc[i].key in groups
                              then doc[i].section.(blocks := FilterBlocks(doc[i].section.blocks, groups[doc[i].key]))
                              else doc[i].section
  {
    assert order[..|order|] == order;
  }

  /** The sections whose keys are in `done` have lost their group's blocks;
      the others are as in `doc`. */
  predicate FilteredFor(doc: Summary, groups: map<string, seq<string>>, done: seq<string>, r: Summary)
  {
    && |r| == |doc| && Keys(r) == Keys(doc)
    && forall i :: 0 <= i < |doc| ==>
         r[i].section == if doc[i].key in done && doc[i].key in groups
                         then doc[i].section.(blocks := FilterBlocks(doc[i].section.blocks, groups[doc[i].key]))
                         else doc[i].section
  }

  /** Filtering one more grouped key: it is a key of `r`, and updating its
      section extends what has been filtered by the key. */
  lemma FilterStep(doc: Summary, groups: map<string, seq<string>>, done: seq<string>, r: Summary, key: string)
    requires UniqueKeys(doc) && FilteredFor(doc, groups, done, r)
    requires key in groups && key !in done && HasKey(doc, key)
    ensures HasKey(r, key)
    ensures var i := KeyIndex(r, key).value;
            FilteredFor(doc, groups, done + [key],
                        Update(r, i, r[i].section.(blocks := FilterBlocks(r[i].section.blocks, groups[key]))))
  {
    assert forall j :: 0 <= j < |r| ==> r[j].key == Keys(doc)[j];
    assert HasKey(r, key) by {
      var m :| 0 <= m < |doc| && doc[m].key == key;
      assert r[m].key == Keys(doc)[m];
    }
    var i := KeyIndex(r, key).value;
    assert doc[i].key == key by {
      assert Keys(r)[i] == Keys(doc)[i];
    }
    var r' := Update(r, i, r[i].section.(blocks := FilterBlocks(r[i].section.blocks, groups[key])));
    forall j | 0 <= j < |doc|
      ensures r'[j].section == if doc[j].key in done + [key] && doc[j].key in groups
                               then doc[j].section.(blocks := FilterBlocks(doc[j].section.blocks, groups[doc[j].key]))
                               else doc[j].section
    {
      if j != i {
        assert doc[j].key != key;
      }
    }
  }

  /** `handleDeleteSelectedBlocks`, the document part: group the selected ids
      by the sections holding them, then filter each grouped section. The
      result is exactly `RemoveIds`. */
  method DeleteSelectedBlocks(doc: Summary, selected: seq<string>) returns (r: Summary)
    requires UniqueKeys(doc)
    ensures r == RemoveIds(doc, selected)
  {
    var groups, order := GroupBySection(doc, selected);
    r := ApplyGroups(doc, groups, order);
    forall i | 0 <= i < |doc| ensures r[i] == RemoveIds(doc, selected)[i] {
      var blocks := doc[i].section.blocks;
      assert r[i].key == doc[i].key by {
        assert Keys(r)[i] == Keys(doc)[i];
      }
      if doc[i].key in groups {
        FilterBlocksSameOn(blocks, groups[doc[i].key], selected);
      } else {
        FilterBlocksNone(blocks, selected);
      }
    }
  }

  // ---------------------------------------------------------------------
  // Sections
  // ---------------------------------------------------------------------

  /** `handleSectionDelete(sectionKey)`: the entry goes; every other section
      stays, in order. */
  function DeleteSection(doc: Summary, key: string): (r: Summary)
    requires UniqueKeys(doc)
    ensures UniqueKeys(r) && !HasKey(r, key)
    ensures forall k :: k != key ==> (HasKey(r, k) <==> HasKey(doc, k))
    ensures forall i :: 0 <= i < |doc| && doc[i].key == key ==> r == doc[..i] + doc[i + 1..]
    ensures !HasKey(doc, key) ==> r == doc
  {
    Remove(doc, key)
  }

  /** The key `handleAddSection` uses: "section" and the number of sections
      plus one. */
  function NewSectionKey(doc: Summary): string
  {
    "section" + NatToString(|doc| + 1)
  }

  datatype AddResult = AddResult(doc: Summary, newId: string)

  /** `handleAddSection`: a section titled "New Section" with one empty text
      block whose id is the clock's value in decimal is stored under
      `NewSectionKey`. When that key is new the section is appended; when a
      section already has that key (possible after a deletion), that section
      is replaced in place instead. */
  function AddSection(doc: Summary, now: nat): (r: AddResult)
    requires UniqueKeys(doc)
    ensures UniqueKeys(r.doc)
    ensures r.newId == NatToString(now)
    ensures var added := Section("New Section", [Block(r.newId, Text, "", "default")]);
            var key := NewSectionKey(doc);
            && (!HasKey(doc, key) ==> r.doc == doc + [Entry(key, added)])
            && (HasKey(doc, key) ==> |r.doc| == |doc| && forall i :: 0 <= i < |doc| ==>
                  r.doc[i] == if doc[i].key == key then Entry(key, added) else doc[i])
  {
    var id := NatToString(now);
    AddResult(Put(doc, NewSectionKey(doc), Section("New Section", [Block(id, Text, "", "default")])), id)
  }

  /** With N sections and no section under the new key, adding gives N + 1
      sections, the last with exactly one empty block. */
  lemma AddSectionGrows(doc: Summary, now: nat)
    requires UniqueKeys(doc) && !HasKey(doc, NewSectionKey(doc))
    ensures var r := AddSection(doc, now).doc;
            |r| == |doc| + 1 && |r[|doc|].section.blocks| == 1 && r[|doc|].section.blocks[0].content == ""
  {
  }

  /** After deleting "section1" from a document with "section1" and
      "section2", adding a section reuses the key "section2": the existing
      section is overwritten and the count stays at one. */
  lemma AddSectionCanOverwrite(s1: Section, s2: Section, now: nat)
    ensures var doc := DeleteSection([Entry("section1", s1), Entry("section2", s2)], "section1");
            var r := AddSection(doc, now).doc;
            |r| == 1 && r[0].key == "section2" && r[0].section.title == "New Section"
  {
    var doc := DeleteSection([Entry("section1", s1), Entry("section2", s2)], "section1");
    assert doc == [Entry("section2", s2)];
    assert NatToString(2) == "2";
    assert NewSectionKey(doc) == "section2";
    assert doc[0].key == "section2";
  }
}
