/** The selection controller of the AI summary view: which blocks are
    selected, the anchor of shift-selection, the drag gesture, arrow-key
    navigation over the flattened block order, and copying the selection as
    text. */
module Selection {
  import opened Wrappers
  import opened Strings
  import opened Document

  /** `ids.findIndex(x => x === id)`, with -1 for "absent". */
  function IdIndex(ids: seq<string>, id: string): (r: int)
    ensures -1 <= r < |ids|
    ensures r >= 0 ==> ids[r] == id && forall k :: 0 <= k < r ==> ids[k] != id
    ensures r == -1 <==> id !in ids
    decreases |ids|
  {
    if |ids| == 0 then -1
    else if ids[0] == id then 0
    else
      var r := IdIndex(ids[1..], id);
      if r == -1 then -1 else r + 1
  }

  predicate Distinct(ids: seq<string>)
  {
    forall k, m :: 0 <= k < m < |ids| ==> ids[k] != ids[m]
  }

  lemma IdIndexOfDistinct(ids: seq<string>, k: nat)
    requires Distinct(ids) && k < |ids|
    ensures IdIndex(ids, ids[k]) == k
  {
  }

  function Min(a: int, b: int): int { if a <= b then a else b }
  function Max(a: int, b: int): int { if a <= b then b else a }

  /** The inclusive slice of `ids` between the first occurrences of `a` and
      `b`, whichever comes first; empty when either is absent. */
  function IdRange(ids: seq<string>, a: string, b: string): (r: seq<string>)
    ensures r == [] <==> a !in ids || b !in ids
    ensures a in ids && b in ids ==>
              r == ids[Min(IdIndex(ids, a), IdIndex(ids, b))..Max(IdIndex(ids, a), IdIndex(ids, b)) + 1]
  {
    var i := IdIndex(ids, a);
    var j := IdIndex(ids, b);
    if i == -1 || j == -1 then []
    else
      var lo, hi := Min(i, j), Max(i, j);
      assert 0 <= lo <= i <= hi < |ids| && lo <= j <= hi;
      ids[lo..hi + 1]
  }

  /** An element of a sequence is in every slice that covers its index. */
  lemma InSlice(ids: seq<string>, lo: nat, hi: nat, k: nat)
    requires lo <= k < hi <= |ids|
    ensures ids[k] in ids[lo..hi]
  {
    assert ids[lo..hi][k - lo] == ids[k];
  }

  /** `getBlockRange(startId, endId)`: the ids of the flattened blocks from the
      earlier of the two to the later one, both included; the empty list when
      either id is in no section. */
  function BlockRange(doc: Summary, startId: string, endId: string): (r: seq<string>)
    ensures r == [] <==> startId !in FlatIds(doc) || endId !in FlatIds(doc)
    ensures startId in FlatIds(doc) && endId in FlatIds(doc) ==> var ids := FlatIds(doc);
              r == ids[Min(IdIndex(ids, startId), IdIndex(ids, endId))..Max(IdIndex(ids, startId), IdIndex(ids, endId)) + 1]
  {
    IdRange(FlatIds(doc), startId, endId)
  }

  /** A range holds both of its ends. */
  lemma BlockRangeEnds(doc: Summary, a: string, b: string)
    requires a in FlatIds(doc) && b in FlatIds(doc)
    ensures a in BlockRange(doc, a, b) && b in BlockRange(doc, a, b)
  {
    IdRangeEnds(FlatIds(doc), a, b);
  }

  lemma IdRangeEnds(ids: seq<string>, a: string, b: string)
    requires a in ids && b in ids
    ensures a in IdRange(ids, a, b) && b in IdRange(ids, a, b)
  {
    var i, j := IdIndex(ids, a), IdIndex(ids, b);
    InSlice(ids, Min(i, j), Max(i, j) + 1, i);
    InSlice(ids, Min(i, j), Max(i, j) + 1, j);
  }

  /** Dragging backwards selects what dragging forwards selects. */
  lemma BlockRangeSymmetric(doc: Summary, a: string, b: string)
    ensures BlockRange(doc, a, b) == BlockRange(doc, b, a)
  {
    IdRangeSymmetric(FlatIds(doc), a, b);
  }

  lemma IdRangeSymmetric(ids: seq<string>, a: string, b: string)
    ensures IdRange(ids, a, b) == IdRange(ids, b, a)
  {
    if a in ids && b in ids {
      var i := IdIndex(ids, a);
      var j := IdIndex(ids, b);
      assert Min(i, j) == Min(j, i) && Max(i, j) == Max(j, i);
    }
  }

  /** The range from a block to itself is that block alone, when ids are
      unique. */
  lemma BlockRangeSingle(doc: Summary, a: string)
    requires Distinct(FlatIds(doc)) && a in FlatIds(doc)
    ensures BlockRange(doc, a, a) == [a]
  {
  }

  /** The size of a range is the distance between its ends plus one. */
  lemma BlockRangeLength(doc: Summary, a: string, b: string)
    requires a in FlatIds(doc) && b in FlatIds(doc)
    ensures var ids := FlatIds(doc);
            |BlockRange(doc, a, b)| == Max(IdIndex(ids, a), IdIndex(ids, b)) - Min(IdIndex(ids, a), IdIndex(ids, b)) + 1
  {
  }

  datatype Direction = Up | Down

  /** The neighbour of `id` in `ids` in the given direction, by position of
      its first occurrence; nothing past either end or for an absent id. */
  function Neighbour(ids: seq<string>, id: string, dir: Direction): (r: Option<string>)
    ensures r.None? <==> id !in ids || (dir == Up && IdIndex(ids, id) == 0)
                         || (dir == Down && IdIndex(ids, id) == |ids| - 1)
    ensures r.Some? ==> r.value in ids
    ensures r.Some? && dir == Up ==> r.value == ids[IdIndex(ids, id) - 1]
    ensures r.Some? && dir == Down ==> r.value == ids[IdIndex(ids, id) + 1]
  {
    var current := IdIndex(ids, id);
    if current == -1 then None
    else
      var target := match dir
                    case Up => if current > 0 then current - 1 else current
                    case Down => if current < |ids| - 1 then current + 1 else current;
      if target != current then Some(ids[target]) else None
  }

  /** The block `handleBlockNavigate` moves to: the previous (Up) or next
      (Down) block of the flattened order; nothing for an unknown id, for Up at
      the first block and for Down at the last. */
  function NavigateTarget(doc: Summary, id: string, dir: Direction): (r: Option<string>)
    ensures r.None? <==> id !in FlatIds(doc)
                         || (dir == Up && IdIndex(FlatIds(doc), id) == 0)
                         || (dir == Down && IdIndex(FlatIds(doc), id) == |FlatIds(doc)| - 1)
    ensures r.Some? ==> r.value in FlatIds(doc)
    ensures r.Some? && dir == Up ==> r.value == FlatIds(doc)[IdIndex(FlatIds(doc), id) - 1]
    ensures r.Some? && dir == Down ==> r.value == FlatIds(doc)[IdIndex(FlatIds(doc), id) + 1]
  {
    Neighbour(FlatIds(doc), id, dir)
  }

  /** With unique ids, moving down and then up comes back to the same block,
      and so does moving up and then down. */
  lemma {:induction false} NavigateRoundTrip(doc: Summary, id: string)
    requires Distinct(FlatIds(doc))
    ensures NavigateTarget(doc, id, Down).Some? ==>
              NavigateTarget(doc, NavigateTarget(doc, id, Down).value, Up) == Some(id)
    ensures NavigateTarget(doc, id, Up).Some? ==>
              NavigateTarget(doc, NavigateTarget(doc, id, Up).value, Down) == Some(id)
  {
    NeighbourRoundTrip(FlatIds(doc), id);
  }

  /** The round trip on the id list itself. */
  lemma NeighbourRoundTrip(ids: seq<string>, id: string)
    requires Distinct(ids)
    ensures Neighbour(ids, id, Down).Some? ==> Neighbour(ids, Neighbour(ids, id, Down).value, Up) == Some(id)
    ensures Neighbour(ids, id, Up).Some? ==> Neighbour(ids, Neighbour(ids, id, Up).value, Down) == Some(id)
  {
    var c := IdIndex(ids, id);
    if Neighbour(ids, id, Down).Some? {
      IdIndexOfDistinct(ids, c + 1);
    }
    if Neighbour(ids, id, Up).Some? {
      IdIndexOfDistinct(ids, c - 1);
    }
  }

  // ---------------------------------------------------------------------
  // Selection state and the pointer handlers
  // ---------------------------------------------------------------------

  /** `selectedBlocks`, `lastSelectedBlock`, `isDragging`, `dragStartBlock`. */
  datatype SelectionState = SelectionState(selected: seq<string>, last: Option<string>,
                                           dragging: bool, dragStart: Option<string>)

  function InitialSelection(): SelectionState
  {
    SelectionState([], None, false, None)
  }

  /** JavaScript truthiness of a `string | null`: null and "" are false. */
  predicate Truthy(s: Option<string>)
  {
    s.Some? && s.value != ""
  }

  /** `setSelectedBlocks([id]); setLastSelectedBlock(id)`. */
  function SelectOnly(s: SelectionState, id: string): (r: SelectionState)
    ensures r.selected == [id] && r.last == Some(id)
    ensures r.dragging == s.dragging && r.dragStart == s.dragStart
  {
    s.(selected := [id], last := Some(id))
  }

  /** `setSelectedBlocks([]); setLastSelectedBlock(null)`. */
  function ClearSelection(s: SelectionState): (r: SelectionState)
    ensures r.selected == [] && r.last == None
    ensures r.dragging == s.dragging && r.dragStart == s.dragStart
  {
    s.(selected := [], last := None)
  }

  /** `handleBlockMouseDown`: a plain press selects the block alone and makes
      it the anchor of both the drag and shift-selection; a shift press keeps
      the selection. Either starts a drag. */
  function MouseDown(s: SelectionState, id: string, shift: bool): (r: SelectionState)
    ensures r.dragging
    ensures !shift ==> r.selected == [id] && r.last == Some(id) && r.dragStart == Some(id)
    ensures shift ==> r.selected == s.selected && r.last == s.last && r.dragStart == s.dragStart
  {
    if !shift then SelectionState([id], Some(id), true, Some(id))
    else s.(dragging := true)
  }

  /** `handleBlockMouseEnter`: during a drag with a start block, the selection
      becomes the range from the start block to the hovered one. */
  function MouseEnter(doc: Summary, s: SelectionState, id: string): (r: SelectionState)
    ensures r.dragging == s.dragging && r.last == s.last && r.dragStart == s.dragStart
    ensures s.dragging && Truthy(s.dragStart) ==> r.selected == BlockRange(doc, s.dragStart.value, id)
    ensures !(s.dragging && Truthy(s.dragStart)) ==> r == s
  {
    if s.dragging && Truthy(s.dragStart) then s.(selected := BlockRange(doc, s.dragStart.value, id)) else s
  }

  /** `handleBlockMouseUp`: a shift release selects the range from the anchor
      to this block; every release ends the drag. */
  function MouseUp(doc: Summary, s: SelectionState, id: string, shift: bool): (r: SelectionState)
    ensures !r.dragging && r.last == s.last && r.dragStart == s.dragStart
    ensures shift && Truthy(s.last) ==> r.selected == BlockRange(doc, s.last.value, id)
    ensures !(shift && Truthy(s.last)) ==> r.selected == s.selected
  {
    if shift && Truthy(s.last) then s.(selected := BlockRange(doc, s.last.value, id), dragging := false)
    else s.(dragging := false)
  }

  /** The document-level `mouseup` listener: a release anywhere ends the drag. */
  function Release(s: SelectionState): (r: SelectionState)
    ensures !r.dragging && r.selected == s.selected && r.last == s.last && r.dragStart == s.dragStart
  {
    s.(dragging := false)
  }

  /** Pressing on `a` and dragging onto `b` selects the same blocks as
      pressing on `b` and dragging onto `a`: the range between them, or
      nothing when one of them has gone. */
  lemma DragSymmetric(doc: Summary, s: SelectionState, a: string, b: string)
    requires a != "" && b != ""
    ensures MouseEnter(doc, MouseDown(s, a, false), b).selected
         == MouseEnter(doc, MouseDown(s, b, false), a).selected
    ensures MouseEnter(doc, MouseDown(s, a, false), b).selected == BlockRange(doc, a, b)
  {
    BlockRangeSymmetric(doc, a, b);
  }

  /** After a plain press on `a`, a shift release on `b` selects the range
      between them and ends the drag. */
  lemma ShiftExtend(doc: Summary, s: SelectionState, a: string, b: string)
    requires a != ""
    ensures var r := MouseUp(doc, MouseDown(s, a, false), b, true);
            r.selected == BlockRange(doc, a, b) && !r.dragging && r.last == Some(a)
  {
  }

  /** Once the drag has ended, moving over blocks changes nothing. */
  lemma NoSelectionAfterRelease(doc: Summary, s: SelectionState, id: string)
    ensures MouseEnter(doc, Release(s), id) == Release(s)
  {
  }

  // ---------------------------------------------------------------------
  // Copying the selection
  // ---------------------------------------------------------------------

  /** The content of the first block with this id, "" when there is none. */
  function ContentOf(doc: Summary, id: string): (c: string)
    ensures Locate(doc, id).None? ==> c == ""
    ensures Locate(doc, id).Some? ==>
              c == doc[Locate(doc, id).value.sectionIndex].section.blocks[Locate(doc, id).value.blockIndex].content
  {
    match Locate(doc, id)
    case None => ""
    case Some(loc) => doc[loc.sectionIndex].section.blocks[loc.blockIndex].content
  }

  /** `selectedBlocks.map(content-or-"").filter(Boolean)`. */
  function SelectedTexts(doc: Summary, selected: seq<string>): (r: seq<string>)
    ensures |r| <= |selected|
    ensures forall k :: 0 <= k < |r| ==> r[k] != ""
  {
    if |selected| == 0 then []
    else
      var c := ContentOf(doc, selected[|selected| - 1]);
      SelectedTexts(doc, selected[..|selected| - 1]) + (if c == "" then [] else [c])
  }

  /** The text copied from a selection: the non-empty contents of the
      selected blocks, in selection order, joined with newlines. */
  function SelectedBlocksContent(doc: Summary, selected: seq<string>): (r: string)
    ensures r == "" <==> SelectedTexts(doc, selected) == []
  {
    JoinLines(SelectedTexts(doc, selected))
  }

  /** Copying `a + b` copies `a`, a newline, then `b`, when both have some
      text; a part without text adds nothing, not even a newline. */
  lemma SelectedBlocksContentAppend(doc: Summary, a: seq<string>, b: seq<string>)
    ensures var ca := SelectedBlocksContent(doc, a);
            var cb := SelectedBlocksContent(doc, b);
            SelectedBlocksContent(doc, a + b) == if ca == "" then cb else if cb == "" then ca else ca + "\n" + cb
  {
    SelectedTextsAppend(doc, a, b);
    var ta, tb := SelectedTexts(doc, a), SelectedTexts(doc, b);
    if ta == [] {
      assert ta + tb == tb;
    } else if tb == [] {
      assert ta + tb == ta;
    } else {
      JoinLinesAppend(ta, tb);
    }
  }

  /** The copied texts follow the selection order: copying two selections one
      after the other gives the texts of the first, then those of the second. */
  lemma {:induction false} SelectedTextsAppend(doc: Summary, a: seq<string>, b: seq<string>)
    ensures SelectedTexts(doc, a + b) == SelectedTexts(doc, a) + SelectedTexts(doc, b)
    decreases |b|
  {
    if |b| > 0 {
      assert (a + b)[..|a + b| - 1] == a + b[..|b| - 1];
      SelectedTextsAppend(doc, a, b[..|b| - 1]);
    } else {
      assert a + b == a;
    }
  }

  /** When every selected id names a block with some content, nothing is
      dropped: the texts are those contents, one per selected id, in order. */
  lemma {:induction false} SelectedTextsComplete(doc: Summary, selected: seq<string>)
    requires forall k :: 0 <= k < |selected| ==> ContentOf(doc, selected[k]) != ""
    ensures |SelectedTexts(doc, selected)| == |selected|
    ensures forall k :: 0 <= k < |selected| ==> SelectedTexts(doc, selected)[k] == ContentOf(doc, selected[k])
  {
    if |selected| > 0 {
      var n := |selected|;
      var front := selected[..n - 1];
      assert forall k :: 0 <= k < |front| ==> front[k] == selected[k];
      SelectedTextsComplete(doc, front);
      var c := ContentOf(doc, selected[n - 1]);
      var r := SelectedTexts(doc, selected);
      assert r == SelectedTexts(doc, front) + [c];
      forall k | 0 <= k < n
        ensures r[k] == ContentOf(doc, selected[k])
      {
        if k < n - 1 {
          assert r[k] == SelectedTexts(doc, front)[k];
        }
      }
    }
  }

  /** Ids that are in no section, and blocks with empty content, contribute
      nothing. */
  lemma {:induction false} SelectedTextsDropsMissing(doc: Summary, selected: seq<string>)
    requires forall k :: 0 <= k < |selected| ==> ContentOf(doc, selected[k]) == ""
    ensures SelectedTexts(doc, selected) == []
  {
    if |selected| > 0 {
      SelectedTextsDropsMissing(doc, selected[..|selected| - 1]);
    }
  }

  /** A selection made bottom-up is copied bottom-up: the order of the text is
      the order of the selection, not the order of the document. */
  lemma CopyFollowsSelectionOrder()
    ensures var doc := [Entry("Agenda", Section("Agenda", [Block("Agenda-1", Text, "A", "default"),
                                                           Block("Agenda-2", Text, "B", "default")]))];
            SelectedBlocksContent(doc, ["Agenda-2", "Agenda-1"]) == "B\nA"
  {
    var doc := [Entry("Agenda", Section("Agenda", [Block("Agenda-1", Text, "A", "default"),
                                                   Block("Agenda-2", Text, "B", "default")]))];
    assert ContentOf(doc, "Agenda-2") == "B";
    assert ContentOf(doc, "Agenda-1") == "A";
    assert ["Agenda-2", "Agenda-1"][..1] == ["Agenda-2"];
  }
}
