/** The AI summary view as a stateful component: the document on screen, the
    block selection and the undo history, with the handlers that change
    them. Handlers never change the document themselves: they hand a new
    document to the parent (`onSummaryChange`), which passes it back in as
    the next `summary` prop, and `Receive` takes it from there. Handlers that
    only compute a document (content, type and title change, section delete)
    are the functions of `Mutations`. */
module SummaryEditor {
  import opened Wrappers
  import opened Strings
  import opened Document
  import opened Selection
  import opened Mutations
  import opened UndoHistory

  /** What the document-level key listener did. */
  datatype GlobalOutcome = Nothing | Sent(doc: Summary) | Copied(text: string)

  /** `currentSummary`, the memo over the `summary` prop: the normalised
      prop, or the default document when there is none. */
  method Displayed(summary: Option<Summary>, stamp: (nat, nat) -> string) returns (r: Summary)
    requires summary.Some? ==> UniqueKeys(summary.value)
    ensures UniqueKeys(r) && KeyedIds(r)
    ensures summary.None? ==> r == DefaultSummary()
    ensures summary.Some? ==> Keys(r) == Keys(summary.value)
    ensures summary.Some? && KeyedIds(summary.value) ==> r == summary.value
  {
    if summary.None? {
      return DefaultSummary();
    }
    r := EnsureUniqueBlockIds(summary.value, stamp);
    assert forall i :: 0 <= i < |r| ==> r[i].key == Keys(summary.value)[i];
  }

  class Editor {
    /** `currentSummary`: the normalised prop, or the default document. */
    var current: Summary
    var sel: SelectionState
    const history: History<Summary>

    /** The document on screen has distinct keys and keyed ids, and so does
        every recorded document, so a replayed one comes back unchanged
        through normalisation. */
    ghost predicate Valid()
      reads this, history
    {
      && UniqueKeys(current) && KeyedIds(current)
      && history.Valid()
      && forall k :: 0 <= k < |history.entries| ==>
           UniqueKeys(history.entries[k]) && KeyedIds(history.entries[k])
    }

    /** Mounting with an optional summary: the memo gives the normalised
        document or the default one, the history starts with it, and the
        mount-time run of the recording effect appends it once more when a
        summary was given. */
    constructor (summary: Option<Summary>, stamp: (nat, nat) -> string)
      requires summary.Some? ==> UniqueKeys(summary.value)
      ensures Valid() && fresh(history)
      ensures summary.None? ==> current == DefaultSummary()
      ensures summary.Some? ==> Keys(current) == Keys(summary.value)
      ensures summary.Some? && KeyedIds(summary.value) ==> current == summary.value
      ensures sel == InitialSelection() && !history.replaying
      ensures summary.None? ==> history.entries == [current] && history.cursor == 0
      ensures summary.Some? ==> history.entries == [current, current] && history.cursor == 1
    {
      var doc := Displayed(summary, stamp);
      current := doc;
      sel := InitialSelection();
      var h := new History(doc);
      history := h;
      new;
      history.Record(if summary.Some? then Some(current) else None);
    }

    /** A new `summary` prop: the memo normalises it (or falls back to the
        default document) and the recording effect records it. The selection
        is left as it was, even when its ids have gone. */
    method Receive(summary: Option<Summary>, stamp: (nat, nat) -> string)
      requires Valid()
      requires summary.Some? ==> UniqueKeys(summary.value)
      modifies this, history
      ensures Valid() && sel == old(sel)
      ensures summary.None? ==> current == DefaultSummary()
      ensures summary.Some? ==> Keys(current) == Keys(summary.value)
      ensures summary.Some? && KeyedIds(summary.value) ==> current == summary.value
      ensures !old(history.replaying) && summary.Some? ==>
                history.entries == old(history.entries[..history.cursor + 1]) + [current]
                && history.cursor == old(history.cursor) + 1
      ensures old(history.replaying) || summary.None? ==>
                history.entries == old(history.entries) && history.cursor == old(history.cursor)
      ensures !history.replaying
    {
      var doc := Displayed(summary, stamp);
      current := doc;
      history.Record(if summary.Some? then Some(current) else None);
    }

    /** Ctrl+Z: the previous recorded document, already normalised, is sent
        to the parent; at the first entry nothing is sent. */
    method Undo() returns (sent: Option<Summary>)
      requires Valid()
      modifies history
      ensures Valid()
      ensures history.entries == old(history.entries)
      ensures old(history.cursor) > 0 ==>
                history.cursor == old(history.cursor) - 1 && history.replaying
                && sent == Some(history.entries[history.cursor])
      ensures old(history.cursor) == 0 ==>
                sent == None && history.cursor == 0 && history.replaying == old(history.replaying)
      ensures sent.Some? ==> KeyedIds(sent.value) && UniqueKeys(sent.value)
    {
      sent := history.Undo();
    }

    /** Ctrl+Shift+Z: the next recorded document is sent to the parent; at the
        last entry nothing is sent. */
    method Redo() returns (sent: Option<Summary>)
      requires Valid()
      modifies history
      ensures Valid()
      ensures history.entries == old(history.entries)
      ensures old(history.cursor) < |history.entries| - 1 ==>
                history.cursor == old(history.cursor) + 1 && history.replaying
                && sent == Some(history.entries[history.cursor])
      ensures old(history.cursor) == |history.entries| - 1 ==>
                sent == None && history.cursor == old(history.cursor) && history.replaying == old(history.replaying)
      ensures sent.Some? ==> KeyedIds(sent.value) && UniqueKeys(sent.value)
    {
      sent := history.Redo();
    }

    // -------------------------------------------------------------------
    // Pointer handlers
    // -------------------------------------------------------------------

    method BlockMouseDown(id: string, shift: bool)
      requires Valid()
      modifies this
      ensures Valid() && current == old(current)
      ensures sel == MouseDown(old(sel), id, shift)
    {
      sel := MouseDown(sel, id, shift);
    }

    method BlockMouseEnter(id: string)
      requires Valid()
      modifies this
      ensures Valid() && current == old(current)
      ensures sel == MouseEnter(current, old(sel), id)
    {
      sel := MouseEnter(current, sel, id);
    }

    method BlockMouseUp(id: string, shift: bool)
      requires Valid()
      modifies this
      ensures Valid() && current == old(current)
      ensures sel == MouseUp(current, old(sel), id, shift)
    {
      sel := MouseUp(current, sel, id, shift);
    }

    /** The document-level `mouseup` listener. */
    method DocumentMouseUp()
      requires Valid()
      modifies this
      ensures Valid() && current == old(current)
      ensures sel == Release(old(sel))
    {
      sel := Release(sel);
    }

    // -------------------------------------------------------------------
    // Keyboard and structural edits
    // -------------------------------------------------------------------

    /** `handleDeleteSelectedBlocks`: every selected block goes, the result
        is sent and the selection is cleared. */
    method DeleteSelected() returns (sent: Summary)
      requires Valid()
      modifies this
      ensures Valid() && current == old(current)
      ensures sent == RemoveIds(current, old(sel).selected)
      ensures sel == ClearSelection(old(sel))
    {
      sent := DeleteSelectedBlocks(current, sel.selected);
      sel := ClearSelection(sel);
    }

    /** `handleKeyDown` on a block's text area. Nothing happens for a block
        the scan does not find. Enter without Shift splits the block and
        selects the new one. Delete or Backspace with more than one block
        selected deletes the selection. An arrow key with the caret at the
        start (up) or the end (down) selects the neighbouring block, if
        any. `caret` and `length` are the text area's `selectionStart` and
        value length; `newBlockContent` is its dataset field. */
    method KeyDown(id: string, key: string, shift: bool, caret: nat, length: nat,
                   newBlockContent: Option<string>, stamp: string) returns (sent: Option<Summary>)
      requires Valid()
      modifies this
      ensures Valid() && current == old(current)
      ensures Owner(current, id).None? ==> sent == None && sel == old(sel)
      ensures Owner(current, id).Some? && key == "Enter" && !shift ==>
                var r := SplitBlock(current, id, stamp, newBlockContent.GetOr("")).value;
                sent == Some(r.doc) && sel == SelectOnly(old(sel), r.newId)
      ensures Owner(current, id).Some? && !(key == "Enter" && !shift)
              && (key == "Delete" || key == "Backspace") && |old(sel).selected| > 1 ==>
                sent == Some(RemoveIds(current, old(sel).selected)) && sel == ClearSelection(old(sel))
      ensures Owner(current, id).Some? && !(key == "Enter" && !shift)
              && !((key == "Delete" || key == "Backspace") && |old(sel).selected| > 1) ==>
                sent == None
                && var dir := if key == "ArrowUp" then Up else Down;
                   sel == if (key == "ArrowUp" && caret == 0) || (key == "ArrowDown" && caret == length)
                          then (match NavigateTarget(current, id, dir)
                                case Some(t) => SelectOnly(old(sel), t)
                                case None => old(sel))
                          else old(sel)
    {
      sent := None;
      if Owner(current, id).None? {
        return;
      }
      if key == "Enter" && !shift {
        var r := SplitBlock(current, id, stamp, newBlockContent.GetOr("")).value;
        sent := Some(r.doc);
        sel := SelectOnly(sel, r.newId);
      } else if (key == "Delete" || key == "Backspace") && |sel.selected| > 1 {
        var doc := DeleteSelected();
        sent := Some(doc);
      } else if key == "ArrowUp" || key == "ArrowDown" {
        if (key == "ArrowUp" && caret == 0) || (key == "ArrowDown" && caret == length) {
          var target := NavigateTarget(current, id, if key == "ArrowUp" then Up else Down);
          if target.Some? {
            sel := SelectOnly(sel, target.value);
          }
        }
      }
    }

    /** `handleBlockDelete(blockId, mergeContent)`: the merged or shortened
        document is sent, the selection moves as `DeleteBlock` says, and the
        cursor offset for the focused block is returned. A missing merge
        text counts as an empty one. */
    method BlockDelete(id: string, mergeContent: Option<string>) returns (sent: Option<Summary>, cursor: Option<nat>)
      requires Valid()
      modifies this
      ensures Valid() && current == old(current)
      ensures Owner(current, id).None? ==> sent == None && cursor == None && sel == old(sel)
      ensures Owner(current, id).Some? ==>
                var r := DeleteBlock(current, id, mergeContent.GetOr("")).value;
                && sent == Some(r.doc) && cursor == r.cursor
                && sel == match r.select
                          case Some(t) => SelectOnly(old(sel), t)
                          case None => ClearSelection(old(sel))
    {
      sent, cursor := None, None;
      var result := DeleteBlock(current, id, mergeContent.GetOr(""));
      if result.Some? {
        sent, cursor := Some(result.value.doc), result.value.cursor;
        match result.value.select {
          case Some(t) => sel := SelectOnly(sel, t);
          case None => sel := ClearSelection(sel);
        }
      }
    }

    /** `handleAddSection`: the new document is sent and the new block, whose
        id is the clock reading `now`, is selected. */
    method AddSectionAt(now: nat) returns (sent: Summary)
      requires Valid()
      modifies this
      ensures Valid() && current == old(current)
      ensures sent == AddSection(current, now).doc
      ensures sel == SelectOnly(old(sel), NatToString(now))
    {
      var r := AddSection(current, now);
      sent := r.doc;
      sel := SelectOnly(sel, r.newId);
    }

    /** The document-level `keydown` listener. With Ctrl or Meta, "z" undoes
        (redoes with Shift) and "c" yields the copied text of the selection;
        without them, Delete or Backspace with more than one block selected
        deletes the selection. */
    method GlobalKeyDown(key: string, ctrlOrMeta: bool, shift: bool) returns (outcome: GlobalOutcome)
      requires Valid()
      modifies this, history
      ensures Valid() && current == old(current)
      ensures ctrlOrMeta && key == "z" ==> sel == old(sel) && history.entries == old(history.entries)
      ensures ctrlOrMeta && key == "z" && !shift ==>
                if old(history.cursor) > 0
                then outcome == Sent(history.entries[old(history.cursor) - 1]) && history.cursor == old(history.cursor) - 1
                     && history.replaying
                else outcome == Nothing && history.cursor == 0 && history.replaying == old(history.replaying)
      ensures ctrlOrMeta && key == "z" && shift ==>
                if old(history.cursor) < |history.entries| - 1
                then outcome == Sent(history.entries[old(history.cursor) + 1]) && history.cursor == old(history.cursor) + 1
                     && history.replaying
                else outcome == Nothing && history.cursor == old(history.cursor) && history.replaying == old(history.replaying)
      ensures ctrlOrMeta && key == "c" ==>
                outcome == Copied(SelectedBlocksContent(current, sel.selected))
                && sel == old(sel) && unchanged(history)
      ensures ctrlOrMeta && key != "z" && key != "c" ==> outcome == Nothing && sel == old(sel) && unchanged(history)
      ensures !ctrlOrMeta && (key == "Delete" || key == "Backspace") && |old(sel).selected| > 1 ==>
                outcome == Sent(RemoveIds(current, old(sel).selected)) && sel == ClearSelection(old(sel))
                && unchanged(history)
      ensures !ctrlOrMeta && !((key == "Delete" || key == "Backspace") && |old(sel).selected| > 1) ==>
                outcome == Nothing && sel == old(sel) && unchanged(history)
    {
      outcome := Nothing;
      if ctrlOrMeta {
        if key == "z" {
          var sent: Option<Summary>;
          if shift {
            sent := Redo();
          } else {
            sent := Undo();
          }
          if sent.Some? {
            outcome := Sent(sent.value);
          }
        } else if key == "c" {
          outcome := Copied(SelectedBlocksContent(current, sel.selected));
        }
      } else if (key == "Delete" || key == "Backspace") && |sel.selected| > 1 {
        var doc := DeleteSelected();
        outcome := Sent(doc);
      }
    }
  }

  /** The id `handleAddSection` gives its block is made of digits, so it never
      mentions the new section's key: the next normalisation replaces it and
      the block the handler selected is no longer in the document. */
  lemma AddedBlockIdIsReplaced(doc: Summary, now: nat)
    ensures !Contains(NatToString(now), NewSectionKey(doc))
  {
    assert NewSectionKey(doc)[0] == 's';
    DigitsExclude(NatToString(now), NewSectionKey(doc));
  }
}
