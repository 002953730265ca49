/** The linear undo/redo history of the summary editor. */
module UndoHistory {
  import opened Wrappers

  /** The three pieces of component state behind undo and redo: the list of
      recorded documents (`history`), the position of the one on screen
      (`currentHistoryIndex`) and the flag that marks the next incoming
      document as a replay of an old one (`isUndoRedoing`). */
  class History<T> {
    var entries: seq<T>
    var cursor: nat
    var replaying: bool

    ghost predicate Valid()
      reads this
    {
      cursor < |entries|
    }

    /** The initial state: the first document alone, at position 0. */
    constructor (initial: T)
      ensures Valid()
      ensures entries == [initial] && cursor == 0 && !replaying
    {
      entries := [initial];
      cursor := 0;
      replaying := false;
    }

    /** The effect that runs each time the `summary` prop changes. Unless the
        change is a replay or there is no summary, everything after the
        cursor is dropped, the new document is appended and becomes the
        current entry. The replay flag is cleared either way, so a replay
        suppresses exactly one recording. */
    method Record(summary: Option<T>)
      requires Valid()
      modifies this
      ensures Valid()
      ensures !old(replaying) && summary.Some? ==>
                && entries == old(entries[..cursor + 1]) + [summary.value]
                && cursor == old(cursor) + 1
                && entries[cursor] == summary.value
      ensures old(replaying) || summary.None? ==> entries == old(entries) && cursor == old(cursor)
      ensures !replaying
    {
      if !replaying && summary.Some? {
        var newHistory := entries[..cursor + 1];
        newHistory := newHistory + [summary.value];
        entries := newHistory;
        cursor := |newHistory| - 1;
      }
      replaying := false;
    }

    /** `handleUndo`: with an earlier entry, move back to it, mark the replay
        and hand that entry to the parent; at the first entry do nothing. */
    method Undo() returns (sent: Option<T>)
      requires Valid()
      modifies this
      ensures Valid() && entries == old(entries)
      ensures old(cursor) > 0 ==> cursor == old(cursor) - 1 && replaying && sent == Some(entries[cursor])
      ensures old(cursor) == 0 ==> cursor == 0 && replaying == old(replaying) && sent == None
    {
      sent := None;
      if cursor > 0 {
        replaying := true;
        var newIndex := cursor - 1;
        cursor := newIndex;
        sent := Some(entries[newIndex]);
      }
    }

    /** `handleRedo`: with a later entry, move forward to it, mark the replay
        and hand that entry to the parent; at the last entry do nothing. */
    method Redo() returns (sent: Option<T>)
      requires Valid()
      modifies this
      ensures Valid() && entries == old(entries)
      ensures old(cursor) < |entries| - 1 ==> cursor == old(cursor) + 1 && replaying && sent == Some(entries[cursor])
      ensures old(cursor) == |entries| - 1 ==> cursor == old(cursor) && replaying == old(replaying) && sent == None
    {
      sent := None;
      if cursor < |entries| - 1 {
        replaying := true;
        var newIndex := cursor + 1;
        cursor := newIndex;
        sent := Some(entries[newIndex]);
      }
    }
  }

  /** Recording `b` after `a` and undoing hands `a` back; redoing then hands
      `b` back; recording a new document after the undo drops `b`. */
  method UndoRedoScenario<T>(a: T, b: T, c: T)
  {
    var h := new History(a);
    h.Record(Some(b));
    assert h.entries == [a, b] && h.cursor == 1;
    var back := h.Undo();
    assert back == Some(a);
    h.Record(back);
    assert h.entries == [a, b] && h.cursor == 0 && !h.replaying;
    var forth := h.Redo();
    assert forth == Some(b);
    h.Record(forth);
    assert h.entries == [a, b] && h.cursor == 1;
    var again := h.Undo();
    h.Record(again);
    h.Record(Some(c));
    assert h.entries == [a, c] && h.cursor == 1;
    var none := h.Redo();
    assert none == None;
  }
}
