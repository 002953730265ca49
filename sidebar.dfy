/** The sidebar: the set of expanded folders, the rules that route a click
    on a meeting or note and that disable meeting items while a recording is
    in progress, and the meeting list after a deletion. */
module Sidebar {
  import opened Wrappers
  import opened Strings

  datatype ItemKind = Folder | File

  /** One entry of the sidebar tree (its children only matter to rendering). */
  datatype SidebarItem = SidebarItem(id: string, title: string, kind: ItemKind)

  /** The meeting the application is showing. */
  datatype CurrentMeeting = CurrentMeeting(id: string, title: string)

  /** The meeting shown after the current one is deleted, and by the home
      button. */
  const NewCall := CurrentMeeting("intro-call", "+ New Call")

  /** The folders open when the sidebar first renders. */
  const InitiallyExpanded: set<string> := {"meetings", "notes"}

  /** `toggleFolder` on the copied set: remove the id when present, add it
      when absent. */
  function Toggled(expanded: set<string>, folderId: string): (r: set<string>)
    ensures folderId in r <==> folderId !in expanded
    ensures forall x :: x != folderId ==> (x in r <==> x in expanded)
  {
    if folderId in expanded then expanded - {folderId} else expanded + {folderId}
  }

  /** Toggling a folder twice restores the set. */
  lemma ToggleTwice(expanded: set<string>, folderId: string)
    ensures Toggled(Toggled(expanded, folderId), folderId) == expanded
  {
  }

  /** A meeting item: an id with a dash that is not the new-call entry. */
  predicate IsMeetingItem(id: string)
  {
    Contains(id, "-") && !StartsWith(id, "intro-call")
  }

  /** Meeting items cannot be opened while a meeting is being recorded. */
  predicate IsDisabled(id: string, meetingActive: bool)
  {
    meetingActive && IsMeetingItem(id)
  }

  /** The highlighted entry: a file whose id is the current meeting's. */
  predicate IsActive(item: SidebarItem, current: Option<CurrentMeeting>)
  {
    item.kind == File && current.Some? && current.value.id == item.id
  }

  /** Where a click on a file item goes: the recording page for the new call,
      the details page for a meeting, a note page otherwise. */
  function BasePath(id: string): string
  {
    if StartsWith(id, "intro-call") then "/"
    else if Contains(id, "-") then "/meeting-details"
    else "/notes/" + id
  }

  /** The routes partition the ids: the home route exactly for the new-call
      entry, the details page exactly for the meeting items and a note page
      exactly for ids without a dash. */
  lemma {:induction false} RoutesPartition(id: string)
    ensures BasePath(id) == "/" <==> StartsWith(id, "intro-call")
    ensures BasePath(id) == "/meeting-details" <==> IsMeetingItem(id)
    ensures BasePath(id) == "/notes/" + id <==> !Contains(id, "-")
  {
    var notes := "/notes/" + id;
    assert notes[1] == 'n';
    assert "/meeting-details"[1] == 'm';
    assert |notes| > 1;
    if StartsWith(id, "intro-call") {
      assert id[..10] == "intro-call";
      assert id[5] == '-';
      DashAt(id, 5);
    }
  }

  /** A string with a dash at some offset contains a dash. */
  lemma {:induction false} DashAt(id: string, k: nat)
    requires k < |id| && id[k] == '-'
    ensures Contains(id, "-")
    decreases k
  {
    if k == 0 {
      assert id[..1] == "-";
    } else {
      assert id[1..][k - 1] == '-';
      DashAt(id[1..], k - 1);
    }
  }

  /** The new-call entry and notes are never disabled, and nothing is
      disabled while no meeting is being recorded. */
  lemma DisabledOnlyMeetings(id: string, meetingActive: bool)
    ensures IsDisabled(id, meetingActive) ==> meetingActive
    ensures StartsWith(id, "intro-call") ==> !IsDisabled(id, meetingActive)
    ensures IsDisabled(id, meetingActive) ==> BasePath(id) == "/meeting-details"
  {
    RoutesPartition(id);
  }

  /** Opening a file item makes it, and only the file items with its id,
      the active entry; folders are never active. */
  lemma ActiveAfterOpen(item: SidebarItem, other: SidebarItem)
    requires item.kind == File
    ensures IsActive(item, Some(CurrentMeeting(item.id, item.title)))
    ensures IsActive(other, Some(CurrentMeeting(item.id, item.title))) <==> other.kind == File && other.id == item.id
  {
  }

  /** `prev.filter(m => m.id !== itemId)`. */
  function WithoutMeeting(meetings: seq<CurrentMeeting>, itemId: string): (r: seq<CurrentMeeting>)
    ensures |r| <= |meetings|
    ensures forall m :: m in r <==> m in meetings && m.id != itemId
    ensures (forall i :: 0 <= i < |meetings| ==> meetings[i].id != itemId) ==> r == meetings
  {
    if |meetings| == 0 then []
    else
      var rest := WithoutMeeting(meetings[..|meetings| - 1], itemId);
      var m := meetings[|meetings| - 1];
      assert meetings == meetings[..|meetings| - 1] + [m];
      if m.id != itemId then rest + [m] else rest
  }

  /** The filter keeps the order of the remaining meetings: filtering two
      lists one after the other is filtering each and concatenating. */
  lemma {:induction false} WithoutMeetingAppend(a: seq<CurrentMeeting>, b: seq<CurrentMeeting>, itemId: string)
    ensures WithoutMeeting(a + b, itemId) == WithoutMeeting(a, itemId) + WithoutMeeting(b, itemId)
    decreases |b|
  {
    if |b| == 0 {
      assert a + b == a;
    } else {
      var n := |b| - 1;
      var kept := if b[n].id != itemId then [b[n]] else [];
      assert (a + b)[..|a + b| - 1] == a + b[..n];
      assert (a + b)[|a + b| - 1] == b[n];
      assert WithoutMeeting(a + b, itemId) == WithoutMeeting(a + b[..n], itemId) + kept;
      assert WithoutMeeting(b, itemId) == WithoutMeeting(b[..n], itemId) + kept;
      WithoutMeetingAppend(a, b[..n], itemId);
    }
  }

  /** A single meeting is kept exactly when its id differs. */
  lemma WithoutMeetingSingle(m: CurrentMeeting, itemId: string)
    ensures WithoutMeeting([m], itemId) == if m.id != itemId then [m] else []
  {
    assert [m][..0] == [];
  }

  /** Deleting the same meeting twice removes nothing more. */
  lemma WithoutMeetingIdempotent(meetings: seq<CurrentMeeting>, itemId: string)
    ensures WithoutMeeting(WithoutMeeting(meetings, itemId), itemId) == WithoutMeeting(meetings, itemId)
  {
    var r := WithoutMeeting(meetings, itemId);
    assert forall i :: 0 <= i < |r| ==> r[i].id != itemId by {
      forall i | 0 <= i < |r| ensures r[i].id != itemId {
        assert r[i] in r;
      }
    }
  }

  /** The sidebar's state: its own expanded folders, plus the meeting list,
      the current meeting and the routes pushed, which live in the shared
      sidebar context and the router. */
  class SidebarState {
    var expanded: set<string>
    var meetings: seq<CurrentMeeting>
    var current: Option<CurrentMeeting>
    var routes: seq<string>

    constructor (meetings: seq<CurrentMeeting>, current: Option<CurrentMeeting>)
      ensures this.expanded == InitiallyExpanded
      ensures this.meetings == meetings && this.current == current && this.routes == []
    {
      this.expanded := InitiallyExpanded;
      this.meetings := meetings;
      this.current := current;
      this.routes := [];
    }

    /** `toggleFolder`: copy the set, add or delete the id, store the copy. */
    method ToggleFolder(folderId: string)
      modifies this
      ensures expanded == Toggled(old(expanded), folderId)
      ensures meetings == old(meetings) && current == old(current) && routes == old(routes)
    {
      var newExpanded := expanded;
      if folderId in newExpanded {
        newExpanded := newExpanded - {folderId};
      } else {
        newExpanded := newExpanded + {folderId};
      }
      expanded := newExpanded;
    }

    /** A click on an item: a folder toggles; a disabled file does nothing;
        any other file becomes the current meeting and its route is pushed. */
    method ItemClick(item: SidebarItem, meetingActive: bool)
      modifies this
      ensures meetings == old(meetings)
      ensures item.kind == Folder ==>
                expanded == Toggled(old(expanded), item.id) && current == old(current) && routes == old(routes)
      ensures item.kind == File && IsDisabled(item.id, meetingActive) ==>
                expanded == old(expanded) && current == old(current) && routes == old(routes)
      ensures item.kind == File && !IsDisabled(item.id, meetingActive) ==>
                && expanded == old(expanded)
                && current == Some(CurrentMeeting(item.id, item.title))
                && routes == old(routes) + [BasePath(item.id)]
    {
      if item.kind == Folder {
        ToggleFolder(item.id);
      } else {
        if IsDisabled(item.id, meetingActive) {
          return;
        }
        current := Some(CurrentMeeting(item.id, item.title));
        routes := routes + [BasePath(item.id)];
      }
    }

    /** `handleDelete` once the server has answered: on success drop every
        meeting with the id and, when it was the current meeting, go back to
        the new call; on failure change nothing. */
    method HandleDelete(itemId: string, ok: bool)
      modifies this
      ensures expanded == old(expanded)
      ensures !ok ==> meetings == old(meetings) && current == old(current) && routes == old(routes)
      ensures ok ==> meetings == WithoutMeeting(old(meetings), itemId)
      ensures ok && old(current).Some? && old(current).value.id == itemId ==>
                current == Some(NewCall) && routes == old(routes) + ["/"]
      ensures !(ok && old(current).Some? && old(current).value.id == itemId) ==>
                current == old(current) && routes == old(routes)
    {
      if ok {
        meetings := WithoutMeeting(meetings, itemId);
        if current.Some? && current.value.id == itemId {
          current := Some(NewCall);
          routes := routes + ["/"];
        }
      }
    }
  }
}
