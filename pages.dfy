/** The page-level logic around the summary view: the live transcript list,
    turning a finished backend result into a summary, the status line, and
    renaming a meeting. The home page and the meeting-details page share most
    of it; where they differ there is one function per page. */
module MeetingPages {
  import opened Wrappers
  import opened Strings
  import opened Document

  // ---------------------------------------------------------------------
  // Transcripts
  // ---------------------------------------------------------------------

  datatype Transcript = Transcript(id: string, text: string, timestamp: string)

  /** Two transcripts that carry the same text at the same timestamp. */
  predicate SameUtterance(a: Transcript, b: Transcript)
  {
    a.text == b.text && a.timestamp == b.timestamp
  }

  predicate Known(prev: seq<Transcript>, t: Transcript)
  {
    exists k :: 0 <= k < |prev| && SameUtterance(prev[k], t)
  }

  /** The `setTranscripts` updater of both transcript listeners: an update
      whose text and timestamp are already in the list leaves the list as it
      is; any other is appended at the end. */
  function AddTranscript(prev: seq<Transcript>, t: Transcript): (r: seq<Transcript>)
    ensures Known(prev, t) ==> r == prev
    ensures !Known(prev, t) ==> r == prev + [t]
  {
    var exists_ := exists k :: 0 <= k < |prev| && prev[k].text == t.text && prev[k].timestamp == t.timestamp;
    if exists_ then prev else prev + [t]
  }

  /** No two transcripts of the list say the same text at the same time. */
  predicate NoRepeats(list: seq<Transcript>)
  {
    forall a, b :: 0 <= a < b < |list| ==> !SameUtterance(list[a], list[b])
  }

  /** The list built by the listeners never holds a repeated utterance, and
      after an update the new utterance is in it. */
  lemma AddTranscriptKeepsNoRepeats(prev: seq<Transcript>, t: Transcript)
    requires NoRepeats(prev)
    ensures NoRepeats(AddTranscript(prev, t))
    ensures Known(AddTranscript(prev, t), t)
  {
    var r := AddTranscript(prev, t);
    if !Known(prev, t) {
      assert SameUtterance(r[|prev|], t);
    }
  }

  /** Delivering the same update twice has the effect of delivering it once. */
  lemma AddTranscriptIdempotent(prev: seq<Transcript>, t: Transcript)
    ensures AddTranscript(AddTranscript(prev, t), t) == AddTranscript(prev, t)
  {
    var r := AddTranscript(prev, t);
    if !Known(prev, t) {
      assert SameUtterance(r[|prev|], t);
    }
  }

  /** Updates with new utterances land in arrival order. */
  lemma AddTranscriptOrder(prev: seq<Transcript>, t: Transcript, u: Transcript)
    requires !Known(prev, t) && !SameUtterance(t, u) && !Known(prev, u)
    ensures AddTranscript(AddTranscript(prev, t), u) == prev + [t, u]
  {
    var r := prev + [t];
    forall k | 0 <= k < |r| ensures !SameUtterance(r[k], u) {
      if k < |prev| {
        assert r[k] == prev[k];
      }
    }
  }

  // ---------------------------------------------------------------------
  // A finished result
  // ---------------------------------------------------------------------

  /** A block as the backend sends it; `content` is absent when the field is
      missing or not text. The other fields are carried over by the block
      spread and are not modelled; the id is among them. */
  datatype RawBlock = RawBlock(id: string, content: Option<string>)

  /** A value of the result's `data` object: text (what `MeetingName` holds)
      or a section, whose `blocks` may be missing. */
  datatype RawValue = RawText(text: string) | RawSection(title: string, blocks: Option<seq<RawBlock>>)

  datatype RawEntry = RawEntry(key: string, value: RawValue)

  predicate DistinctKeys(data: seq<RawEntry>)
  {
    forall a, b :: 0 <= a < b < |data| ==> data[a].key != data[b].key
  }

  /** `const { MeetingName, ...summaryData } = result.data`: every entry but
      `MeetingName`, in order. */
  function WithoutMeetingName(data: seq<RawEntry>): (r: seq<RawEntry>)
    ensures |r| <= |data|
    ensures forall k :: 0 <= k < |r| ==> r[k].key != "MeetingName" && r[k] in data
  {
    if |data| == 0 then []
    else
      var e := data[|data| - 1];
      WithoutMeetingName(data[..|data| - 1]) + (if e.key == "MeetingName" then [] else [e])
  }

  /** Dropping `MeetingName` from two lists one after the other is dropping
      it from each and concatenating, so the kept entries stay in order. */
  lemma {:induction false} WithoutMeetingNameAppend(a: seq<RawEntry>, b: seq<RawEntry>)
    ensures WithoutMeetingName(a + b) == WithoutMeetingName(a) + WithoutMeetingName(b)
    decreases |b|
  {
    if |b| == 0 {
      assert a + b == a;
    } else {
      var n := |b| - 1;
      assert (a + b)[..|a + b| - 1] == a + b[..n];
      assert (a + b)[|a + b| - 1] == b[n];
      WithoutMeetingNameAppend(a, b[..n]);
    }
  }

  /** A single entry is kept exactly when its key is not `MeetingName`. */
  lemma WithoutMeetingNameSingle(e: RawEntry)
    ensures WithoutMeetingName([e]) == if e.key == "MeetingName" then [] else [e]
  {
    assert [e][..0] == [];
  }

  /** The `MeetingName` entry's text, when there is one and it is not empty
      (`if (MeetingName) setMeetingTitle(MeetingName)`). */
  function MeetingName(data: seq<RawEntry>): (r: Option<string>)
    ensures r.Some? ==> r.value != "" && exists k :: 0 <= k < |data| && data[k] == RawEntry("MeetingName", RawText(r.value))
  {
    if |data| == 0 then None
    else
      var e := data[|data| - 1];
      if e.key == "MeetingName" && e.value.RawText? && e.value.text != "" then Some(e.value.text)
      else MeetingName(data[..|data| - 1])
  }

  /** A non-empty `MeetingName` text in a result with distinct keys is the
      name taken. */
  lemma {:induction false} MeetingNameTaken(data: seq<RawEntry>, t: string)
    requires DistinctKeys(data) && t != ""
    requires RawEntry("MeetingName", RawText(t)) in data
    ensures MeetingName(data) == Some(t)
    decreases |data|
  {
    var n := |data| - 1;
    var e := data[n];
    if e != RawEntry("MeetingName", RawText(t)) {
      var k :| 0 <= k < |data| && data[k] == RawEntry("MeetingName", RawText(t));
      assert k < n;
      var front := data[..n];
      assert front[k] == data[k];
      assert e.key != "MeetingName" by {
        assert data[k].key != data[n].key;
      }
      MeetingNameTaken(front, t);
    }
  }

  /** A section value with blocks, every block with text content: what the
      formatting `map` can process without a type error. */
  predicate Formattable(v: RawValue)
  {
    v.RawSection? && v.blocks.Some? && forall j :: 0 <= j < |v.blocks.value| ==> v.blocks.value[j].content.Some?
  }

  predicate AllFormattable(entries: seq<RawEntry>)
  {
    forall k :: 0 <= k < |entries| ==> Formattable(entries[k].value)
  }

  /** The per-block `map`: the block becomes a bullet with the default color
      and its content trimmed; its id is kept. */
  function FormatBlock(b: RawBlock): (r: Block)
    requires b.content.Some?
    ensures r.id == b.id && r.kind == Bullet && r.color == "default" && r.content == Trim(b.content.value)
  {
    Block(b.id, Bullet, Trim(b.content.value), "default")
  }

  /** The formatted section: same title, every block formatted in order. */
  predicate FormattedFrom(s: Section, v: RawValue)
  {
    && Formattable(v)
    && s.title == v.title
    && |s.blocks| == |v.blocks.value|
    && forall j :: 0 <= j < |s.blocks| ==> s.blocks[j] == FormatBlock(v.blocks.value[j])
  }

  /** The formatting `reduce` of both pages over the entries other than
      `MeetingName`: each is written into the accumulator under its key. A
      value that is not a section with blocks, or a block without text
      content, makes the `map` or `trim` call throw; the page then reports an
      error, here `None`. */
  method FormatSummary(data: seq<RawEntry>) returns (r: Option<Summary>)
    requires DistinctKeys(data)
    ensures r.Some? <==> AllFormattable(WithoutMeetingName(data))
    ensures r.Some? ==>
              var rest := WithoutMeetingName(data);
              && |r.value| == |rest|
              && forall k :: 0 <= k < |rest| ==>
                   r.value[k].key == rest[k].key && FormattedFrom(r.value[k].section, rest[k].value)
  {
    var rest := WithoutMeetingName(data);
    var acc: Summary := [];
    var k := 0;
    while k < |rest|
      invariant 0 <= k <= |rest|
      invariant |acc| == k
      invariant AllFormattable(rest[..k])
      invariant forall m :: 0 <= m < k ==> acc[m].key == rest[m].key && FormattedFrom(acc[m].section, rest[m].value)
    {
      var v := rest[k].value;
      if !v.RawSection? || v.blocks.None? {
        assert !Formattable(rest[k].value);
        return None;
      }
      var blocks := FormatBlocks(v.blocks.value);
      if blocks.None? {
        assert !Formattable(rest[k].value);
        return None;
      }
      var section := Section(v.title, blocks.value);
      assert FormattedFrom(section, rest[k].value);
      assert AllFormattable(rest[..k + 1]) by {
        assert rest[..k + 1] == rest[..k] + [rest[k]];
      }
      acc := acc + [Entry(rest[k].key, section)];
      k := k + 1;
    }
    assert rest[..k] == rest;
    r := Some(acc);
  }

  /** The per-block `map` of one section: every block formatted in order, or
      `None` when a block has no text content to trim. */
  method FormatBlocks(raw: seq<RawBlock>) returns (r: Option<seq<Block>>)
    ensures r.Some? <==> forall i :: 0 <= i < |raw| ==> raw[i].content.Some?
    ensures r.Some? ==> |r.value| == |raw| && forall i :: 0 <= i < |raw| ==> r.value[i] == FormatBlock(raw[i])
  {
    var blocks: seq<Block> := [];
    var j := 0;
    while j < |raw|
      invariant 0 <= j <= |raw|
      invariant |blocks| == j
      invariant forall i :: 0 <= i < j ==> raw[i].content.Some? && blocks[i] == FormatBlock(raw[i])
    {
      if raw[j].content.None? {
        return None;
      }
      blocks := blocks + [FormatBlock(raw[j])];
      j := j + 1;
    }
    return Some(blocks);
  }

  /** A formatted summary has distinct keys, no `MeetingName` section, and
      only default-colored bullets whose text has no white space at either
      end. */
  lemma FormattedShape(data: seq<RawEntry>, doc: Summary)
    requires DistinctKeys(data)
    requires var rest := WithoutMeetingName(data);
             && |doc| == |rest|
             && forall k :: 0 <= k < |rest| ==> doc[k].key == rest[k].key && FormattedFrom(doc[k].section, rest[k].value)
    ensures UniqueKeys(doc)
    ensures !HasKey(doc, "MeetingName")
    ensures forall k, j :: 0 <= k < |doc| && 0 <= j < |doc[k].section.blocks| ==>
              var b := doc[k].section.blocks[j];
              b.kind == Bullet && b.color == "default" && Trim(b.content) == b.content
  {
    var rest := WithoutMeetingName(data);
    WithoutMeetingNameDistinct(data);
    forall k, j | 0 <= k < |doc| && 0 <= j < |doc[k].section.blocks|
      ensures Trim(doc[k].section.blocks[j].content) == doc[k].section.blocks[j].content
    {
      TrimIdempotent(rest[k].value.blocks.value[j].content.value);
    }
  }

  /** Dropping `MeetingName` keeps the keys distinct. */
  lemma {:induction false} WithoutMeetingNameDistinct(data: seq<RawEntry>)
    requires DistinctKeys(data)
    ensures DistinctKeys(WithoutMeetingName(data))
  {
    if |data| > 0 {
      var front := data[..|data| - 1];
      WithoutMeetingNameDistinct(front);
      var rest := WithoutMeetingName(front);
      forall k | 0 <= k < |rest| ensures rest[k].key != data[|data| - 1].key {
        var m :| 0 <= m < |front| && front[m] == rest[k];
      }
    }
  }

  /** The check the meeting-details page runs before formatting: every entry
      other than `MeetingName` has no blocks, or an empty list of them. */
  predicate AllSectionsEmpty(data: seq<RawEntry>)
  {
    forall k :: 0 <= k < |data| && data[k].key != "MeetingName" ==>
      match data[k].value
      case RawText(_) => true
      case RawSection(_, blocks) => blocks.None? || blocks.value == []
  }

  /** The error text the details page reports for an all-empty result. */
  const EmptySummaryError := "Summary generation failed. Please check your model/API key settings."

  /** The outcome on the details page: the summary and meeting name taken,
      the result rejected with an error text, or the formatting step thrown
      (the page then shows the engine's error message, which is not
      modelled). */
  datatype Completion = Accepted(doc: Summary, title: Option<string>) | Rejected(error: string) | FormatFailed(title: Option<string>)

  /** The details page's handling of a completed result: reject an all-empty
      one with `EmptySummaryError`, otherwise format it (a formatting error
      becomes the caught-error path) and take the meeting name. */
  method CompleteOnDetailsPage(data: seq<RawEntry>) returns (c: Completion)
    requires DistinctKeys(data)
    ensures AllSectionsEmpty(data) <==> c == Rejected(EmptySummaryError)
    ensures c.FormatFailed? <==> !AllSectionsEmpty(data) && !AllFormattable(WithoutMeetingName(data))
    ensures c.Accepted? || c.FormatFailed? ==> c.title == MeetingName(data)
    ensures c.Accepted? ==>
              var rest := WithoutMeetingName(data);
              && |c.doc| == |rest|
              && (forall k :: 0 <= k < |rest| ==> c.doc[k].key == rest[k].key && FormattedFrom(c.doc[k].section, rest[k].value))
              && TotalBlocks(c.doc) > 0
  {
    if AllSectionsEmptyCheck(data) {
      return Rejected(EmptySummaryError);
    }
    var r := FormatSummary(data);
    if r.None? {
      return FormatFailed(MeetingName(data));
    }
    NotEmptyGivesBlocks(data, r.value);
    c := Accepted(r.value, MeetingName(data));
  }

  /** The `filter` and `every` of the all-empty check. */
  function AllSectionsEmptyCheck(data: seq<RawEntry>): (r: bool)
    ensures r <==> AllSectionsEmpty(data)
  {
    forall k :: 0 <= k < |data| && data[k].key != "MeetingName" ==>
      data[k].value.RawText? || data[k].value.blocks.None? || data[k].value.blocks.value == []
  }

  /** A result that passes the empty check and formats shows at least one
      block. */
  lemma NotEmptyGivesBlocks(data: seq<RawEntry>, doc: Summary)
    requires !AllSectionsEmpty(data)
    requires var rest := WithoutMeetingName(data);
             && |doc| == |rest|
             && forall k :: 0 <= k < |rest| ==> FormattedFrom(doc[k].section, rest[k].value)
    ensures TotalBlocks(doc) > 0
  {
    var k :| 0 <= k < |data| && data[k].key != "MeetingName"
             && data[k].value.RawSection? && data[k].value.blocks.Some? && data[k].value.blocks.value != [];
    var i := KeptIndex(data, k);
    FlattenLength(doc);
    FlattenAt(doc, i, 0);
  }

  /** Where an entry other than `MeetingName` sits once `MeetingName` is
      dropped. */
  lemma {:induction false} KeptIndex(data: seq<RawEntry>, k: nat) returns (i: nat)
    requires k < |data| && data[k].key != "MeetingName"
    ensures i < |WithoutMeetingName(data)| && WithoutMeetingName(data)[i] == data[k]
  {
    var front := data[..|data| - 1];
    if k == |data| - 1 {
      i := |WithoutMeetingName(front)|;
    } else {
      i := KeptIndex(front, k);
    }
  }

  // ---------------------------------------------------------------------
  // Status line
  // ---------------------------------------------------------------------

  datatype SummaryStatus = Idle | Processing | Summarizing | Regenerating | Completed | Failed

  /** `isSummaryLoading`, the same on both pages. */
  predicate IsSummaryLoading(s: SummaryStatus)
  {
    s == Processing || s == Summarizing || s == Regenerating
  }

  /** What the home page's right-hand pane shows: a spinner, the editor
      (with the status box under it or not), or nothing. */
  datatype SummaryPane = Spinner | EditorPane(statusBox: bool) | Blank

  /** The home page's right-hand pane: the spinner while a summary is
      loading, otherwise the editor once there is a summary to show, with
      the status box under it unless the status is idle. */
  function HomeSummaryPane(s: SummaryStatus, showSummary: bool): (r: SummaryPane)
    ensures r == Spinner <==> IsSummaryLoading(s)
    ensures r.EditorPane? <==> !IsSummaryLoading(s) && showSummary
    ensures r.EditorPane? && r.statusBox ==> s == Completed || s == Failed
    ensures r.EditorPane? && (s == Completed || s == Failed) ==> r.statusBox
  {
    if IsSummaryLoading(s) then Spinner
    else if showSummary then EditorPane(s != Idle)
    else Blank
  }

  /** The home page's status line; on error it shows the stored error text,
      or a generic line when there is none. */
  function HomeStatusMessage(s: SummaryStatus, summaryError: Option<string>): (r: string)
    ensures r != ""
    ensures s == Failed ==> r == if summaryError.Some? && summaryError.value != "" then summaryError.value else "An error occurred"
  {
    match s
    case Idle => "Ready to generate summary"
    case Processing => "Processing transcript..."
    case Summarizing => "Generating AI summary..."
    case Regenerating => "Regenerating AI summary..."
    case Completed => "Summary generated successfully!"
    case Failed => if summaryError.Some? && summaryError.value != "" then summaryError.value else "An error occurred"
  }

  /** The details page's status line; idle shows nothing. */
  function DetailsStatusMessage(s: SummaryStatus): (r: string)
    ensures r == "" <==> s == Idle
  {
    match s
    case Processing => "Processing transcript..."
    case Summarizing => "Generating summary..."
    case Regenerating => "Regenerating summary..."
    case Completed => "Summary completed"
    case Failed => "Error generating summary"
    case Idle => ""
  }

  /** Each status has its own line on each page (the error line on the home
      page aside, which carries the error text). */
  lemma StatusMessagesDistinct(s: SummaryStatus, t: SummaryStatus, e: Option<string>)
    requires s != t
    ensures DetailsStatusMessage(s) != DetailsStatusMessage(t)
    ensures s != Failed && t != Failed ==> HomeStatusMessage(s, e) != HomeStatusMessage(t, e)
  {
  }

  // ---------------------------------------------------------------------
  // Meetings
  // ---------------------------------------------------------------------

  datatype Meeting = Meeting(id: string, title: string)

  /** `setMeetings(prev => prev.map(m => m.id === id ? { ...m, title } : m))`. */
  function RenameMeeting(meetings: seq<Meeting>, id: string, title: string): (r: seq<Meeting>)
    ensures |r| == |meetings|
    ensures forall k :: 0 <= k < |meetings| ==>
              r[k] == if meetings[k].id == id then meetings[k].(title := title) else meetings[k]
  {
    seq(|meetings|, k requires 0 <= k < |meetings| =>
      if meetings[k].id == id then meetings[k].(title := title) else meetings[k])
  }

  /** Renaming keeps every id, touches no other meeting, and renaming again
      with the same title changes nothing. */
  lemma RenameMeetingProperties(meetings: seq<Meeting>, id: string, title: string)
    ensures forall k :: 0 <= k < |meetings| ==> RenameMeeting(meetings, id, title)[k].id == meetings[k].id
    ensures forall k :: 0 <= k < |meetings| && meetings[k].id == id ==> RenameMeeting(meetings, id, title)[k].title == title
    ensures RenameMeeting(RenameMeeting(meetings, id, title), id, title) == RenameMeeting(meetings, id, title)
  {
  }
}
