/** The Markdown export of the summary (`convertToMarkdown`). */
module Markdown {
  import opened Wrappers
  import opened Document

  /** The meeting the summary belongs to, as far as the export reads it. */
  datatype MeetingRef = MeetingRef(id: string, title: string)

  /** JavaScript's `s || fallback` on a string. */
  function OrElse(s: string, fallback: string): (r: string)
    ensures s == "" ==> r == fallback
    ensures s != "" ==> r == s
  {
    if s == "" then fallback else s
  }

  /** The two header lines. `date` is the already formatted creation date
      (or today's date when the meeting has none). */
  function Header(meeting: Option<MeetingRef>, date: string): (r: string)
    ensures var lead := "# AI Generated Summary of Meeting: ";
            |lead| <= |r| && r[..|lead|] == lead
    ensures var dateLine := "## Date: " + date + "\n\n";
            |dateLine| <= |r| && r[|r| - |dateLine|..] == dateLine
    ensures meeting.Some? && meeting.value.id != "" && meeting.value.title != "" ==>
              r == "# AI Generated Summary of Meeting: " + meeting.value.id + " - " + meeting.value.title + "\n\n"
                   + "## Date: " + date + "\n\n"
  {
    var id := if meeting.Some? then meeting.value.id else "";
    var title := if meeting.Some? then meeting.value.title else "";
    var lead := "# AI Generated Summary of Meeting: ";
    var dateLine := "## Date: " + date + "\n\n";
    var r := lead + (OrElse(id, "Unknown") + " - " + OrElse(title, "Untitled Meeting") + "\n\n" + dateLine);
    assert r[..|lead|] == lead;
    r
  }

  /** One block: headings become level-3 and level-4 headings, bullets list
      items on consecutive lines, and text (or any other type) a paragraph. */
  function BlockText(b: Block): string
  {
    match b.kind
    case Heading1 => "### " + b.content + "\n\n"
    case Heading2 => "#### " + b.content + "\n\n"
    case Bullet => "- " + b.content + "\n"
    case _ => b.content + "\n\n"
  }

  /** The blocks of a section, one after the other. */
  function BlocksText(blocks: seq<Block>): string
  {
    if |blocks| == 0 then "" else BlocksText(blocks[..|blocks| - 1]) + BlockText(blocks[|blocks| - 1])
  }

  predicate HasBullet(blocks: seq<Block>)
  {
    exists j :: 0 <= j < |blocks| && blocks[j].kind == Bullet
  }

  /** An ordinary section: its title (or its key when the title is empty) as
      a level-2 heading, its blocks, and a blank line after a section with
      any bullet. */
  function SectionText(e: Entry): string
  {
    "## " + OrElse(e.section.title, e.key) + "\n\n" + BlocksText(e.section.blocks)
    + (if HasBullet(e.section.blocks) then "\n" else "")
  }

  /** What a section keyed "title" replaces the whole output with. */
  function TitleText(e: Entry): string
  {
    "# " + OrElse(e.section.title, "AI Enhanced Summary") + "\n\n"
  }

  /** The effect of one entry on the text so far. */
  function Step(out: string, e: Entry): string
  {
    if e.key == "title" then TitleText(e) else out + SectionText(e)
  }

  /** The export of `entries` in order, starting from `start`. */
  function Render(start: string, entries: seq<Entry>): string
  {
    if |entries| == 0 then start else Step(Render(start, entries[..|entries| - 1]), entries[|entries| - 1])
  }

  /** The inner `forEach` of `convertToMarkdown`: one `+=` per block, of the
      template its type selects. */
  method AppendBlocks(out: string, blocks: seq<Block>) returns (markdown: string)
    ensures markdown == out + BlocksText(blocks)
  {
    markdown := out;
    var j := 0;
    while j < |blocks|
      invariant 0 <= j <= |blocks|
      invariant markdown == out + BlocksText(blocks[..j])
    {
      var b := blocks[j];
      var piece: string;
      match b.kind {
        case Heading1 => piece := "### " + b.content + "\n\n";
        case Heading2 => piece := "#### " + b.content + "\n\n";
        case Bullet => piece := "- " + b.content + "\n";
        case _ => piece := b.content + "\n\n";
      }
      AppendStep(out, blocks, j, markdown, piece);
      markdown := markdown + piece;
      j := j + 1;
    }
    assert blocks[..j] == blocks;
  }

  /** One more block's text on the output keeps it the start followed by
      the blocks so far. */
  lemma AppendStep(out: string, blocks: seq<Block>, j: nat, markdown: string, piece: string)
    requires j < |blocks| && markdown == out + BlocksText(blocks[..j]) && piece == BlockText(blocks[j])
    ensures markdown + piece == out + BlocksText(blocks[..j + 1])
  {
    assert blocks[..j + 1][..j] == blocks[..j];
  }

  /** `convertToMarkdown`: start from the header, then per section either
      replace the whole text (a key "title") or append the heading, the
      blocks and, after any bullet, a blank line. */
  method ConvertToMarkdown(meeting: Option<MeetingRef>, date: string, doc: Summary) returns (markdown: string)
    ensures markdown == Render(Header(meeting, date), doc)
  {
    markdown := Header(meeting, date);
    var i := 0;
    while i < |doc|
      invariant 0 <= i <= |doc|
      invariant markdown == Render(Header(meeting, date), doc[..i])
    {
      assert doc[..i + 1][..i] == doc[..i];
      var key, section := doc[i].key, doc[i].section;
      if key == "title" {
        markdown := "# " + OrElse(section.title, "AI Enhanced Summary") + "\n\n";
      } else {
        var heading := "## " + OrElse(section.title, key) + "\n\n";
        var withBlocks := AppendBlocks(markdown + heading, section.blocks);
        var tail := if exists k :: 0 <= k < |section.blocks| && section.blocks[k].kind == Bullet then "\n" else "";
        Regroup(markdown, heading, BlocksText(section.blocks), tail);
        markdown := withBlocks + tail;
      }
      i := i + 1;
    }
    assert doc[..i] == doc;
  }

  /** Appending three pieces one by one appends their concatenation: the
      step that lets the export loop add a section in one go. */
  lemma Regroup(out: string, heading: string, body: string, tail: string)
    ensures out + heading + body + tail == out + (heading + body + tail)
  {
  }

  /** Exporting a + b is exporting b after the export of a. */
  lemma {:induction false} RenderAppend(start: string, a: seq<Entry>, b: seq<Entry>)
    ensures Render(start, a + b) == Render(Render(start, a), b)
    decreases |b|
  {
    if |b| == 0 {
      assert a + b == a;
    } else {
      assert (a + b)[..|a + b| - 1] == a + b[..|b| - 1];
      RenderAppend(start, a, b[..|b| - 1]);
    }
  }

  /** A section keyed "title" throws away everything before it, meeting
      header included: the output starts over with the title heading. */
  lemma TitleDiscardsEarlierOutput(start: string, a: seq<Entry>, t: Section, b: seq<Entry>)
    ensures Render(start, a + [Entry("title", t)] + b)
         == Render("# " + OrElse(t.title, "AI Enhanced Summary") + "\n\n", b)
  {
    RenderAppend(start, a + [Entry("title", t)], b);
    RenderAppend(start, a, [Entry("title", t)]);
    assert [Entry("title", t)][..0] == [];
  }

  predicate NoTitleKey(entries: seq<Entry>)
  {
    forall i :: 0 <= i < |entries| ==> entries[i].key != "title"
  }

  /** Without a "title" key every section only adds text: the output is the
      start followed by each section's text in entry order. */
  lemma {:induction false} RenderWithoutTitle(start: string, entries: seq<Entry>)
    requires NoTitleKey(entries)
    ensures |Render(start, entries)| >= |start|
    ensures Render(start, entries)[..|start|] == start
    ensures |entries| > 0 ==>
              Render(start, entries) == Render(start, entries[..|entries| - 1]) + SectionText(entries[|entries| - 1])
  {
    if |entries| > 0 {
      RenderWithoutTitle(start, entries[..|entries| - 1]);
    }
  }

  /** Without a meeting, the header falls back to "Unknown" and
      "Untitled Meeting", and a meeting with an empty id and title reads
      the same as none. */
  lemma HeaderWithoutMeeting(date: string)
    ensures Header(None, date) == Header(Some(MeetingRef("Unknown", "Untitled Meeting")), date)
    ensures Header(Some(MeetingRef("", "")), date) == Header(None, date)
  {
  }

  /** A section with an empty title, two bullets and a paragraph: the key is
      the heading, the bullets sit on consecutive lines, and a blank line
      closes the section. */
  lemma ExportExample(start: string, blocks: seq<Block>)
    requires blocks == [Block("a", Bullet, "x", "default"), Block("b", Bullet, "y", "default"), Block("c", Text, "z", "default")]
    ensures Render(start, [Entry("ActionItems", Section("", blocks))])
         == start + ("## " + "ActionItems" + "\n\n") + ("- x\n" + "- y\n" + "z\n\n") + "\n"
  {
    assert blocks[..2][..1] == blocks[..1];
    assert blocks[..1][..0] == [];
    assert BlocksText(blocks[..1]) == "- x\n";
    assert BlocksText(blocks[..2]) == "- x\n" + "- y\n";
    assert BlocksText(blocks) == "- x\n" + "- y\n" + "z\n\n";
    assert HasBullet(blocks) by { assert blocks[0].kind == Bullet; }
    var e := Entry("ActionItems", Section("", blocks));
    assert [e][..0] == [];
    assert Render(start, [e]) == start + SectionText(e);
  }
}
