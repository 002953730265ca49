/** The summary document edited by the AI summary view: an ordered map from
    section key to section, each section an ordered list of blocks.
    The JavaScript object is modelled as a sequence of key/section entries
    whose keys are distinct; its key order is the order of the sequence. */
module Document {
  import opened Wrappers
  import opened Strings

  /** A block's `type`. Any other string the payload carries is `Unknown`. */
  datatype BlockKind = Text | Bullet | Heading1 | Heading2 | Unknown(tag: string)

  datatype Block = Block(id: string, kind: BlockKind, content: string, color: string)

  datatype Section = Section(title: string, blocks: seq<Block>)

  datatype Entry = Entry(key: string, section: Section)

  type Summary = seq<Entry>

  // ---------------------------------------------------------------------
  // The ordered map
  // ---------------------------------------------------------------------

  predicate UniqueKeys(doc: Summary)
  {
    forall i, j :: 0 <= i < j < |doc| ==> doc[i].key != doc[j].key
  }

  predicate HasKey(doc: Summary, key: string)
  {
    exists i :: 0 <= i < |doc| && doc[i].key == key
  }

  function Keys(doc: Summary): (ks: seq<string>)
    ensures |ks| == |doc|
    ensures forall i :: 0 <= i < |doc| ==> ks[i] == doc[i].key
  {
    seq(|doc|, i requires 0 <= i < |doc| => doc[i].key)
  }

  /** Position of `key` in the entry order, if present. */
  function KeyIndex(doc: Summary, key: string): (r: Option<nat>)
    ensures r.Some? ==> r.value < |doc| && doc[r.value].key == key
    ensures r.Some? ==> forall i :: 0 <= i < r.value ==> doc[i].key != key
    ensures r.None? <==> !HasKey(doc, key)
    decreases |doc|
  {
    if |doc| == 0 then None
    else if doc[0].key == key then Some(0)
    else match KeyIndex(doc[1..], key)
      case None => None
      case Some(i) => Some(i + 1)
  }

  /** `summary[key]`. */
  function Get(doc: Summary, key: string): (r: Option<Section>)
    ensures r.None? <==> !HasKey(doc, key)
    ensures r.Some? ==> exists i :: 0 <= i < |doc| && doc[i] == Entry(key, r.value)
  {
    match KeyIndex(doc, key)
    case None => None
    case Some(i) => Some(doc[i].section)
  }

  /** `{ ...summary, [key]: section }`: an existing key keeps its position and
      gets the new section; a new key is appended at the end. */
  function Put(doc: Summary, key: string, section: Section): (r: Summary)
    requires UniqueKeys(doc)
    ensures UniqueKeys(r)
    ensures HasKey(doc, key) ==> |r| == |doc|
    ensures HasKey(doc, key) ==> forall i :: 0 <= i < |doc| ==>
              r[i] == if doc[i].key == key then Entry(key, section) else doc[i]
    ensures !HasKey(doc, key) ==> r == doc + [Entry(key, section)]
  {
    match KeyIndex(doc, key)
    case None => doc + [Entry(key, section)]
    case Some(i) => doc[i := Entry(key, section)]
  }

  /** `delete summary[key]`: the entry goes, the others keep their order. */
  function Remove(doc: Summary, key: string): (r: Summary)
    requires UniqueKeys(doc)
    ensures UniqueKeys(r)
    ensures !HasKey(r, key)
    ensures forall k :: k != key ==> (HasKey(r, k) <==> HasKey(doc, k))
    ensures !HasKey(doc, key) ==> r == doc
    ensures HasKey(doc, key) ==> |r| == |doc| - 1
    ensures forall i :: 0 <= i < |doc| && doc[i].key == key ==> r == doc[..i] + doc[i + 1..]
  {
    match KeyIndex(doc, key)
    case None => doc
    case Some(i) =>
      DropEntryKeys(doc, i);
      doc[..i] + doc[i + 1..]
  }

  /** Dropping the entry at `i` drops its key and keeps every other one. */
  lemma DropEntryKeys(doc: Summary, i: nat)
    requires UniqueKeys(doc) && i < |doc|
    ensures var r := doc[..i] + doc[i + 1..];
            && |r| == |doc| - 1
            && UniqueKeys(r)
            && !HasKey(r, doc[i].key)
            && forall k :: k != doc[i].key ==> (HasKey(r, k) <==> HasKey(doc, k))
  {
    var r := doc[..i] + doc[i + 1..];
    assert forall k :: 0 <= k < |r| ==> r[k] == if k < i then doc[k] else doc[k + 1];
    forall k | k != doc[i].key && HasKey(doc, k) ensures HasKey(r, k) {
      var m :| 0 <= m < |doc| && doc[m].key == k;
      if m < i { assert r[m].key == k; } else { assert r[m - 1].key == k; }
    }
  }

  /** Replacing the section of an existing key with something built from it
      (`{ ...summary, [key]: { ...summary[key], … } }`). */
  function Update(doc: Summary, i: nat, section: Section): (r: Summary)
    requires i < |doc|
    ensures |r| == |doc| && Keys(r) == Keys(doc)
    ensures r[i] == Entry(doc[i].key, section)
    ensures forall k :: 0 <= k < |doc| && k != i ==> r[k] == doc[k]
  {
    doc[i := Entry(doc[i].key, section)]
  }

  lemma UpdateKeepsUniqueKeys(doc: Summary, i: nat, section: Section)
    requires i < |doc| && UniqueKeys(doc)
    ensures UniqueKeys(Update(doc, i, section))
  {
    assert Keys(Update(doc, i, section)) == Keys(doc);
  }

  /** Updating an entry is what the spread with that entry's key does. */
  lemma UpdateIsPut(doc: Summary, i: nat, section: Section)
    requires i < |doc| && UniqueKeys(doc)
    ensures Update(doc, i, section) == Put(doc, doc[i].key, section)
  {
    assert HasKey(doc, doc[i].key);
  }

  /** The document shown when no summary has arrived: four sections, none of
      them with a block. */
  function DefaultSummary(): (r: Summary)
    ensures UniqueKeys(r)
    ensures Keys(r) == ["Agenda", "Decisions", "ActionItems", "ClosingRemarks"]
    ensures forall i :: 0 <= i < |r| ==> r[i].section.blocks == []
    ensures Get(r, "ActionItems") == Some(Section("Action Items", []))
  {
    [ Entry("Agenda", Section("Agenda", [])),
      Entry("Decisions", Section("Decisions", [])),
      Entry("ActionItems", Section("Action Items", [])),
      Entry("ClosingRemarks", Section("Closing Remarks", [])) ]
  }

  // ---------------------------------------------------------------------
  // Flattening
  // ---------------------------------------------------------------------

  /** One element of `getAllBlocks()`. */
  datatype FlatBlock = FlatBlock(id: string, sectionKey: string)

  function TotalBlocks(doc: Summary): nat
  {
    if |doc| == 0 then 0 else TotalBlocks(doc[..|doc| - 1]) + |doc[|doc| - 1].section.blocks|
  }

  /** The flat entries of one section. */
  function SectionFlat(key: string, blocks: seq<Block>): (r: seq<FlatBlock>)
    ensures |r| == |blocks|
    ensures forall j :: 0 <= j < |blocks| ==> r[j] == FlatBlock(blocks[j].id, key)
  {
    seq(|blocks|, j requires 0 <= j < |blocks| => FlatBlock(blocks[j].id, key))
  }

  /** All blocks: the sections in entry order, each section's blocks in block
      order. */
  function Flatten(doc: Summary): (r: seq<FlatBlock>)
  {
    if |doc| == 0 then []
    else Flatten(doc[..|doc| - 1]) + SectionFlat(doc[|doc| - 1].key, doc[|doc| - 1].section.blocks)
  }

  function FlatIds(doc: Summary): (r: seq<string>)
    ensures |r| == |Flatten(doc)|
    ensures forall k :: 0 <= k < |r| ==> r[k] == Flatten(doc)[k].id
  {
    var f := Flatten(doc);
    seq(|f|, k requires 0 <= k < |f| => f[k].id)
  }

  lemma {:induction false} FlattenLength(doc: Summary)
    ensures |Flatten(doc)| == TotalBlocks(doc)
  {
    if |doc| > 0 {
      FlattenLength(doc[..|doc| - 1]);
    }
  }

  lemma {:induction false} FlattenAppend(a: Summary, b: Summary)
    ensures Flatten(a + b) == Flatten(a) + Flatten(b)
    ensures TotalBlocks(a + b) == TotalBlocks(a) + TotalBlocks(b)
    decreases |b|
  {
    if |b| > 0 {
      var b' := b[..|b| - 1];
      assert (a + b)[..|a + b| - 1] == a + b';
      FlattenAppend(a, b');
    } else {
      assert a + b == a;
    }
  }

  /** Block `j` of section `i` sits in the flat list right after all the
      blocks of the sections before `i` and the blocks before `j`. */
  lemma {:induction false} FlattenAt(doc: Summary, i: nat, j: nat)
    requires i < |doc| && j < |doc[i].section.blocks|
    ensures TotalBlocks(doc[..i]) + j < |Flatten(doc)|
    ensures Flatten(doc)[TotalBlocks(doc[..i]) + j] == FlatBlock(doc[i].section.blocks[j].id, doc[i].key)
  {
    assert doc == doc[..i] + [doc[i]] + doc[i + 1..];
    FlattenAppend(doc[..i] + [doc[i]], doc[i + 1..]);
    FlattenAppend(doc[..i], [doc[i]]);
    assert ([] + [doc[i]]) == [doc[i]];
    assert Flatten([doc[i]]) == Flatten([doc[i]][..0]) + SectionFlat(doc[i].key, doc[i].section.blocks);
    FlattenLength(doc[..i]);
  }

  /** Every flat entry comes from some block of some section. */
  lemma {:induction false} FlattenFrom(doc: Summary, k: nat)
    requires k < |Flatten(doc)|
    ensures exists i, j :: 0 <= i < |doc| && 0 <= j < |doc[i].section.blocks|
                           && TotalBlocks(doc[..i]) + j == k
                           && Flatten(doc)[k] == FlatBlock(doc[i].section.blocks[j].id, doc[i].key)
  {
    var n := |doc| - 1;
    var front := doc[..n];
    assert doc[..n] == front;
    FlattenLength(front);
    if k < |Flatten(front)| {
      FlattenFrom(front, k);
      var i, j :| 0 <= i < |front| && 0 <= j < |front[i].section.blocks|
                  && TotalBlocks(front[..i]) + j == k
                  && Flatten(front)[k] == FlatBlock(front[i].section.blocks[j].id, front[i].key);
      assert front[..i] == doc[..i];
    } else {
      var j := k - |Flatten(front)|;
      assert Flatten(doc)[k] == SectionFlat(doc[n].key, doc[n].section.blocks)[j];
    }
  }

  /** `getAllBlocks`: push every block of every section, in order. */
  method GetAllBlocks(doc: Summary) returns (all: seq<FlatBlock>)
    ensures all == Flatten(doc)
    ensures |all| == TotalBlocks(doc)
  {
    all := [];
    var i := 0;
    while i < |doc|
      invariant 0 <= i <= |doc|
      invariant all == Flatten(doc[..i])
    {
      var key := doc[i].key;
      var blocks := doc[i].section.blocks;
      var j := 0;
      while j < |blocks|
        invariant 0 <= j <= |blocks|
        invariant all == Flatten(doc[..i]) + SectionFlat(key, blocks[..j])
      {
        all := all + [FlatBlock(blocks[j].id, key)];
        j := j + 1;
      }
      assert blocks[..j] == blocks;
      assert doc[..i + 1][..i] == doc[..i];
      i := i + 1;
    }
    assert doc[..i] == doc;
    FlattenLength(doc);
  }

  // ---------------------------------------------------------------------
  // Lookup
  // ---------------------------------------------------------------------

  /** `blocks.findIndex(b => b.id === id)`, with -1 for "absent". */
  function BlockIndex(blocks: seq<Block>, id: string): (r: int)
    ensures -1 <= r < |blocks|
    ensures r >= 0 ==> blocks[r].id == id && forall j :: 0 <= j < r ==> blocks[j].id != id
    ensures r == -1 <==> forall j :: 0 <= j < |blocks| ==> blocks[j].id != id
    decreases |blocks|
  {
    if |blocks| == 0 then -1
    else if blocks[0].id == id then 0
    else
      var r := BlockIndex(blocks[1..], id);
      if r == -1 then -1 else r + 1
  }

  predicate InSection(section: Section, id: string)
  {
    exists j :: 0 <= j < |section.blocks| && section.blocks[j].id == id
  }

  /** Where a block lives: its section's position and its own position. */
  datatype Location = Location(sectionIndex: nat, blockIndex: nat)

  predicate ValidLocation(doc: Summary, loc: Location)
  {
    loc.sectionIndex < |doc| && loc.blockIndex < |doc[loc.sectionIndex].section.blocks|
  }

  /** The first section (in entry order) holding a block with this id, and
      the first such block in it. */
  function Locate(doc: Summary, id: string): (r: Option<Location>)
    ensures r.Some? ==> ValidLocation(doc, r.value)
    ensures r.Some? ==> doc[r.value.sectionIndex].section.blocks[r.value.blockIndex].id == id
    ensures r.Some? ==> forall j :: 0 <= j < r.value.blockIndex ==>
              doc[r.value.sectionIndex].section.blocks[j].id != id
    ensures r.Some? ==> forall i :: 0 <= i < r.value.sectionIndex ==> !InSection(doc[i].section, id)
    ensures r.None? <==> forall i :: 0 <= i < |doc| ==> !InSection(doc[i].section, id)
    decreases |doc|
  {
    if |doc| == 0 then None
    else
      var j := BlockIndex(doc[0].section.blocks, id);
      if j >= 0 then Some(Location(0, j))
      else match Locate(doc[1..], id)
        case None => None
        case Some(loc) => Some(Location(loc.sectionIndex + 1, loc.blockIndex))
  }

  /** An id is in the flat list exactly when Locate finds it. */
  lemma LocateIffFlat(doc: Summary, id: string)
    ensures Locate(doc, id).Some? <==> id in FlatIds(doc)
  {
    if Locate(doc, id).Some? {
      var loc := Locate(doc, id).value;
      FlattenAt(doc, loc.sectionIndex, loc.blockIndex);
      assert FlatIds(doc)[TotalBlocks(doc[..loc.sectionIndex]) + loc.blockIndex] == id;
    }
    if id in FlatIds(doc) {
      var k :| 0 <= k < |FlatIds(doc)| && FlatIds(doc)[k] == id;
      FlattenFrom(doc, k);
      var i, j :| 0 <= i < |doc| && 0 <= j < |doc[i].section.blocks|
                  && TotalBlocks(doc[..i]) + j == k
                  && Flatten(doc)[k] == FlatBlock(doc[i].section.blocks[j].id, doc[i].key);
      assert InSection(doc[i].section, id);
    }
  }

  datatype Found = Found(block: Block, sectionKey: string)

  /** `findBlockAndSection`: scan the sections in order and return the first
      block with this id together with its section's key, or nothing. */
  method FindBlockAndSection(doc: Summary, id: string) returns (r: Option<Found>)
    ensures r.Some? ==> r.value.block.id == id
    ensures r.Some? ==> exists i :: 0 <= i < |doc| && doc[i].key == r.value.sectionKey
                                    && r.value.block in doc[i].section.blocks
    ensures r.None? <==> id !in FlatIds(doc)
    ensures r == match Locate(doc, id)
                 case None => None
                 case Some(loc) => Some(Found(doc[loc.sectionIndex].section.blocks[loc.blockIndex],
                                              doc[loc.sectionIndex].key))
  {
    LocateIffFlat(doc, id);
    var i := 0;
    while i < |doc|
      invariant 0 <= i <= |doc|
      invariant Locate(doc, id) == Shifted(Locate(doc[i..], id), i)
    {
      var j := BlockIndex(doc[i].section.blocks, id);
      LocateSuffix(doc, id, i);
      if j >= 0 {
        return Some(Found(doc[i].section.blocks[j], doc[i].key));
      }
      i := i + 1;
    }
    assert doc[i..] == [];
    return None;
  }

  /** A location found in `doc[i..]`, as a location in `doc`. */
  function Shifted(o: Option<Location>, i: nat): (r: Option<Location>)
    ensures r.Some? <==> o.Some?
    ensures r.Some? ==> r.value == Location(o.value.sectionIndex + i, o.value.blockIndex)
  {
    match o
    case None => None
    case Some(loc) => Some(Location(loc.sectionIndex + i, loc.blockIndex))
  }

  /** One step of the search over the sections from `i` on: the block is in
      section `i`, or the search goes on from `i + 1`. */
  lemma LocateSuffix(doc: Summary, id: string, i: nat)
    requires i < |doc|
    ensures var j := BlockIndex(doc[i].section.blocks, id);
            && (j >= 0 ==> Shifted(Locate(doc[i..], id), i) == Some(Location(i, j)))
            && (j < 0 ==> Shifted(Locate(doc[i..], id), i) == Shifted(Locate(doc[i + 1..], id), i + 1))
  {
    var d := doc[i..];
    assert d[0] == doc[i];
    LocateFirst(d, id);
    if BlockIndex(doc[i].section.blocks, id) < 0 {
      assert d[1..] == doc[i + 1..];
      var o := Locate(doc[i + 1..], id);
      assert Locate(d, id) == Shifted(o, 1);
      assert Shifted(Shifted(o, 1), i) == Shifted(o, i + 1);
    }
  }

  /** `Locate` looks at the first section, then at the rest. */
  lemma LocateFirst(d: Summary, id: string)
    requires |d| > 0
    ensures var j := BlockIndex(d[0].section.blocks, id);
            && (j >= 0 ==> Locate(d, id) == Some(Location(0, j)))
            && (j < 0 ==> Locate(d, id) == Shifted(Locate(d[1..], id), 1))
  {
  }

  // ---------------------------------------------------------------------
  // Block id normalisation
  // ---------------------------------------------------------------------

  /** Every block's id mentions the key of its section: the shape
      `ensureUniqueBlockIds` leaves behind. */
  predicate KeyedIds(doc: Summary)
  {
    forall i :: 0 <= i < |doc| ==> KeyedBlocks(doc[i].key, doc[i].section.blocks)
  }

  predicate KeyedBlocks(key: string, blocks: seq<Block>)
  {
    forall j :: 0 <= j < |blocks| ==> Contains(blocks[j].id, key)
  }

  /** `generateUniqueId(key)`: the key, a dash and a caller-supplied stamp
      (the source uses the clock and a random number). */
  function GeneratedId(key: string, stamp: string): (id: string)
    ensures Contains(id, key)
  {
    StartsWithContains(key + "-" + stamp, key);
    key + "-" + stamp
  }

  /** The `map` inside `ensureUniqueBlockIds` for one section: ids that
      mention the key stay, the others are regenerated. */
  function RekeyBlocks(key: string, blocks: seq<Block>, stamp: nat -> string): (r: seq<Block>)
    ensures |r| == |blocks|
    ensures forall j :: 0 <= j < |blocks| ==>
              r[j] == blocks[j].(id := if Contains(blocks[j].id, key) then blocks[j].id
                                        else GeneratedId(key, stamp(j)))
  {
    seq(|blocks|, j requires 0 <= j < |blocks| =>
      blocks[j].(id := if Contains(blocks[j].id, key) then blocks[j].id else GeneratedId(key, stamp(j))))
  }

  /** `ensureUniqueBlockIds`: walk the sections and reassign each section's
      block list. `stamp(i, j)` is the stamp the clock and the random
      generator would give block `j` of section `i`. */
  method EnsureUniqueBlockIds(doc: Summary, stamp: (nat, nat) -> string) returns (r: Summary)
    ensures |r| == |doc| && Keys(r) == Keys(doc)
    ensures forall i :: 0 <= i < |doc| ==> r[i].section.title == doc[i].section.title
    ensures forall i :: 0 <= i < |doc| ==> |r[i].section.blocks| == |doc[i].section.blocks|
    ensures forall i, j :: 0 <= i < |doc| && 0 <= j < |doc[i].section.blocks| ==>
              var b := doc[i].section.blocks[j];
              r[i].section.blocks[j] == b.(id := if Contains(b.id, doc[i].key) then b.id
                                                 else GeneratedId(doc[i].key, stamp(i, j)))
    ensures KeyedIds(r)
    ensures KeyedIds(doc) ==> r == doc
  {
    r := doc;
    var i := 0;
    while i < |doc|
      invariant 0 <= i <= |doc|
      invariant |r| == |doc|
      invariant forall k :: 0 <= k < |doc| ==> r[k].key == doc[k].key
      invariant forall k :: i <= k < |doc| ==> r[k] == doc[k]
      invariant forall k :: 0 <= k < i ==>
                  r[k] == Entry(doc[k].key, Section(doc[k].section.title,
                    RekeyBlocks(doc[k].key, doc[k].section.blocks, (j: nat) => stamp(k, j))))
    {
      var key := doc[i].key;
      var section := doc[i].section;
      r := r[i := Entry(key, section.(blocks := RekeyBlocks(key, section.blocks, (j: nat) => stamp(i, j))))];
      i := i + 1;
    }
    forall i | 0 <= i < |doc|
      ensures KeyedBlocks(r[i].key, r[i].section.blocks)
    {
    }
    if KeyedIds(doc) {
      forall i | 0 <= i < |doc| ensures r[i] == doc[i] {
        assert r[i].section.blocks == doc[i].section.blocks;
      }
    }
  }
}
