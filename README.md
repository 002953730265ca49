# Meeting assistant front end: the summary editor and its surroundings

This project models the logic in the front end of a meeting assistant. The
assistant records a call, shows the live transcript and asks a language
model for a structured summary. The summary is a document: an ordered map
from section keys to sections, and each section holds a title and a list
of blocks. A block has an id, a type (heading1, heading2, bullet or text),
a content and a color.

The model covers:

- **The AI summary editor** (`AISummary`). It covers:
  - normalising block ids on every incoming document;
  - the undo/redo history;
  - the flattened block list, and range and neighbour selection;
  - the mouse and keyboard handlers: split on Enter, merge or delete,
    delete the selection, copy the selection, add or delete a section;
  - the Markdown export.
- **The two pages around it** (home page and meeting details):
  - de-duplicating transcript updates;
  - turning a finished backend result into a document: drop
    `MeetingName`, make bullets, trim;
  - the all-empty rejection on the details page;
  - the status lines and the loading flag;
  - renaming a meeting in the meeting list.
- **The sidebar:** the expanded-folder set, the meeting-item and disabled
  rules, routing by id, and the meeting list after a deletion.
- **The record button:** the start guard, and the five-second stop
  countdown that can be cancelled. Also the button dispatch, the countdown
  label and `formatTime`.
- **The model settings dialog:** which providers need an API key, when Done
  is enabled, provider and model changes, and what Save stores.

How the modules map to the code:

- **Pure parts** are Dafny functions with lemmas: `Document`, `Selection`,
  `Mutations`, `Markdown`, `MeetingPages`, and the pure halves of `Sidebar`,
  `RecordingControls` and `ModelSettings`.
- **Stateful parts** are classes whose methods change fields. These are the
  editor (`SummaryEditor.Editor`), its history (`UndoHistory.History`), the
  sidebar (`Sidebar.SidebarState`), the record button
  (`RecordingControls.Controls`) and the dialog (`ModelSettings.Modal`).
- **Loops** are methods with invariants: collecting all blocks, finding a
  block, normalising ids, grouping and deleting the selection, the Markdown
  export, and formatting a result.

The editor's handlers never change the document themselves. They hand a new
document to the parent (`onSummaryChange`), which passes it back as the next
`summary` prop. `Editor.Receive` models that return trip: normalisation by
the memo, then the recording effect.

The document is a sequence of entries with distinct keys. Object spread with
a key replaces that entry in place, or appends a new key at the end. The
model assumes JavaScript's insertion order for `Object.entries`; see
"Left out".

JavaScript truthiness is written out where the code relies on it:

- an empty or missing string counts as false (`mergeContent`,
  `dataset.newBlockContent`, `MeetingName`, `summaryError`, a section title
  in the export);
- so does an empty section key (`if (!blockSectionKey) return`).

Clocks and randomness are parameters:

- new block ids take a caller-supplied `stamp`;
- `handleAddSection` takes the clock reading `now`;
- the export takes the formatted `date`.

Network answers are parameters as well: the record button's start result
(`FinishStart(succeeded)`), the delete request's `ok`, and the fetched API
key (`KeyFetched`).

## Model

| member | source | states |
|---|---|---|
| Document.DefaultSummary | frontend/src/components/AISummary/index.tsx:44-51 | Without a summary the view shows the four sections Agenda, Decisions, ActionItems and ClosingRemarks in that order. Their keys are distinct and they hold no blocks. |
| Document.Put | frontend/src/components/AISummary/index.tsx:173-181 | Object spread with a key: an existing key keeps its position and gets the new section, and a new key is appended at the end. Keys stay distinct. |
| Document.Remove | frontend/src/components/AISummary/index.tsx:497-500 | `delete` of a key: that entry is gone, every other key is kept in order, and a missing key changes nothing. |
| Document.DropEntryKeys | frontend/src/components/AISummary/index.tsx:497-500 | Dropping one entry keeps the other keys distinct and present and removes that entry's key. |
| Document.UpdateIsPut | frontend/src/components/AISummary/index.tsx:259-265 | Rewriting the entry at a position is the spread with that entry's key. |
| Document.GetAllBlocks | frontend/src/components/AISummary/index.tsx:95-103 | The loop returns the flattened list: sections in entry order, blocks in block order. Its length is the total block count. |
| Document.FlattenLength | frontend/src/components/AISummary/index.tsx:95-103 | The flattened list has one entry per block of the document. |
| Document.FlattenAt | frontend/src/components/AISummary/index.tsx:97-100 | The block at position j of section i sits in the flat list right after all blocks of the earlier sections, tagged with its section's key. |
| Document.FlattenAppend | frontend/src/components/AISummary/index.tsx:97-100 | Flattening two documents one after the other concatenates their flat lists and adds their block counts. |
| Document.FlattenFrom | frontend/src/components/AISummary/index.tsx:97-100 | Every flat entry comes from some block of some section. |
| Document.BlockIndex | frontend/src/components/AISummary/index.tsx:226 | `findIndex`: the first block with the id, or -1 exactly when no block has it. |
| Document.Locate | frontend/src/components/AISummary/index.tsx:225-231 | The scan returns the first section in entry order that holds the id, and the first block there. None means no section holds it. |
| Document.LocateIffFlat | frontend/src/components/AISummary/index.tsx:105-113 | A block is found exactly when its id is in the flattened id list. |
| Document.FindBlockAndSection | frontend/src/components/AISummary/index.tsx:105-113 | The loop returns the block with the id and its section's key, agreeing with `Locate`. It returns null exactly when the id is in no section. |
| Document.LocateSuffix | frontend/src/components/AISummary/index.tsx:106-111 | One iteration of the search: a hit in section i is the location found, and a miss continues the search from section i + 1. |
| Document.GeneratedId | frontend/src/components/AISummary/index.tsx:26-28 | A generated id mentions the section key it was made for. |
| Document.RekeyBlocks | frontend/src/components/AISummary/index.tsx:34-37 | Per block: an id that mentions the section key is kept, and any other id is replaced by a generated one. Everything else is unchanged. |
| Document.EnsureUniqueBlockIds | frontend/src/components/AISummary/index.tsx:30-41 | Keys, titles and block counts are kept, and each block follows the id rule. Afterwards every id mentions its section key, and a document already in that form comes back unchanged. |
| Selection.IdIndex | frontend/src/components/AISummary/index.tsx:117 | The first position of the id, or -1 exactly when it is absent. |
| Selection.IdIndexOfDistinct | frontend/src/components/AISummary/index.tsx:137-138 | With distinct ids, the position found for the id at k is k. |
| Selection.IdRange | frontend/src/components/AISummary/index.tsx:140-145 | Empty exactly when either end is absent. Otherwise it is the inclusive slice from the smaller to the larger first index. |
| Selection.BlockRange | frontend/src/components/AISummary/index.tsx:135-146 | `getBlockRange` on the flattened ids has that same meaning. |
| Selection.BlockRangeEnds | frontend/src/components/AISummary/index.tsx:135-146 | When both ends are blocks of the document, the range contains both of them. |
| Selection.IdRangeEnds | frontend/src/components/AISummary/index.tsx:140-145 | When both ends are in the list, the range contains both of them. |
| Selection.BlockRangeSymmetric | frontend/src/components/AISummary/index.tsx:142-143 | The range from a to b is the range from b to a. |
| Selection.IdRangeSymmetric | frontend/src/components/AISummary/index.tsx:142-143 | The same symmetry on any id list. |
| Selection.BlockRangeSingle | frontend/src/components/AISummary/index.tsx:135-146 | With distinct ids, the range from a block to itself is that block alone. |
| Selection.BlockRangeLength | frontend/src/components/AISummary/index.tsx:142-145 | A range holds the distance between its ends plus one ids. |
| Selection.Neighbour | frontend/src/components/AISummary/index.tsx:121-127 | The previous or next id by position. None when the id is absent or already at the first or last position. |
| Selection.NavigateTarget | frontend/src/components/AISummary/index.tsx:115-133 | `handleBlockNavigate` moves to the previous (up) or next (down) flattened block. When there is none, nothing moves. |
| Selection.NavigateRoundTrip | frontend/src/components/AISummary/index.tsx:115-133 | With distinct ids, moving down and then up returns to the same block, and so does up then down. |
| Selection.SelectOnly | frontend/src/components/AISummary/index.tsx:130-131 | Selecting a single block sets the selection to that block and makes it the anchor. |
| Selection.ClearSelection | frontend/src/components/AISummary/index.tsx:457-458 | Clearing empties the selection and the anchor. |
| Selection.MouseDown | frontend/src/components/AISummary/index.tsx:148-155 | A plain press selects the block alone and makes it the anchor and the drag start. A shift press keeps all three. Either way a drag begins. |
| Selection.MouseEnter | frontend/src/components/AISummary/index.tsx:157-162 | During a drag with a start block, the selection becomes the range from the start. Otherwise nothing changes. |
| Selection.MouseUp | frontend/src/components/AISummary/index.tsx:164-170 | A shift release with an anchor selects the range from the anchor. The drag ends either way. |
| Selection.Release | frontend/src/components/AISummary/index.tsx:394-396 | A release anywhere ends the drag and keeps the selection. |
| Selection.DragSymmetric | frontend/src/components/AISummary/index.tsx:148-162 | Pressing on a and dragging onto b selects the same blocks as pressing on b and dragging onto a. |
| Selection.ShiftExtend | frontend/src/components/AISummary/index.tsx:148-170 | After a plain press on a, a shift release on b selects the range from a to b. |
| Selection.NoSelectionAfterRelease | frontend/src/components/AISummary/index.tsx:157-162 | Once the drag has ended, moving over blocks changes nothing. |
| Selection.ContentOf | frontend/src/components/AISummary/index.tsx:372-380 | The content of the first block with the id, or "" when no section holds it. |
| Selection.SelectedTexts | frontend/src/components/AISummary/index.tsx:370-381 | The copied texts are never empty, and there are no more of them than selected ids. |
| Selection.SelectedTextsAppend | frontend/src/components/AISummary/index.tsx:371-381 | The copied texts follow the selection order: copying a + b gives the texts of a, then those of b. |
| Selection.SelectedTextsComplete | frontend/src/components/AISummary/index.tsx:371-381 | When every selected id names a block with content, each one contributes its content, in order. |
| Selection.SelectedTextsDropsMissing | frontend/src/components/AISummary/index.tsx:379-381 | Unknown ids and empty blocks contribute nothing. |
| Selection.CopyFollowsSelectionOrder | frontend/src/components/AISummary/index.tsx:370-383 | A selection made bottom-up is copied bottom-up: the text follows the selection, not the document. |
| Selection.SelectedBlocksContent | frontend/src/components/AISummary/index.tsx:370-383 | The copied text is empty exactly when no selected block has content. |
| Selection.SelectedBlocksContentAppend | frontend/src/components/AISummary/index.tsx:370-383 | Copying a + b gives the text of a, a newline and the text of b; a part without text adds no newline. |
| Mutations.SameShapeFlatten | frontend/src/components/AISummary/index.tsx:172-205 | Changing content or type keeps the flattened list, the keyed ids and the distinct keys. |
| Mutations.SetContent | frontend/src/components/AISummary/index.tsx:177-179 | Exactly the blocks with the id get the new content. Ids, types and colors stay. |
| Mutations.SetKind | frontend/src/components/AISummary/index.tsx:200-202 | Exactly the blocks with the id get the new type. Ids, contents and colors stay. |
| Mutations.ChangeContent | frontend/src/components/AISummary/index.tsx:172-182 | Only the named section changes, and in it only the content of the blocks with the id. Shape and keys are kept. |
| Mutations.Owner | frontend/src/components/AISummary/index.tsx:186-194 | The section the handlers act on is the first one holding the id. A section whose key is "" counts as none. |
| Mutations.ChangeType | frontend/src/components/AISummary/index.tsx:184-205 | With no owning section the document is unchanged. Otherwise only the owning section changes, and in it only the type of the blocks with the id. |
| Mutations.ChangeTitle | frontend/src/components/AISummary/index.tsx:207-218 | Only the named section changes, and only in its title. Its blocks and position stay. |
| Mutations.KeyedUpdate | frontend/src/components/AISummary/index.tsx:259-265 | Rewriting one section with blocks whose ids mention its key keeps every id keyed. |
| Mutations.NewBlockAfter | frontend/src/components/AISummary/index.tsx:249-257 | The new block is a bullet after a bullet and text otherwise. It takes the given id and content, and the source's color, or "default" when that color is empty. |
| Mutations.InsertAt | frontend/src/components/AISummary/index.tsx:252 | `splice(k, 0, b)`: one more block, with b at k and the rest shifted. |
| Mutations.RemoveAt | frontend/src/components/AISummary/index.tsx:324 | `splice(k, 1)`: one block fewer, with the later blocks shifted down. |
| Mutations.SplitBlock | frontend/src/components/AISummary/index.tsx:233-265 | Enter without Shift: nothing for an unowned id. Otherwise the owning section gets a block after the current one, whose id is generated from the section key. No other section changes. |
| Mutations.SplitKeeps | frontend/src/components/AISummary/index.tsx:241-265 | A split keeps the keys distinct and every id keyed. |
| Mutations.SplitPlacesAfter | frontend/src/components/AISummary/index.tsx:252 | In the flattened list the new block directly follows the block that was split. |
| Mutations.FlatIdsAt | frontend/src/components/AISummary/index.tsx:97-100 | The flat position of block k of section s holds that block's id. |
| Mutations.SplitAddsOneBlock | frontend/src/components/AISummary/index.tsx:252 | A split adds exactly one block to the document. |
| Mutations.TotalAround | frontend/src/components/AISummary/index.tsx:97-100 | The block count of a document is the count before a section, plus the section's own count, plus the count after it. |
| Mutations.SplitExample | frontend/src/components/AISummary/index.tsx:233-265 | Enter on the single text block of an Agenda section yields two blocks, the second empty, with the generated id and color "default". |
| Mutations.DeleteBlock | frontend/src/components/AISummary/index.tsx:294-368 | A merge needs a non-empty merge text and a previous block. It appends the text to the previous block, removes the block, selects the previous block and puts the cursor at the old length. Otherwise the block is removed and the selection moves to the block at max(0, k-1), or is cleared when the section is now empty. |
| Mutations.DeleteAt | frontend/src/components/AISummary/index.tsx:316-366 | On the owning section's block list: the merge appends the text to the previous block and selects it with the cursor at its old JavaScript `length` in UTF-16 code units; otherwise the block goes and the block at max(0, k-1) is selected, or nothing when the list is now empty. |
| Mutations.MergeBack | frontend/src/components/AISummary/index.tsx:318-330 | The previous block gets the merge text appended, the block at k is removed, and every other block keeps its place. |
| Mutations.DeleteKeeps | frontend/src/components/AISummary/index.tsx:309-356 | Merging or removing keeps the keys distinct and every id keyed. |
| Mutations.DeleteRemovesOneBlock | frontend/src/components/AISummary/index.tsx:309-356 | Merging or removing takes exactly one block out of the document. |
| Mutations.MergeKeepsText | frontend/src/components/AISummary/index.tsx:312-321 | A merge loses no text. The previous block reads its old content followed by the merge text. The cursor is the old content's length in UTF-16 code units, at most the merged text's length; without characters above the Basic Multilingual Plane it is exactly where the two texts meet. |
| Strings.Utf16Length | frontend/src/components/AISummary/index.tsx:315 | JavaScript's `length`: between the number of characters and twice it, and equal to it exactly when no character lies above the Basic Multilingual Plane. |
| Strings.Utf16LengthAppend | frontend/src/components/AISummary/index.tsx:315 | Lengths in UTF-16 code units add up over concatenation. |
| Mutations.FilterBlocks | frontend/src/components/AISummary/index.tsx:452 | The filter keeps only blocks of the list whose ids are not in the id list. |
| Mutations.FilterBlocksAppend | frontend/src/components/AISummary/index.tsx:452 | The filter keeps the order: filtering a + b is filtering a, then b. |
| Mutations.FilterBlocksKeeps | frontend/src/components/AISummary/index.tsx:452 | A block survives exactly when its id is not listed. |
| Mutations.FilterBlocksSameOn | frontend/src/components/AISummary/index.tsx:449-453 | Only a section's own ids matter. Filtering by the selection and by that section's group gives the same result. |
| Mutations.FilterBlocksNone | frontend/src/components/AISummary/index.tsx:452 | A filter that matches no block removes nothing. |
| Mutations.RemoveIds | frontend/src/components/AISummary/index.tsx:434-456 | The document after deleting the selection: every section keeps its key and title and loses the selected blocks. |
| Mutations.RemoveIdsKeeps | frontend/src/components/AISummary/index.tsx:434-456 | Distinct keys and keyed ids are kept, and no selected id is left in any section. |
| Mutations.RemoveIdsExample | frontend/src/components/AISummary/index.tsx:434-456 | A selection spanning two sections removes its blocks from both. |
| Mutations.Group | frontend/src/components/AISummary/index.tsx:437-445 | A section's group holds exactly the selected ids that the section holds. |
| Mutations.PushToSections | frontend/src/components/AISummary/index.tsx:438-444 | The inner loop appends the id to the group of every section that holds it, and records each new key in insertion order. |
| Mutations.GroupBySection | frontend/src/components/AISummary/index.tsx:436-445 | After the outer loop, each section's group is its `Group`, keyed by every section that holds a selected id. |
| Mutations.ApplyGroups | frontend/src/components/AISummary/index.tsx:448-454 | Each grouped section loses its group's blocks. Ungrouped sections are untouched. |
| Mutations.DeleteSelectedBlocks | frontend/src/components/AISummary/index.tsx:434-456 | The whole handler computes `RemoveIds` of the document and the selection. |
| Mutations.DeleteSection | frontend/src/components/AISummary/index.tsx:497-501 | The section with the key is removed. Every other section keeps its place. |
| Mutations.AddSection | frontend/src/components/AISummary/index.tsx:503-518 | The key is "section" plus the section count plus one. The section is titled "New Section" and holds one empty text block with the clock reading as id and color "default". It is appended when the key is new and replaces the existing section otherwise. |
| Mutations.AddSectionGrows | frontend/src/components/AISummary/index.tsx:503-518 | Adding to a document without that key appends exactly one section. |
| Mutations.AddSectionCanOverwrite | frontend/src/components/AISummary/index.tsx:504 | After deleting section1 of two sections, adding a section reuses the key "section2". It overwrites that section instead of adding one. |
| UndoHistory.History.constructor | frontend/src/components/AISummary/index.tsx:62-64 | The history starts as the first document alone, at position 0, not replaying. |
| UndoHistory.History.Record | frontend/src/components/AISummary/index.tsx:67-75 | A change that is not a replay, with a summary, keeps the entries up to the cursor and appends the summary as the current entry. A replay or a missing summary records nothing. The replay flag is cleared either way. |
| UndoHistory.History.Undo | frontend/src/components/AISummary/index.tsx:77-84 | With an earlier entry: step back, mark the replay and send that entry. At the first entry nothing happens. |
| UndoHistory.History.Redo | frontend/src/components/AISummary/index.tsx:86-93 | With a later entry: step forward, mark the replay and send that entry. At the last entry nothing happens. |
| SummaryEditor.Displayed | frontend/src/components/AISummary/index.tsx:43-53 | Without a summary the default document; otherwise the normalised one, with its keys kept, distinct keys and keyed ids, and unchanged when its ids were already keyed. |
| SummaryEditor.Editor.constructor | frontend/src/components/AISummary/index.tsx:43-75 | Mounting shows the normalised summary or the default document. A given summary is recorded a second time by the mount effect, so the history holds it twice. |
| SummaryEditor.Editor.Receive | frontend/src/components/AISummary/index.tsx:43-75 | A new prop is normalised (keys kept, an already-keyed document unchanged) and recorded unless it is a replay. The selection is left as it was. |
| SummaryEditor.Editor.Undo | frontend/src/components/AISummary/index.tsx:77-84 | Ctrl+Z sends the previous recorded document and sets the replay flag. That document is already normalised, so it comes back unchanged. At the first entry nothing is sent and the cursor and the replay flag keep their values. |
| SummaryEditor.Editor.Redo | frontend/src/components/AISummary/index.tsx:86-93 | Ctrl+Shift+Z sends the next recorded document and sets the replay flag. At the last entry nothing is sent and the cursor and the replay flag keep their values. |
| SummaryEditor.Editor.BlockMouseDown | frontend/src/components/AISummary/index.tsx:148-155 | The selection becomes `MouseDown` of the old selection. The document is unchanged. |
| SummaryEditor.Editor.BlockMouseEnter | frontend/src/components/AISummary/index.tsx:157-162 | The selection becomes `MouseEnter` on the current document. |
| SummaryEditor.Editor.BlockMouseUp | frontend/src/components/AISummary/index.tsx:164-170 | The selection becomes `MouseUp` on the current document. |
| SummaryEditor.Editor.DocumentMouseUp | frontend/src/components/AISummary/index.tsx:393-396 | The global `mouseup` ends the drag. |
| SummaryEditor.Editor.DeleteSelected | frontend/src/components/AISummary/index.tsx:434-459 | Sends `RemoveIds` of the current document and the selection, and clears the selection. |
| SummaryEditor.Editor.KeyDown | frontend/src/components/AISummary/index.tsx:220-292 | An unowned block does nothing. Enter without Shift sends the split document and selects the new block. Delete or Backspace with more than one block selected deletes the selection. ArrowUp at offset 0, or ArrowDown at the end of the text, selects the neighbour if there is one. |
| SummaryEditor.Editor.BlockDelete | frontend/src/components/AISummary/index.tsx:294-368 | Sends `DeleteBlock`'s document, moves the selection as it says and returns the cursor offset. A missing merge text counts as empty. |
| SummaryEditor.Editor.AddSectionAt | frontend/src/components/AISummary/index.tsx:503-523 | Sends `AddSection`'s document and selects the new block's id. |
| SummaryEditor.Editor.GlobalKeyDown | frontend/src/components/AISummary/index.tsx:398-424 | With Ctrl or Meta, "z" undoes (redoes with Shift), moving the cursor and setting the replay flag, or changes nothing at the end of the history; "c" yields the selection's copied text. Without them, Delete or Backspace with a multi-block selection deletes it. Any other key does nothing. |
| SummaryEditor.AddedBlockIdIsReplaced | frontend/src/components/AISummary/index.tsx:503-523 | The digits-only id of an added block never mentions the new key. So the next normalisation replaces it, and the selected id is no longer in the document. |
| Markdown.OrElse | frontend/src/components/AISummary/index.tsx:526-533 | An empty string gives the fallback, and any other string is kept. |
| Markdown.AppendBlocks | frontend/src/components/AISummary/index.tsx:534-549 | The block loop appends each block's template: `### c`, `#### c`, `- c` on its own line, or a paragraph `c`. |
| Markdown.ConvertToMarkdown | frontend/src/components/AISummary/index.tsx:525-558 | The export equals `Render` of the header and the sections: per section `## title-or-key`, then its blocks, then a blank line after any bullet. A key "title" restarts the text with `# title`. |
| Markdown.RenderAppend | frontend/src/components/AISummary/index.tsx:529-555 | Exporting a + b is exporting b after the export of a. |
| Markdown.TitleDiscardsEarlierOutput | frontend/src/components/AISummary/index.tsx:530-531 | A section keyed "title" throws away everything before it, the meeting header included. |
| Markdown.RenderWithoutTitle | frontend/src/components/AISummary/index.tsx:532-554 | Without a "title" key the output starts with the header, and each section only appends its own text. |
| Markdown.Header | frontend/src/components/AISummary/index.tsx:526-527 | The export opens with "# AI Generated Summary of Meeting: " and the header ends with the date line. For a meeting with a non-empty id and title, the header is that lead, the id, " - ", the title, a blank line, then the date line; `HeaderWithoutMeeting` gives the fallbacks. |
| Markdown.HeaderWithoutMeeting | frontend/src/components/AISummary/index.tsx:526-527 | Without a meeting the header falls back to the id "Unknown" and the title "Untitled Meeting"; an empty id and title fall back the same way. |
| Markdown.ExportExample | frontend/src/components/AISummary/index.tsx:533-553 | A section with no title, two bullets and a paragraph exports its key as heading, then the bullets on consecutive lines, then the paragraph and a closing blank line. |
| MeetingPages.AddTranscript | frontend/src/app/page.tsx:177-188 | An update whose text and timestamp are already listed leaves the list unchanged. Any other update is appended. |
| MeetingPages.AddTranscriptKeepsNoRepeats | frontend/src/app/page.tsx:409-418 | The list never holds the same utterance twice, and after an update the utterance is in it. |
| MeetingPages.AddTranscriptIdempotent | frontend/src/app/page.tsx:177-188 | Delivering the same update twice has the effect of delivering it once. |
| MeetingPages.AddTranscriptOrder | frontend/src/app/page.tsx:177-188 | New utterances are listed in arrival order. |
| MeetingPages.WithoutMeetingName | frontend/src/app/page.tsx:490 | The destructuring keeps only entries other than `MeetingName`, each taken from the input; order is stated by `WithoutMeetingNameAppend`. |
| MeetingPages.MeetingName | frontend/src/app/page.tsx:493-495 | A title is taken only from a non-empty `MeetingName` text in the result; the converse is `MeetingNameTaken`. |
| MeetingPages.WithoutMeetingNameAppend | frontend/src/app/page.tsx:490 | Dropping `MeetingName` from a + b is dropping it from a, then from b, so the kept entries stay in their order. |
| MeetingPages.WithoutMeetingNameSingle | frontend/src/app/page.tsx:490 | A single entry is kept exactly when its key is not `MeetingName`. |
| MeetingPages.MeetingNameTaken | frontend/src/app/page.tsx:493-495 | In a result with distinct keys, a non-empty `MeetingName` text is the title. |
| MeetingPages.FormatBlock | frontend/src/app/page.tsx:500-505 | The block becomes a bullet with color "default" and trimmed content, and keeps its id. |
| MeetingPages.FormatSummary | frontend/src/app/page.tsx:497-509 | Succeeds exactly when every kept entry is a section with blocks of text content. Each entry keeps its key and title, with every block formatted in order. |
| MeetingPages.FormatBlocks | frontend/src/app/page.tsx:501-506 | Succeeds exactly when every block has text content, and then formats every block in order. |
| MeetingPages.FormattedShape | frontend/src/app/meeting-details/page-content.tsx:141-152 | A formatted summary has distinct keys and no `MeetingName`. Every block is a "default" bullet whose content trims to itself. |
| MeetingPages.WithoutMeetingNameDistinct | frontend/src/app/meeting-details/page-content.tsx:131 | Dropping `MeetingName` keeps the keys distinct. |
| MeetingPages.CompleteOnDetailsPage | frontend/src/app/meeting-details/page-content.tsx:118-155 | Rejected with the fixed error text exactly when every section other than `MeetingName` has missing or empty blocks. The format step fails exactly when it throws, and then still carries the meeting name. An accepted summary carries the meeting name and, per kept entry, a section formatted as `FormatSummary` formats it, with at least one block in all. |
| MeetingPages.AllSectionsEmptyCheck | frontend/src/app/meeting-details/page-content.tsx:120-121 | The `filter` plus `every` is the all-empty predicate. |
| MeetingPages.NotEmptyGivesBlocks | frontend/src/app/meeting-details/page-content.tsx:118-152 | A result that passes the empty check and formats shows at least one block. |
| MeetingPages.KeptIndex | frontend/src/app/meeting-details/page-content.tsx:131 | An entry other than `MeetingName` survives the destructuring unchanged. |
| MeetingPages.HomeStatusMessage | frontend/src/app/page.tsx:554-571 | Never empty. On error it shows the stored error, or "An error occurred" when there is none. |
| MeetingPages.DetailsStatusMessage | frontend/src/app/meeting-details/page-content.tsx:195-210 | Empty exactly when idle. |
| MeetingPages.StatusMessagesDistinct | frontend/src/app/page.tsx:554-571 | Different statuses show different lines on each page (the home page's error line aside). |
| MeetingPages.HomeSummaryPane | frontend/src/app/page.tsx:763-899 | The spinner shows exactly while processing, summarizing or regenerating (`isSummaryLoading`). Otherwise the editor shows once there is a summary, with the status box under it exactly when the status is completed or failed. |
| MeetingPages.RenameMeeting | frontend/src/app/meeting-details/page-content.tsx:380 | The meetings with the id take the new title, and every other meeting is kept. |
| MeetingPages.RenameMeetingProperties | frontend/src/app/meeting-details/page-content.tsx:380 | Renaming keeps every id and position, and renaming twice with the same title equals renaming once. |
| Sidebar.Toggled | frontend/src/components/Sidebar/index.tsx:54-62 | The folder's membership flips, and every other folder keeps its state. |
| Sidebar.ToggleTwice | frontend/src/components/Sidebar/index.tsx:54-62 | Toggling a folder twice restores the set. |
| Sidebar.RoutesPartition | frontend/src/components/Sidebar/index.tsx:111-136 | `BasePath` gives "/" exactly for ids starting with "intro-call", and "/meeting-details" exactly for meeting items (`IsMeetingItem`: a dash and no "intro-call" prefix). A note page exactly for ids without a dash. |
| Sidebar.DisabledOnlyMeetings | frontend/src/components/Sidebar/index.tsx:111-112 | `IsDisabled`: items are disabled only while a meeting is active. The new-call entry is never disabled, and a disabled item is one whose route is the details page. |
| Sidebar.ActiveAfterOpen | frontend/src/components/Sidebar/index.tsx:110-134 | `IsActive`: after opening a file item, it is active, and so are exactly the file items with its id. Folders never are. |
| Sidebar.WithoutMeeting | frontend/src/components/Sidebar/index.tsx:42 | The filter keeps exactly the meetings with another id, and removes nothing when none has the id; order is stated by `WithoutMeetingAppend`. |
| Sidebar.WithoutMeetingAppend | frontend/src/components/Sidebar/index.tsx:42 | Filtering a + b is filtering a, then b, so the kept meetings stay in their order. |
| Sidebar.WithoutMeetingSingle | frontend/src/components/Sidebar/index.tsx:42 | A single meeting is kept exactly when its id differs. |
| Sidebar.WithoutMeetingIdempotent | frontend/src/components/Sidebar/index.tsx:42 | Deleting the same meeting twice removes nothing more. |
| Sidebar.SidebarState.constructor | frontend/src/components/Sidebar/index.tsx:22 | The "meetings" and "notes" folders start expanded. |
| Sidebar.SidebarState.ToggleFolder | frontend/src/components/Sidebar/index.tsx:54-62 | The stored set becomes `Toggled` of the old one. Nothing else changes. |
| Sidebar.SidebarState.ItemClick | frontend/src/components/Sidebar/index.tsx:125-138 | A folder toggles. A disabled file changes nothing. Any other file becomes the current meeting, and its route is pushed. |
| Sidebar.SidebarState.HandleDelete | frontend/src/components/Sidebar/index.tsx:40-51 | On success the meetings with that id are removed. The current meeting resets to "+ New Call" with route "/" only when it was the deleted one. A failed request changes nothing. |
| RecordingControls.CountdownStep | frontend/src/components/RecordingControls.tsx:152-164 | Above one the countdown decrements. At one or below it becomes 0 and the stop fires. |
| RecordingControls.CountdownFromDelay | frontend/src/components/RecordingControls.tsx:128-165 | From 5 the countdown reads 5, 4, 3, 2, 1, then stays at 0. The stop fires on the fifth tick. |
| RecordingControls.Dispatch | frontend/src/components/RecordingControls.tsx:235-237 | Recording and stopping: cancel. Recording and not stopping: stop. Not recording: start. |
| RecordingControls.CountdownLabelCases | frontend/src/components/RecordingControls.tsx:254 | "Stopping..." exactly when the countdown is not positive. Otherwise the seconds in decimal followed by "s". |
| RecordingControls.PaddedSeconds | frontend/src/components/RecordingControls.tsx:43-44 | Seconds below 60 print as two digits that read back as the number. |
| RecordingControls.FormatTimeRoundTrip | frontend/src/components/RecordingControls.tsx:41-45 | `formatTime` is minutes, a colon and two-digit seconds. It reads back as the number of seconds, with the seconds field below 60. |
| RecordingControls.Controls.constructor | frontend/src/components/RecordingControls.tsx:25-33 | Every flag starts false, the countdown at 5, with no interval and no controller. |
| RecordingControls.Controls.BeginStart | frontend/src/components/RecordingControls.tsx:60-65 | Ignored while starting. Otherwise it marks the start, hides playback and clears the transcript. |
| RecordingControls.Controls.FinishStart | frontend/src/components/RecordingControls.tsx:67-77 | On success it clears processing and tells the parent. The starting flag is always cleared. |
| RecordingControls.Controls.RequestStop | frontend/src/components/RecordingControls.tsx:124-166 | Accepted exactly when recording, not starting and not stopping. It then sets stopping, resets the countdown to 5, installs the interval and the controller. |
| RecordingControls.Controls.TickSecond | frontend/src/components/RecordingControls.tsx:151-165 | The countdown takes `CountdownStep`. On the last tick the interval is cleared, the stop action runs once and processing is raised. |
| RecordingControls.Controls.FinishStop | frontend/src/components/RecordingControls.tsx:95-121 | Stopping always drops. Processing drops and the parent is told, except after a failure with "No recording in progress". |
| RecordingControls.Controls.CancelStop | frontend/src/components/RecordingControls.tsx:168-173 | With a controller: the interval is cleared, stopping is dropped, the countdown resets to 5 and the controller is removed. Without one, nothing happens. |
| RecordingControls.Controls.Press | frontend/src/components/RecordingControls.tsx:235-238 | Ignored, with no field changed, while starting or processing. Otherwise it runs the handler `Dispatch` picks: a stop arms the five-second countdown, a cancel disarms it, and a start sets the starting flag and clears the playback view and the transcript. Processing and the reported counters never change. |
| RecordingControls.StopScenario | frontend/src/components/RecordingControls.tsx:124-173 | A stop request followed by five ticks fires the stop once. A cancel after two ticks fires nothing and allows a new request. |
| ModelSettings.First | frontend/src/components/ModelSettingsModal.tsx:205 | `options[0]`, undefined exactly for an empty list. |
| ModelSettings.DoneDisabledCases | frontend/src/components/ModelSettingsModal.tsx:114-115 | A key is required exactly for claude, groq and openai. Done is disabled exactly for those with a key that is only white space. |
| ModelSettings.ChangeProvider | frontend/src/components/ModelSettingsModal.tsx:200-206 | Sets the provider and that provider's first model. The whisper model and the key are unchanged. |
| ModelSettings.ChangeProviderOffers | frontend/src/components/ModelSettingsModal.tsx:84-112 | The model is one the provider offers. Only Ollama without installed models leaves it undefined. |
| ModelSettings.SelectModel | frontend/src/components/ModelSettingsModal.tsx:223 | Changes only the model. |
| ModelSettings.SelectionsOverride | frontend/src/components/ModelSettingsModal.tsx:202-206 | A second model choice replaces the first, and a provider switch forgets an earlier model choice. |
| ModelSettings.SavedConfig | frontend/src/components/ModelSettingsModal.tsx:161 | The saved configuration is the one shown, with the trimmed key. |
| ModelSettings.SavedKeyUsable | frontend/src/components/ModelSettingsModal.tsx:160-166 | Saved with Done enabled, a provider needing a key gets a non-empty key. Saving the result again changes nothing. |
| ModelSettings.Modal.constructor | frontend/src/components/ModelSettingsModal.tsx:38 | The key field starts as the configuration's key, or empty. |
| ModelSettings.Modal.ChooseProvider | frontend/src/components/ModelSettingsModal.tsx:200-207 | The configuration becomes `ChangeProvider` of the old one. |
| ModelSettings.Modal.KeyFetched | frontend/src/components/ModelSettingsModal.tsx:76-81 | The key field becomes the fetched key, or empty. |
| ModelSettings.Modal.TypeKey | frontend/src/components/ModelSettingsModal.tsx:248 | Typing sets the key field to the typed text; the configuration, the dialog and the saved list are unchanged. |
| ModelSettings.Modal.ChooseModel | frontend/src/components/ModelSettingsModal.tsx:223 | The configuration becomes `SelectModel` of the old one. |
| ModelSettings.Modal.PressDone | frontend/src/components/ModelSettingsModal.tsx:160-166 | Ignored while disabled. Otherwise it stores the configuration with the trimmed key, closes the dialog and passes that same configuration to `onSave`. |

## Left out

- Network, IPC and timers: all `fetch` calls, Tauri `invoke`/`listen`, summary polling and file writes are not modelled. Where an answer matters it is a parameter: a start's success, a delete's `ok`, a fetched key, a finished result's `data`.
- The clock, `Math.random` and the locale date are parameters: `stamp`, `now` and `date`.
- `Object.entries` lists integer-like keys first, in numeric order. The model keeps insertion order for every key.
- React's state batching and render timing are reduced to one transition per handler. Closures over the previous render, and an undo to an identical object that does not re-fire the effect, are not modelled.
- A key press in a block reaches both the block's handler and the document listener. The model treats them as separate calls.
- `ensureUniqueBlockIds` also writes the new blocks into the incoming prop's sections, because they are shared objects. The model records the normalised document and does not model that aliasing.
- DOM focus, caret placement after `setTimeout`, the hidden copy textarea and `navigator.clipboard` are not modelled. `GlobalKeyDown` returns the text it would copy.
- The `Section` and block components are not part of this model. They compute the split and merge texts, which appear here as parameters.
- The context menu, export to a file, regenerate and the rendering of every component are not modelled.
- MeetingPages.MeetingName: a `MeetingName` that is truthy but not text (a number, an object) is also taken as a title by the code. The model takes text only.
- MeetingPages.CompleteOnDetailsPage: on a format error the page shows the engine's message; `FormatFailed` carries the title but not that message. The rename inside that handler is `RenameMeeting`; the surrounding state setters are not modelled.
- The home page gives each transcript an id from the clock and a counter. The model takes the transcript as given.
- RecordingControls.FormatTime is modelled on whole non-negative seconds. The code takes a float and floors it.
- RecordingControls.Controls.FinishStop: how "No recording in progress" is recognised in an error is not modelled. It is the `nothingRecorded` flag.
- The recording's save path, the unmount cleanup and `formatSize` (floating point) are not modelled.
- ModelSettings: the Ollama model list comes from a network request and appears as `ollamaNames`. Loading the stored configuration, the key lock, the key visibility toggle and the error banner are not modelled.
- The sidebar's collapse toggle and its home, meetings and notes icon buttons are not modelled; the icon buttons call `toggleFolder` like a folder click. The settings route is not modelled either.
- Strings are sequences of Unicode scalar values. A JavaScript string holding a lone surrogate is not modelled; lengths that become cursor offsets are counted in UTF-16 code units (`Strings.Utf16Length`).
- ModelSettings.Modal.TypeKey: the input is disabled while the key is locked; the lock is not modelled, so typing always reaches the field.
- The `Summary` and `Block` type declarations live in a types file that is not part of this model. The document datatypes follow their use in the core files.
