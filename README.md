# Mind-map core of the knowledge base, in Dafny

The knowledge base keeps books with their highlights and turns a book into a
mind map. A mind map starts as a tab-indented outline text. The first
non-blank line is the central topic and each deeper line is a branch under
the nearest shallower line above it. The outline is parsed into a tree and
laid out as a tidy tree with one column per depth. It is drawn as rounded
rectangles joined by curved connectors, and it can be zoomed and dragged in
the viewer. Books and maps live in a two-collection store.

This project models that core and proves properties of it:

| module | file | models |
|---|---|---|
| `Seqs` | seqs.dfy | concatenation and left-folded sums used by the rest |
| `Text` | text.dfy | JavaScript `trim`, `split('\n')`, `slice(0, n)`, `lastIndexOf`, the leading-tab and leading-space counts |
| `Outline` | outline.dfy | the parse result of an outline, defined run by run: blank-line filter, depth rule, palette colour, placeholder root |
| `Parser` | parser.dfy | `parseOutline`'s stack loop as a method over an arena of nodes, proved equal to the `Outline` definition |
| `Layout` | layout.dfy | `computeLayout`, `getSubtreeHeight` and `positionSubtree` exactly as written, including the shallow move of `positionSubtree` |
| `Tidy` | tidy.dfy | the corrected layout that moves whole subtrees, and its no-overlap guarantee at every depth |
| `Scene` | scene.dfy | `getBounds`, the canvas size and offset of `renderSVG`, the connectors of `renderConnections` and the shapes of `renderNodes`, as records of numbers |
| `View` | view.dfy | the zoom and pan state and its handlers, as a class |
| `Editor` | editor.dfy | the Tab / Shift+Tab transform of the outline editor, as written and corrected |
| `Store` | store.dfy | the book and mind-map collections with find-first getters, upsert-by-id saves and filtering deletes, as a class |
| `Synthesis` | synthesis.dfy | grouping a book's highlights by chapter, and the key order of `Object.entries` |
| `Builder` | builder.dfy | writing the outline text of `createFromBook`, parsing it back, and saving the new map |

Outline colours are indices into the ten-colour palette. Coordinates are
`int` for x and widths and `real` for y, because the source halves heights
and sums. The mind map's `id` and `created_at` come from `generateId` and the
clock, so `Builder.CreateFromBook` takes them as the parameters `newId` and
`createdAt`.

Where a function only computes, the row below names the lemma or method that
states what it computes.

## Model

| member | source | states |
|---|---|---|
| Seqs.SumBoundsTerm | js/mindmap.js:236 | a sum of non-negative subtree heights bounds each of its terms |
| Text.TrimStartSpec | js/mindmap.js:57 | `TrimStart` drops exactly a blank prefix, and the result is empty or starts with a visible character |
| Text.TrimEndSpec | js/mindmap.js:57 | `TrimEnd` drops exactly a blank suffix, and the result is empty or ends with a visible character |
| Text.TrimSpec | js/mindmap.js:63 | a trimmed label is empty or starts and ends with a visible character |
| Text.TrimEmptyIffBlank | js/mindmap.js:54 | `trim()` is empty exactly when the line has no visible character, so the filter and the `\S` search agree |
| Text.LeadingCountSpec | js/mindmap.js:62 | the leading count is the length of the longest prefix made only of the given character |
| Text.LeadingCountAfterRepeat | js/mindmap.js:33-34 | n tabs in front of a line not starting with a tab give a leading-tab count of exactly n |
| Text.Repeat | js/mindmap.js:33-34 | the indent has the given length and holds only the given character |
| Text.SplitSpec | js/mindmap.js:54 | `split('\n')` yields pieces without newlines whose join with newlines is the original text |
| Text.SplitLine | js/mindmap.js:54 | splitting a line, a newline and a rest gives that line followed by the pieces of the rest |
| Text.SliceTo | js/mindmap.js:34 | `slice(0, n)` is the prefix of length min(n, length) |
| Text.LastIndexOf | js/mindmap.js:133 | `lastIndexOf(c, from)` finds the last `c` at or before `from` (a negative `from` searches index 0 only), or -1 |
| Outline.NonBlankKeepsVisible | js/mindmap.js:54 | every line kept by the blank filter has a non-empty trim |
| Outline.ItemsAt | js/mindmap.js:60-66 | the k-th visible line becomes a node with its trimmed text, colour k mod 10 and its depth (the root's depth is -1) |
| Outline.RunEnd | js/mindmap.js:68-72 | the run after a node ends at the first later line that is no deeper than the node |
| Outline.ParseGuardsNeverFire | js/mindmap.js:54-64 | after the blank filter no line is blank and no trimmed text is empty, so the guards at lines 62 and 64 never fire |
| Outline.BlankTextParsesToPlaceholder | js/mindmap.js:54-55 | an empty or all-blank text parses to a lone "Central Topic" root of colour 0 |
| Outline.PreorderOfForest | js/mindmap.js:60-74 | a pre-order walk of the forest built from a run of lines lists those lines' labels and colours, each once, in order |
| Outline.PreorderOfParse | js/mindmap.js:53-77 | the pre-order walk of the parsed tree is every visible line trimmed, each once, in order, with colour k mod 10 |
| Outline.KeysOfItems | js/mindmap.js:60-66 | the labels and colours of the nodes are the trimmed visible lines and their palette indices |
| Outline.OutlineTree | js/mindmap.js:53-77 | the tree an outline denotes: the first visible line trimmed as root with colour 0 and every later line under the nearest shallower line before it, or a lone placeholder root; `Parser.ParseOutline` proves the stack parser returns it and `PreorderOfParse` lists its nodes |
| Parser.Parent | js/mindmap.js:68-72 | each non-root line is attached to the nearest earlier line with strictly smaller depth |
| Parser.ParentUnique | js/mindmap.js:68-72 | that nearest shallower line is the only earlier line that qualifies |
| Parser.KidsOfRun | js/mindmap.js:68-72 | a node's children are found only inside the run of deeper lines that follows it |
| Parser.PopStep | js/mindmap.js:68-70 | popping an entry at least as deep as the new line keeps the stack strictly increasing in depth and rooted |
| Parser.PushStep | js/mindmap.js:72-73 | pushing the new line onto a top shallower than it keeps the stack's shape |
| Parser.KidsStep | js/mindmap.js:72 | appending the new line to the top's children keeps every node's child list equal to its children among the lines seen so far |
| Parser.Attach | js/mindmap.js:68-73 | one pop-then-push step keeps the stack invariant and the child lists correct for one more line |
| Parser.BuildArena | js/mindmap.js:57-74 | the loop builds one node per visible line and gives every node exactly its children, in order |
| Parser.AssembleIsForest | js/mindmap.js:57-76 | the tree hanging from any node is that node with the forest of the lines in its run |
| Parser.ChainIsForest | js/mindmap.js:68-72 | the children from a given one onwards assemble to the forest of the lines they cover |
| Parser.ArenaRootIsTree | js/mindmap.js:57-76 | the root of the built arena is the first line trimmed, with colour 0 and the forest of all later lines |
| Parser.ParseOutline | js/mindmap.js:53-77 | the stack parser returns exactly the tree the outline defines, for every text, including the placeholder case |
| Layout.NodeWidth | js/mindmap.js:206 | width is `len*8+30` clamped to [100, 200] |
| Layout.NodeWidthMonotone | js/mindmap.js:206 | a longer label never gets a narrower box |
| Layout.SubtreeHeight | js/mindmap.js:233-237 | every subtree is at least 44 high |
| Layout.LeafHeight | js/mindmap.js:234 | a leaf's subtree height is 44 |
| Layout.StackHeight | js/mindmap.js:235-236 | an inner node's subtree height covers its children's heights plus a gap of 16 between neighbours |
| Layout.ChildNoTaller | js/mindmap.js:233-237 | no child's subtree height exceeds its parent's |
| Layout.PositionSubtree | js/mindmap.js:239-243 | the node is moved to the given centre, its direct children are shifted by the same delta, and deeper descendants stay put |
| Layout.MovedInPlace | js/mindmap.js:239-243 | positioning a node at its own centre changes nothing |
| Layout.PlaceChildren | js/mindmap.js:218-227 | the loop places child i at its slot: the running offset from `-total/2` plus half its band |
| Layout.ComputeLayout | js/mindmap.js:196-231 | the recursive layout method returns exactly the layout function's tree |
| Layout.LayoutOf | js/mindmap.js:196-231 | the layout of a tree at a depth; `LayoutWellSized` states its columns, widths and heights, `LayoutKeepsTree` its labels, colours and child order, and `LayoutStacked` its slots |
| Layout.SlotGap | js/mindmap.js:222-226 | consecutive sibling centres are exactly `(h_i + h_{i+1})/2 + 16` apart |
| Layout.SlotFirst | js/mindmap.js:222-225 | the first sibling's band starts at `-total/2` |
| Layout.SlotLast | js/mindmap.js:220-226 | the last sibling's band ends at `+total/2` |
| Layout.SlotBand | js/mindmap.js:220-226 | every sibling's band lies inside `[-total/2, +total/2]` |
| Layout.BandGap | js/mindmap.js:220-226 | the bands of earlier and later siblings are at least 16 apart |
| Layout.LayoutWellSized | js/mindmap.js:201-209 | every node at depth d has x = 220·d, height 44 and the clamped width of its label |
| Layout.LayoutKeepsTree | js/mindmap.js:201-216 | the layout keeps every label, colour and child order of the tree |
| Layout.LayoutStacked | js/mindmap.js:205-227 | a laid-out node is centred at 0 and each child sits at its slot |
| Layout.LayoutSpaced | js/mindmap.js:220-243 | at every level of the final layout, sibling centres keep the gaps of their slots |
| Layout.LayoutGaps | js/mindmap.js:220-243 | a node's children in the final layout are exactly their slot gaps apart |
| Layout.SiblingBoxesApart | js/mindmap.js:220-243 | sibling boxes of height 44 never overlap and are at least 16 apart |
| Layout.FlatInBand | js/mindmap.js:196-243 | a node whose children are leaves fits inside its own subtree band |
| Layout.ChildInBand | js/mindmap.js:220-243 | in a tree of height at most 2, each child's whole subtree lies inside its band |
| Layout.TidyWhenShallow | js/mindmap.js:196-243 | in a tree of height at most 2, sibling subtrees lie in their bands, at least 16 apart |
| Layout.SubtreesOverlapAtDepthThree | js/mindmap.js:239-243 | for root→{A→B→{C,D}, X→Y→Z}, D and Z both sit in column 660 at y = 30 and y = 0, so their 44-high boxes overlap |
| Tidy.PositionWhole | js/mindmap.js:239-243 | the corrected positioning moves the whole subtree by the same delta |
| Tidy.DeepShiftHeight | js/mindmap.js:233-243 | moving a whole subtree keeps its height |
| Tidy.DeepShiftWithin | js/mindmap.js:239-243 | moving a whole subtree moves its band by the same delta |
| Tidy.StackInBand | js/mindmap.js:220-227 | a centred node whose children lie in their bands fits inside its own band |
| Tidy.TidyInOwnBand | js/mindmap.js:196-243 | with whole-subtree moves, every subtree lies inside its own band around 0 at every depth |
| Tidy.TidyChildInBand | js/mindmap.js:220-243 | with whole-subtree moves, each child's subtree lies inside its slot's band |
| Tidy.SiblingSubtreesApart | js/mindmap.js:220-243 | with whole-subtree moves, sibling subtrees at every depth lie in disjoint bands at least 16 apart |
| Scene.GetBoundsFlat | js/mindmap.js:245-255 | the recursive bounds equal the join of the boxes of all nodes in pre-order |
| Scene.BoundsOfHolds | js/mindmap.js:245-255 | the joined bounds contain every listed box |
| Scene.BoundsOfAttained | js/mindmap.js:245-255 | each side of the joined bounds is attained by some listed box |
| Scene.GetBoundsExact | js/mindmap.js:245-255 | `getBounds` is exactly the min and max over all node rectangles: it contains every one and each side touches one |
| Scene.GetBounds | js/mindmap.js:245-255 | the bounds of a subtree hold its root's own rectangle (`GetBoundsExact` states they are exactly the extent of all its rectangles) |
| Scene.JoinChildren | js/mindmap.js:247-253 | widening by each child's bounds never shrinks the box |
| Scene.JoinAssoc | js/mindmap.js:249-252 | joining bounds is associative |
| Scene.SvgFits | js/mindmap.js:170-177 | after the offset, every rectangle lies within the 60 padding of the canvas, and some rectangle touches each padded edge |
| Scene.ShapeCount | js/mindmap.js:273-295 | one rectangle is drawn per node |
| Scene.ShapeInCanvas | js/mindmap.js:172-285 | each rectangle is its node's box shifted by `60 - min`, and the canvas is the extent plus 120 each way |
| Scene.ShapesFollowNodes | js/mindmap.js:273-295 | the shapes are drawn in pre-order, one per node |
| Scene.Shapes | js/mindmap.js:273-295 | the shapes of a subtree; `ShapesFollowNodes` states they are one `NodeShape` per node in pre-order |
| Scene.NodeShape | js/mindmap.js:273-291 | one node as drawn: its rectangle shifted by the offset (`ShapeInCanvas`), its colour and its label with the large font only in column 0 (`OnlyRootStyled`, `DrawnLabels`) |
| Scene.SvgOf | js/mindmap.js:171-191 | the canvas of a laid-out tree; `SvgFits` and `ShapeInCanvas` state its size and offset |
| Scene.RenderSvg | js/mindmap.js:167-194 | drawing an outline tree lays it out from depth 0 and draws that layout; `DrawnLabels` states what a parsed outline gives |
| Scene.ConnectionCount | js/mindmap.js:257-271 | one connector is drawn per non-root node |
| Scene.Connections | js/mindmap.js:257-271 | the connectors of a subtree; `ConnectorPerEdge` states which they are |
| Scene.ConnectionsAreEdges | js/mindmap.js:257-271 | there are as many connectors as parent-child pairs, and the k-th connector is the one drawn for the k-th pair |
| Scene.EdgesFollowNodes | js/mindmap.js:257-271 | the parent-child pairs list every non-root node once, in pre-order, each with a parent that holds it as a child and is listed before it |
| Scene.ConnectorPerEdge | js/mindmap.js:257-271 | connector k belongs to pre-order node k+1: it runs from its parent's right edge at the parent's centre height to its left edge at its centre height, both shifted by the offset, with the control x half-way, in the child's colour |
| Scene.ConnectorsRunRight | js/mindmap.js:260-264 | every connector runs from a parent's right edge to a child's left edge at least 20 further right, with its control x strictly between |
| Scene.NodesFromColumn | js/mindmap.js:204 | every node of a subtree at depth d sits in column 220·d or further right |
| Scene.OnlyRootStyled | js/mindmap.js:280-281 | in a laid-out tree only the root (x = 0) gets the 15-point font |
| Scene.DisplayText | js/mindmap.js:282 | a label of at most 24 characters is kept; a longer one becomes its first 22 characters and "...", 25 in all |
| Scene.NodesKeys | js/mindmap.js:273-295 | the drawn nodes carry the tree's labels and colours in pre-order |
| Scene.DrawnLabels | js/mindmap.js:53-295 | drawing a parsed outline gives one shape per visible line, in order, with its truncated trimmed text, colour k mod 10 and the large font only for the root |
| View.ZoomedIn | js/mindmap.js:335 | zoom-in multiplies by 1.2 capped at 3, never lowers an in-range zoom and keeps it in [0.2, 3] |
| View.ZoomedOut | js/mindmap.js:336 | zoom-out multiplies by 0.8 floored at 0.2, never raises an in-range zoom and keeps it in [0.2, 3] |
| View.Wheeled | js/mindmap.js:303-304 | the wheel multiplies by 0.9 or 1.1 and clamps to [0.2, 3]; the product is kept whenever it is already in range |
| View.ResetAnyState | js/mindmap.js:337 | reset sets zoom 1 and pan (0, 0) from any state, leaves a drag alone and is idempotent |
| View.NoJumpOnGrab | js/mindmap.js:309-319 | a move to the mouse-down position leaves the pan unchanged |
| View.DragFollowsPointer | js/mindmap.js:309-319 | after a main-button press, the pan follows the pointer's displacement and the zoom is unchanged |
| View.MovesDoNotAccumulate | js/mindmap.js:316-319 | only the latest move position matters |
| View.IdleMovesChangeNothing | js/mindmap.js:316-324 | a move while not panning, or after mouse-up, changes nothing |
| View.OnlyMainButtonGrabs | js/mindmap.js:308-313 | only button 0 starts a drag; other buttons change nothing |
| View.ZoomStaysInRange | js/mindmap.js:301-336 | any sequence of zoom-in, zoom-out and wheel events keeps an in-range zoom in [0.2, 3] |
| View.ViewState.constructor | js/mindmap.js:6-9 | the view starts at zoom 1, pan (0, 0), not panning |
| View.ViewState.ZoomIn | js/mindmap.js:335 | only the zoom changes, to the zoomed-in value |
| View.ViewState.ZoomOut | js/mindmap.js:336 | only the zoom changes, to the zoomed-out value |
| View.ViewState.Wheel | js/mindmap.js:301-306 | only the zoom changes, to the wheeled value |
| View.ViewState.ResetView | js/mindmap.js:337 | zoom and pan are reset and the drag state is kept |
| View.ViewState.MouseDown | js/mindmap.js:308-314 | button 0 starts panning with the anchor at pointer minus pan; other buttons change nothing |
| View.ViewState.MouseMove | js/mindmap.js:316-321 | while panning, the pan becomes pointer minus anchor; otherwise nothing changes |
| View.ViewState.MouseUp | js/mindmap.js:323-327 | panning stops and nothing else changes |
| Editor.SourceLineStart | js/mindmap.js:133 | the handler's line start follows a newline (or is 0) with no newline before the caret; with the caret at 0 it is 1 when the text starts with a newline |
| Editor.LineStartOf | js/mindmap.js:133 | the caret's line start follows a newline (or is 0), and no newline lies between it and the caret |
| Editor.LineStartUnique | js/mindmap.js:133 | that line start is the only such index |
| Editor.SetCaret | js/mindmap.js:141 | a caret set on the textarea lands inside the text, is kept when already in range, and -1 lands at the end of the text |
| Editor.TabKeyAsWritten | js/mindmap.js:124-151 | the handler as written keeps the caret inside the text, adds one character on Tab and removes one or changes nothing on Shift+Tab |
| Editor.TabKey | js/mindmap.js:124-151 | the corrected handler keeps the caret inside the text, adds one character on Tab and removes one or changes nothing on Shift+Tab |
| Editor.TabIndentsCaretLine | js/mindmap.js:143-147 | Tab inserts one tab at the start of the caret's line, changes nothing else, and keeps the caret on the same character of the same line |
| Editor.ShiftTabOutdentsCaretLine | js/mindmap.js:137-142 | Shift+Tab removes one leading tab of the caret's line if there is one, keeps the caret on its line, and otherwise changes nothing |
| Editor.UndoTab | js/mindmap.js:124-151 | Shift+Tab after Tab restores the text and the caret |
| Editor.UndoTabAsWritten | js/mindmap.js:133-147 | the handler as written also restores text and caret when Tab is followed by Shift+Tab, for texts within the 32-bit selection range |
| Editor.InsertKeepsLineStart | js/mindmap.js:145-146 | inserting a tab at the line start keeps the caret's line start |
| Editor.RemoveKeepsLineStart | js/mindmap.js:140-141 | removing the leading tab keeps the caret's line start and the caret's character |
| Editor.RemoveInserted | js/mindmap.js:140-145 | removing the character just inserted gives back the text |
| Editor.AsWrittenAgreesElsewhere | js/mindmap.js:133-147 | the handler as written agrees with the corrected one except for Shift+Tab at a line start and Tab at a leading newline |
| Editor.ShiftTabLeavesLine | js/mindmap.js:133-142 | in "a\n\tb" with the caret at 2, Shift+Tab as written gives "a\nb" with the caret at 1, on the line above |
| Editor.TabAtTopIndentsNextLine | js/mindmap.js:133-146 | in "\nb" with the caret at 0, Tab as written indents the second line, giving "\n\tb" |
| Editor.ShiftTabAtTopJumpsToEnd | js/mindmap.js:137-141 | in "\ta\nb" with the caret at 0, Shift+Tab as written gives "a\nb" with the caret at 3, the end of the last line |
| Store.FindIndex | js/storage.js:29 | `findIndex` returns the first index whose id matches, or none when no entry matches |
| Store.Upsert | js/storage.js:27-33 | replace the first entry with the id or append; `UpsertShape`, `FindAfterUpsert` and `FindOtherAfterUpsert` state what it does |
| Store.Filter | js/storage.js:36-55 | the entries that pass, never more than the input; `FilterMembers` and `FilterAppend` state which and in what order |
| Store.FindSpec | js/storage.js:23-25 | `find` (or null) gives the first entry with the id, or null exactly when none has it |
| Store.FindAfterUpsert | js/storage.js:23-33 | after an upsert of x, looking up x's id gives x |
| Store.FindOtherAfterUpsert | js/storage.js:23-33 | an upsert leaves the lookup of every other id unchanged |
| Store.UpsertShape | js/storage.js:27-33 | an upsert replaces the first match in place (length kept) or appends, leaves all other entries alone and is idempotent |
| Store.FilterMembers | js/storage.js:36-38 | the filtered copy holds exactly the entries that pass |
| Store.FilterAppend | js/storage.js:36-38 | filtering keeps the relative order of the entries |
| Store.FilterIdempotent | js/storage.js:36-55 | filtering twice is filtering once |
| Store.FindAfterDelete | js/storage.js:53-55 | after a delete by id no entry has that id |
| Store.DeleteBookSpec | js/storage.js:35-39 | the book delete keeps exactly the other books and the maps of other books, and is idempotent |
| Store.DeleteMindMapSpec | js/storage.js:53-55 | the map delete keeps exactly the other maps and is idempotent |
| Store.Store.constructor | js/storage.js:7-17 | the store starts from the two saved collections |
| Store.Store.GetBook | js/storage.js:23-25 | returns a stored book with the id, or null exactly when there is none |
| Store.Store.GetMindMap | js/storage.js:41-43 | returns a stored map with the id, or null exactly when there is none |
| Store.Store.SaveBook | js/storage.js:27-33 | the books are upserted by id, the maps are untouched, and the book is then found by its id |
| Store.Store.SaveMindMap | js/storage.js:45-51 | the maps are upserted by id, the books are untouched, and the map is then found by its id |
| Store.Store.DeleteBook | js/storage.js:35-39 | the books with the id and the maps of that book are filtered out, and the book is no longer found |
| Store.Store.DeleteMindMap | js/storage.js:53-55 | the maps with the id are filtered out, the books are untouched, and the map is no longer found |
| Synthesis.ChapterOrderSpec | js/mindmap.js:19-28 | the chapter keys are exactly the non-empty chapter names that occur, each once |
| Synthesis.InChapterMembers | js/mindmap.js:21-27 | a chapter's list holds only highlights of that chapter |
| Synthesis.InChapterComplete | js/mindmap.js:21-27 | every highlight is in the list of its own chapter |
| Synthesis.GroupedStep | js/mindmap.js:21-28 | one more highlight adds it to its chapter's list, creating the key on first sight, or to the unchaptered list |
| Synthesis.NoEmptyKey | js/mindmap.js:22 | an empty chapter never becomes a key |
| Synthesis.NoInheritedKey | js/mindmap.js:23 | before the first inherited name occurs, no such name is a key |
| Synthesis.GroupHighlights | js/mindmap.js:19-28 | the grouping loop yields the chapters in first-appearance order, each with its highlights in order, and the unchaptered highlights |
| Synthesis.GroupHighlightsAsWritten | js/mindmap.js:19-28 | with a plain object as the dictionary, grouping fails exactly when some chapter is named like an inherited `Object.prototype` member, and otherwise gives the correct grouping |
| Synthesis.AddAsWritten | js/mindmap.js:22-27 | one step with the plain object fails exactly for an inherited name, and otherwise adds the highlight correctly |
| Synthesis.ChapterNamedConstructor | js/mindmap.js:23-24 | a single highlight in a chapter named "constructor" makes the grouping as written fail |
| Synthesis.InsertByValueKeeps | js/mindmap.js:32 | inserting an index key keeps every key |
| Synthesis.InsertByValueSorted | js/mindmap.js:32 | inserting into keys ascending by value keeps them ascending |
| Synthesis.SortByValueSpec | js/mindmap.js:32 | sorting index keys gives a permutation in ascending numeric order |
| Synthesis.EntryOrderSpec | js/mindmap.js:31-32 | `Object.entries` lists the same keys: integer-like ones first in ascending order, then the others in insertion order; with no integer-like key the order is unchanged |
| Synthesis.EntryOrder | js/mindmap.js:31-32 | the key order of `Object.entries`; `EntryOrderSpec` states it |
| Builder.WriteLeaves | js/mindmap.js:34 | the loop appends one line of two tabs and the first 80 characters per highlight |
| Builder.WriteChapter | js/mindmap.js:33-34 | a chapter is written as a one-tab heading followed by its leaf lines |
| Builder.WriteChapters | js/mindmap.js:31-36 | the chapters are written in entry order, each with its own highlights |
| Builder.WriteLoose | js/mindmap.js:37 | each unchaptered highlight is written as a one-tab line of its first 80 characters |
| Builder.EntriesGrouped | js/mindmap.js:19-32 | every key listed by `Object.entries` has a group, and that group is its chapter's highlights |
| Builder.OutlineParts | js/mindmap.js:30-37 | the outline is the title line, then the chapter blocks, then the unchaptered lines |
| Builder.OutlineOf | js/mindmap.js:30-37 | the outline text the builder writes; `OutlineParts` states its parts and `OutlineRoundTrip` what reading it back gives |
| Builder.BuildOutline | js/mindmap.js:18-37 | the method writes exactly the outline text of the title and highlights |
| Builder.IndentedLine | js/mindmap.js:62-63 | a piece behind n tabs has depth n and trims back to itself |
| Builder.ClipPiece | js/mindmap.js:34 | the first 80 characters of a visible one-line text are still visible and one line |
| Builder.SplitUnlines | js/mindmap.js:54 | splitting newline-terminated lines gives those lines and a final empty piece |
| Builder.NonBlankVisible | js/mindmap.js:54 | the blank filter keeps visible lines and drops the final empty piece |
| Builder.LinesOfUnlines | js/mindmap.js:54 | the visible lines of written lines are those lines |
| Builder.BlocksLinesVisible | js/mindmap.js:33-37 | every written outline line is one line and visible |
| Builder.LeafForest | js/mindmap.js:68-73 | consecutive depth-2 lines parse to sibling leaves |
| Builder.ForestOfBlocks | js/mindmap.js:68-73 | heading-and-leaf blocks parse to one topic per heading with its leaves |
| Builder.LineMarksOfBlocks | js/mindmap.js:62-63 | the written block lines have the heading at depth 1 and the leaves at depth 2, trimmed |
| Builder.TreeOfBlocks | js/mindmap.js:53-77 | parsing a title line and written blocks gives the title as root and one branch per block |
| Builder.BuiltBlocksOk | js/mindmap.js:30-37 | with one-line visible chapter names and clipped texts, every written block is well formed |
| Builder.ChapterTopics | js/mindmap.js:31-36 | each chapter branch is the trimmed chapter name with its highlights' clipped texts |
| Builder.LooseTopics | js/mindmap.js:37 | each unchaptered branch is the highlight's clipped text, as a leaf |
| Builder.BuiltTopics | js/mindmap.js:30-37 | the branches are the chapters in entry order, then the unchaptered highlights |
| Builder.OutlineRoundTrip | js/mindmap.js:19-48 | when the title, the chapter names and the first 80 characters of each highlight are one visible line, parsing the written outline gives the title as root, the chapters in entry order with their clipped highlights, then the unchaptered highlights |
| Builder.MultiLineHighlightMisnests | js/mindmap.js:33-37 | a chapter "C" holding "first\nsecond" then "x" reads back as root branches "C" (holding only "first") and "second" (holding "x") |
| Builder.UnlinesBreak | js/mindmap.js:34 | a written highlight that holds a line break comes out as two lines, the second one unindented |
| Builder.CreateFromBook | js/mindmap.js:11-51 | a missing book, one without highlights, or one with a chapter named like an inherited `Object.prototype` member (where the page throws) creates nothing and changes nothing; otherwise the map holds the written outline and its parse, is upserted into the maps, and is then found by its id |

## Left out

- The DOM and the UI are not modelled: `renderBuilder`, `renderViewer`'s markup, `showToast`, `updatePreview`, the event-listener wiring in `setupPanZoom`, `updateSVGTransform`'s style string, cursor styles, `alert`, `confirm` and `dispatchEvent`.
- SVG markup strings and the `<defs>` shadow filter are not modelled; each drawn element is a record of the numbers it carries.
- `escapeHtml` is not modelled, because it is a DOM call. Labels are compared before escaping.
- `exportPNG` (canvas and image I/O) and `debounce` (timers) are not modelled.
- js/books.js (dashboard, modals, card search) is not part of this model.
- `localStorage`, `JSON.parse` and `JSON.stringify` are not modelled. The store is two in-memory sequences, and a JSON round trip is taken as the identity on them.
- `exportData`, `importData` and `loadDefaults` are left out: they are Blob downloads, file reading and a network fetch.
- `generateId` and `new Date().toISOString()` become the parameters `newId` and `createdAt` of `Builder.CreateFromBook`.
- `Builder.CreateFromBook` stops after saving the map. The call to `renderBuilder` that follows is UI. `saveCurrentMap` (reading the form fields, re-parsing, saving) is not modelled separately. Its parse and save are `Parser.ParseOutline` and `Store.Store.SaveMindMap`.
- JavaScript strings are UTF-16 code units and Dafny's are characters. `slice(0, 80)`, the 24-character label limit and the width formula count characters here.
- Numbers are unbounded integers and exact reals, not IEEE doubles. Zoom factors such as 1.2 are exact here, so rounding drift is not modelled.
- `computeLayout`'s unused `index` argument and `renderSVG`'s unused `options` argument are dropped.
- `renderViewer`'s reset of zoom and pan (js/mindmap.js:352-353) is the same update as `resetView`. It is covered by `View.ViewState.ResetView`.
- `handleTabKey` uses only `selectionStart`. `selectionEnd` and the line end it computes are never used, so the model's editor state is one caret. A caret assigned to the textarea goes through its setter: the value is made an unsigned 32-bit integer and clamped to the text length, so -1 lands at the end of the text (`Editor.SetCaret`).
- In-place updates of node objects are modelled on values. The parser keeps an arena of nodes with child-index lists instead of shared objects. The layout rebuilds the moved tree instead of writing `y` fields. Aliasing between the outline tree and the laid-out tree does not arise in the source, because `computeLayout` creates new objects.
- A falsy `chapter` (undefined, null or "") is modelled as the empty string.
- Builder.OutlineRoundTrip: assumes the title, the chapter names and the first 80 characters of each highlight text are one line, non-empty and start with a visible character. Highlight texts come from a multi-line text area and can hold line breaks; then the round trip fails, as `Builder.MultiLineHighlightMisnests` shows. It states labels and structure and leaves colours aside. The labels come out trimmed.
- Builder.CreateFromBook: the TypeError the page throws for a chapter named like an inherited property (js/mindmap.js:24) is modelled as returning nothing with the store unchanged.
- Scene.OnlyRootStyled: holds for laid-out trees, where only the root is in column 0; the model does not state it for arbitrary coordinates.

## Findings

| source | as written | input that shows it | evidently intended | confidence | as-written member | corrected member |
|---|---|---|---|---|---|---|
| js/mindmap.js:242 | `positionSubtree(c, c.y)` runs after `c.y += dy`, so the recursive delta is 0 and grandchildren are never moved with their parent | root→{A→B→{C,D}, X→Y→Z}: D ends at y = 30 and Z at y = 0, both in column 660, so their 44-high boxes overlap | every descendant moves with its subtree, so sibling subtrees stay in disjoint bands at every depth | not executed | Layout.PositionSubtree, Layout.SubtreesOverlapAtDepthThree | Tidy.PositionWhole, Tidy.SiblingSubtreesApart |
| js/mindmap.js:19-24 | the chapter dictionary is a plain `{}`, so `chapters[h.chapter]` finds inherited members such as `constructor`; `.push` on that function throws | a book with one highlight whose chapter is "constructor" | group by the book's own chapter names only (a `Map` or a prototype-free object) | not executed | Synthesis.GroupHighlightsAsWritten, Synthesis.ChapterNamedConstructor | Synthesis.GroupHighlights |
| js/mindmap.js:133-141 | Shift+Tab sets the caret to `start - 1` even when the caret sat at the line start, which moves it onto the line above | "a\n\tb" with the caret at 2 gives "a\nb" with the caret at 1, the end of line "a" | the caret stays at the start of its own line | not executed | Editor.TabKeyAsWritten, Editor.ShiftTabLeavesLine | Editor.TabKey, Editor.ShiftTabOutdentsCaretLine |
| js/mindmap.js:133 | with the caret at 0, `lastIndexOf('\n', -1)` searches index 0, so a newline there makes the line start 1 | "\nb" with the caret at 0: Tab gives "\n\tb", indenting the second line | Tab indents the caret's own first line, giving "\t\nb" with the caret at 1 | not executed | Editor.TabKeyAsWritten, Editor.TabAtTopIndentsNextLine | Editor.TabKey, Editor.TabIndentsCaretLine |
| js/mindmap.js:141 | Shift+Tab with the caret at 0 removes the tab and sets the caret to `start - 1` = -1, which the textarea turns into 4294967295 and clamps to the text length | "\ta\nb" with the caret at 0 gives "a\nb" with the caret at 3, the end of the last line | the caret stays at the start of the first line | not executed | Editor.TabKeyAsWritten, Editor.ShiftTabAtTopJumpsToEnd | Editor.TabKey, Editor.ShiftTabOutdentsCaretLine |

`Builder.BuildOutline` uses the corrected grouping. `Builder.CreateFromBook` first
runs the grouping as written, so it saves nothing where the page throws;
otherwise the two groupings agree.
The outline editor's model uses the corrected `Editor.TabKey`. The drawing
(`Scene.RenderSvg`) uses the layout as written, because that is what the page
draws. `Tidy.TidyLayoutOf` is the corrected layout.
