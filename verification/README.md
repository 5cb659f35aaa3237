# Verified models of the incremental parts of the agent terminal

Several parts of this program keep an incremental, replicated or budgeted form of something simple:
a document that is patched instead of rebuilt, a client that folds changes instead of receiving the
state, a terminal that prints rows it can never take back. The modules here model those parts in
Dafny and prove that each agrees with the simple form it stands for. `dafny verify dfyconfig.toml`
checks all of them.

## Components

* **Incremental document layout.** `SourceText`, `Markdown`, `Restart`, `LineHistory`, `LineReuse` and
  `BodyDocuments` follow the block list of a text through updates. The reference is reading the whole
  text again. An edit that is not an append always agrees with it. An append agrees with it exactly
  when the changed tail is not `Misread`: the line above the tail belongs to a table and holds a
  cell divider, the tail itself did not belong to a table, and it now reads as a separator row
  without a divider (such as `---`). `MisreadExample` is such an append.
* **Wrapping.** `Wrapping`, `WrapRows`, `WrapLayouts`, `Navigation`, `DocumentLayouts` and `TableWidths` cover
  hard and word wrapping, the lazily measured layouts that survive an append, moving through rows, row
  keys and table column widths. Graphemes come from a segmenter that is a parameter (grapheme clusters
  as in section 3 of UAX #29); an append is assumed to leave the earlier cuts of a line in place.
* **Terminal commit flow.** `FlowRows`, `ConversationFlows` and `FlowRuns` decide which rows go to
  scrollback for good. For a plain body whose text only grows, the printed source ranges tile its text:
  none but line feeds are left out, and everything has been printed once its receipt is complete. A
  character is printed twice exactly when a drain forgets a receipt that shows some of the body and a
  later receipt shows some of it again, which never happens to an entry with a position; when every drain
  is idle, exactly when the transcript shows the entry, lacks it and shows it again. This holds for any
  widths, capacities, resizes and other entries.
* **Conversation events.** `Conversation`, `Indexes` and `Normalizer` model the server: observations become
  facts, facts change keyed entities, and eight maps pair declared calls, started calls and results.
  `SessionClient` models the client and its binary-searched order list; `Replication` and
  `ConversationRuns` prove that the client's replica is the sorted server state after every history.
* **Budgeted results.** `SearchResults` keeps matches under a byte budget by evicting context lines;
  `Listings` adds up the size of its JSON tree as it grows. `Json` gives both their decimal numbers.
* **Streams and the editor.** `EventStreams` reads server-sent events through an incremental scan window
  (compare section 9.2.6 of the WHATWG HTML Living Standard). `EditorLayout` and `Editors` lay out the
  input editor and move its cursor.

State that the source updates in place is a class here, and its methods are proved equal to functions
on values; the lemmas are about those functions. Hypotheses the statements rest on: a closing fence
line holds no cell divider (`Markdown.CloseHasNoPipe`, true of the pattern at
`v0/tui/body_document.ts:118`); graphemes are not empty and appends keep earlier cuts
(`Wrapping.Segments`, `WrapRows.Stable`); comparing identity strings is a total order
(`SessionClient.TotalOrder`); text cut out between two graphemes is cut the same way
(`EditorLayout.Cuts`). The claims about pairing calls, and only those, ask that no model result is
observed twice under one occurrence (`ConversationRuns.FreshHistory`).

Properties one might expect but the code does not have, each with its exact condition and a witness:

* An append need not give the blocks of a fresh document (`AppendExact`, witness `MisreadExample`).
* Vertical moves need not restore the cursor: they do exactly when the column in force points at the
  grapheme it stood on (`RestoredExactly`); when no column is set yet, a grapheme that takes no cells is
  found again only at the end of a row (`FreshRestored`, witness `ZeroCellsNotRestored`).
* A plain body can be printed twice: without a position, it is forgotten when it leaves the transcript
  (`ExactlyOnce`, `IdleOnce`). The witness `UnpositionedPrintsTwice` is a run of `drain`, not of the
  application: `v0/tui/state.ts:797-806` empties the transcript once, and keyed entries have positions.
* A row can take more cells than it has, by graphemes that take none (`RowsFit`, witnesses
  `WordRowOverruns` and `HardRowOverruns`).

## Model

| member | source | states |
|---|---|---|
| SourceText.SpansOfAppend | v0/tui/body_document.ts:249-281 | An append keeps the ranges of all lines but the last and re-reads from the last line's start |
| Markdown.WalkToHead | v0/tui/body_document.ts:807-1001 | The parser stands at exactly the lines that begin a block group, in the fence state the block above shows |
| Markdown.WalkLocal | v0/tui/body_document.ts:807-1001 | What is read above a line depends on that line only through the one line of lookahead |
| Restart.ParseBlocks | v0/tui/body_document.ts:807-1001 | Every block of a reading describes its own line and joins or starts a group with respect to the block above |
| Restart.GroupStart | v0/tui/body_document.ts:708-733 | The first line of any block's group is one where the parser stood outside every fence |
| Restart.Resume | v0/tui/body_document.ts:1435-1470 | Restarting where the parser stood, with the lines above unchanged, gives the blocks of reading everything |
| Restart.AppendExact | v0/tui/body_document.ts:771-805 | After an append, keeping the earlier blocks and reading on equals reading the whole text, if and only if the tail is not misread |
| Restart.MisreadExample | v0/tui/body_document.ts:798-804 | A concrete append that re-reads a table row as a new header |
| Restart.EditExact | v0/tui/body_document.ts:708-733 | After any other edit, restarting without a fence at the chosen line equals reading the whole new text |
| Restart.ParseRenames | v0/tui/body_document.ts:1410-1416 | Block lists do not depend on line identities: renaming lines renames blocks |
| LineHistory.HistoryGrows | v0/tui/body_document.ts:240-350 | Over updates an identity with its version keeps one text for ever and an identity's text only grows |
| LineReuse.PushLines | v0/tui/body_document.ts:206-238 | The scanning loop pushes exactly the lines of the text, with fresh identities |
| LineReuse.AppendedLines | v0/tui/body_document.ts:249-304 | Lines after an append: all but the last kept, the last grown in place or replaced, the ranges those of the new text |
| LineReuse.GrowLast | v0/tui/body_document.ts:283-304 | The last line object runs on to its new end under a higher version, and further lines follow it |
| LineReuse.CommonPrefix | v0/tui/body_document.ts:306-350 | The longest run of leading lines with equal text |
| LineReuse.CommonSuffix | v0/tui/body_document.ts:306-350 | The longest run of trailing lines with equal text that does not overlap the prefix |
| LineReuse.EditedLines | v0/tui/body_document.ts:306-350 | Lines after any other edit: unchanged leading and trailing lines keep their identities at the new ranges |
| BodyDocuments.BuildTableContext | v0/tui/body_document.ts:671-706 | A context found in the cache under the lines' key is the one those lines would give afresh |
| BodyDocuments.ParseMarkdown | v0/tui/body_document.ts:807-1001 | The imperative parser, with its table cache, computes the reference reading |
| BodyDocuments.ParseShifts | v0/tui/body_document.ts:1444-1449 | Reading a tail of the lines by itself is reading all lines from there on |
| BodyDocuments.LineIndexAtStart | v0/tui/body_document.ts:749-769 | The binary search finds the line that starts at an offset |
| BodyDocuments.AppendMarkdownPlan | v0/tui/body_document.ts:771-805 | The restart line and fence state of an append, by offsets and binary search, are those of the plan by identities |
| BodyDocuments.MarkdownRestartLine | v0/tui/body_document.ts:708-733 | The restart line of an edit is that of its specification |
| BodyDocuments.BodyDocument.Append | v0/tui/body_document.ts:1418-1450 | Lines, blocks, identities and cache keys after an append |
| BodyDocuments.BodyDocument.Edit | v0/tui/body_document.ts:1452-1470 | Lines, blocks, identities and cache keys after any other edit |
| BodyDocuments.BodyDocument.Update | v0/tui/body_document.ts:1418-1472 | A document that equals a fresh one still does after an update, except for a misread append; cache keys keep their meaning |
| Wrapping.NextHardBoundary | v0/tui/body_document.ts:422-454 | The loop finds the end of a hard row |
| Wrapping.ScanRun | v0/tui/body_document.ts:456-481 | The loop finds the end and width of a run of white or other graphemes |
| Wrapping.TakeWords | v0/tui/body_document.ts:537-575 | The loop adds whole words to a row as specified, in every branch |
| Wrapping.NextWordSlice | v0/tui/body_document.ts:483-575 | The word slice, leading white space and first word included, is that of its specification |
| Wrapping.WordSliceSound | v0/tui/body_document.ts:483-575 | A word slice keeps to grapheme cuts, advances, and skips nothing but white space |
| Wrapping.WordSliceFits | v0/tui/body_document.ts:483-575 | A slice of words fits the width, or is one grapheme wider than it, if and only if no gap that overruns the row is followed by a word without cells |
| Wrapping.HardFits | v0/tui/body_document.ts:422-454 | A hard row fits, or is one grapheme wider, if and only if it does not open with graphemes without cells before one wider than the row |
| WrapRows.RowsCover | v0/tui/body_document.ts:598-640 | All rows of a range are ordered and disjoint, with only white space between and around them |
| WrapRows.HardRowsAbut | v0/tui/body_document.ts:422-454 | Hard rows are not empty and drop nothing: each begins where the one before it ends |
| WrapRows.RowsFit | v0/tui/body_document.ts:422-575 | Every row of a wrapping fits or is one grapheme wider than the row, if and only if it does not overrun in one of those two ways |
| WrapRows.PositiveRowsFit | v0/tui/body_document.ts:422-575 | Where every grapheme takes a cell, every row fits or is one grapheme wider |
| WrapRows.RowsNonEmpty | v0/tui/body_document.ts:612-638 | Every measured row advances; only a last row of white space can be empty |
| WrapRows.LastSliceAgain | v0/tui/body_document.ts:283-304 | The last row may be measured again from its own start, although white space before it was skipped |
| WrapRows.AppendRows | v0/tui/body_document.ts:283-304 | After an append at a grapheme boundary all rows but the last are those of the longer text |
| WrapLayouts.WordRowOverruns | v0/tui/body_document.ts:483-575 | A concrete row of words that exceeds its width: a letter, a space and a vowel sign without cells |
| WrapLayouts.HardRowOverruns | v0/tui/body_document.ts:422-454 | A concrete hard row that exceeds its width: a vowel sign without cells before an ideograph |
| WrapLayouts.WrapLayout.MeasureRow | v0/tui/body_document.ts:598-640 | One turn of the measuring loop adds the next row of the from-scratch wrapping |
| WrapLayouts.WrapLayout.EnsureRow | v0/tui/body_document.ts:598-640 | After the call a row exists exactly when the from-scratch wrapping has it, and is that row |
| WrapLayouts.WrapLayout.EnsureAll | v0/tui/body_document.ts:642-664 | All rows are measured; the count is that of the from-scratch wrapping |
| WrapLayouts.WrapLayout.RowForOffset | v0/tui/body_document.ts:1702-1725 | The row of an offset, measuring no further than needed, is the row that holds it |
| WrapLayouts.WrapLayout.Reopen | v0/tui/body_document.ts:283-304 | Dropping the last row of a finished layout leaves a coherent unfinished layout of the longer range |
| WrapLayouts.GrowFinished | v0/tui/body_document.ts:283-304 | A finished layout without its last row is a prefix of the longer text's rows and resumes where it must |
| WrapLayouts.GrowUnfinished | v0/tui/body_document.ts:283-304 | An unfinished layout is unaffected by an append |
| WrapLayouts.SeekFindsRow | v0/tui/body_document.ts:1278-1294 | For an offset inside a row the answer does not depend on how much is measured |
| WrapLayouts.SeekInGap | v0/tui/body_document.ts:1278-1294 | For an offset in skipped white space it does, and exactly how |
| WrapLayouts.LineWraps.RowAt | v0/tui/body_document.ts:577-640 | A row query through the cache answers as the from-scratch wrapping does |
| WrapLayouts.LineWraps.Retarget | v0/tui/body_document.ts:283-304 | Re-keying the layouts of a grown line keeps every cached layout coherent and loses none |
| TableWidths.Widest | v0/tui/body_document.ts:1151-1158 | The leftmost of the widest columns over three cells, if there is one |
| TableWidths.TableColumns | v0/tui/body_document.ts:1113-1169 | Widths exist exactly when three cells a column fit; they use all the room wanted and available, and a shrunk column is within one of the widest |
| TableWidths.LevelClose | v0/tui/body_document.ts:1149-1161 | Any two ways of shrinking off the top to one total agree up to one cell a column |
| Navigation.NextPrevious | v0/tui/body_document.ts:1525-1543 | `previous` undoes `next` and `next` undoes `previous`; only the first and last rows have no neighbour |
| Navigation.WalkVisitsOnce | v0/tui/body_document.ts:1474-1534 | Stepping from the first row meets every row of every block exactly once |
| Navigation.LineIndexAt | v0/tui/body_document.ts:1683-1695 | The binary search finds the line an offset lies on |
| Navigation.Seek | v0/tui/body_document.ts:1497-1523 | Seeking the source offset of a row gives that row back |
| Navigation.RowKeySound | v0/tui/body_document.ts:1574-1593 | Two equal keys of plain rows, also at different times, mean equal rendered rows |
| DocumentLayouts.RunCoherent | v0/tui/body_document.ts:577-664 | After any run of queries and updates of a document, appends being at grapheme boundaries, every cached layout is coherent with its line |
| DocumentLayouts.CachedRowsArePrefix | v0/tui/body_document.ts:598-640 | The rows of a coherent cached layout are a prefix of wrapping its range afresh |
| DocumentLayouts.RetargetCoherent | v0/tui/body_document.ts:283-304 | Re-keying and reopening the layouts of a grown line keeps all of them coherent |
| DocumentLayouts.UpdateFollows | v0/tui/body_document.ts:1418-1472 | A document update leaves each line new, kept, or, after an append, the last one grown in place |
| DocumentLayouts.UpdateAll | v0/tui/body_document.ts:1574-1593 | Over any sequence of updates equal keys of plain rows, then and now, mean equal rows |
| FlowRows.LinesTile | v0/tui/conversation_flow.ts:86-113 | The rows of consecutive lines tile the source between their starts |
| FlowRows.FindLine | v0/tui/conversation_flow.ts:316-330 | Looking a line's first row up by cursor finds the rows of that line and the lines after it |
| FlowRows.SealLeavesLines | v0/tui/conversation_flow.ts:350-358 | Sealing the block of the last printed row leaves whole lines |
| FlowRows.TilesShowOnce | v0/tui/conversation_flow.ts:359-372 | Tiling ranges show exactly the characters in reach that are no line feeds, each once |
| ConversationFlows.FrontierAny | v0/tui/conversation_flow.ts:207-218 | The frontier after removals does not depend on their order |
| ConversationFlows.FrontierReaches | v0/tui/conversation_flow.ts:207-218 | The frontier never falls back and reaches every removed position |
| ConversationFlows.ConversationFlow.SealVisibleTail | v0/tui/conversation_flow.ts:177-188 | The live entry's receipt is complete, and its live rows count as printed |
| ConversationFlows.ConversationFlow.Forget | v0/tui/conversation_flow.ts:203-218 | Receipts of removed entries are dropped and move the frontier, except for the entry still live |
| ConversationFlows.ConversationFlow.Prepare | v0/tui/conversation_flow.ts:240-341 | The first loop prepares each entry's receipt and unprinted rows as specified |
| ConversationFlows.ConversationFlow.Drain | v0/tui/conversation_flow.ts:198-379 | A drain changes receipts, frontier and live entry as specified, and leaves at most `capacity` rows live |
| FlowRuns.PreparedReady | v0/tui/conversation_flow.ts:260-341 | The rows prepared for a grown body are whole lines that continue exactly where printing stopped, at any width |
| FlowRuns.PrintedKept | v0/tui/conversation_flow.ts:344-377 | Printing keeps the tiling up to where the receipt resumes, and with the live rows reaches the end of the text |
| FlowRuns.DrainTracked | v0/tui/conversation_flow.ts:198-379 | A drain that does not forget the body, whatever else it holds, keeps its invariant; an idle drain completes its receipt |
| FlowRuns.SealTracked | v0/tui/conversation_flow.ts:177-188 | Sealing the tail keeps the invariant |
| FlowRuns.ExactlyOnce | v0/tui/conversation_flow.ts:154-379 | Over any run a growing plain body has a character printed twice if and only if a drain forgets a receipt that shows some of it and a later receipt shows some of it; only its text is printed, and all but line feeds once its receipt is complete |
| FlowRuns.ReceiptTells | v0/tui/conversation_flow.ts:359-372 | The receipt of an entry without a position shows some of it exactly when some has been printed since it was last forgotten |
| FlowRuns.IdleOnce | v0/tui/conversation_flow.ts:198-379 | When nothing runs at any drain, an entry without a position is printed twice if and only if the transcript shows it, then lacks it, then shows it again |
| FlowRuns.PositionedOnce | v0/tui/conversation_flow.ts:207-218 | An entry with a position is never forgotten, so it is printed exactly once on every run |
| FlowRuns.RunTracked | v0/tui/conversation_flow.ts:198-379 | Every run keeps the invariant for what was printed since the entry was last forgotten |
| FlowRuns.AfterLog | v0/tui/conversation_flow.ts:198-379 | What a drain or a seal prints does not depend on what was printed before |
| FlowRuns.UnpositionedPrintsTwice | v0/tui/conversation_flow.ts:207-218 | A concrete run of drains that prints a body again: without a position, it leaves the transcript and comes back |
| FlowRuns.IdleDrainShowsAll | v0/tui/conversation_flow.ts:342-378 | After an idle drain that shows the body every character but line feeds has been printed, once since it was last forgotten |
| Conversation.ComparePositions | v0/conversation/model.ts:384-392 | Positions compare equal only when they are equal |
| Conversation.ConversationStore.ApplyFact | v0/conversation/normalizer.ts:936-1070 | The maps and the emitted changes after a fact are those of the specification |
| SessionClient.SearchSplits | v0/api/reducer.ts:96-107 | In a sorted list the binary search splits the entries before the new one from those after it |
| SessionClient.InsertKeepsSorted | v0/api/reducer.ts:93-109 | Inserting there keeps the list strictly sorted and adds exactly the new identity |
| SessionClient.RemoveKeepsSorted | v0/api/reducer.ts:90-92 | Removing an identity keeps the list sorted and removes exactly it |
| SessionClient.DisplayOrderUnique | v0/conversation/model.ts:403-409 | There is only one sorted list of all identities |
| SessionClient.SessionReducer.FindInsertion | v0/api/reducer.ts:96-107 | The loop computes the specified insertion point |
| SessionClient.SessionReducer.Reduce | v0/api/reducer.ts:27-127 | The reducer's state after a frame, or its error, is that of the specification |
| Replication.AppliedConsistent | v0/conversation/normalizer.ts:920-1070 | Every fact keeps the order map in step with the entities, and each assistant message listing the tools of its request without repetition |
| Replication.PositionsFixed | v0/conversation/normalizer.ts:1014-1018 | While an entity is present its position is fixed and its version never falls |
| Replication.FactMirrors | v0/api/reducer.ts:74-121 | Folding the changes of one fact keeps the client a mirror of the server |
| Replication.RunMirrors | v0/api/reducer.ts:74-121 | So does folding the changes of every sequence of facts |
| Replication.UpdateReports | v0/api/reducer.ts:47-127 | An accepted update is the next revision, its dirty set covers every changed entity, and the order is unchanged without a structural change |
| Replication.GapRefused | v0/api/reducer.ts:47-51 | A frame is refused as a gap exactly when it is newer but not the next revision |
| Replication.SkipRefused | v0/api/reducer.ts:47-51 | A delivery of a log, with earlier frames repeated at any time, is refused if and only if it skips a frame, and then as a gap |
| Replication.RedeliveryHarmless | v0/api/reducer.ts:47 | Repeated delivery of old frames leaves the client as the plain log does |
| Replication.StreamReplicates | v0/api/reducer.ts:27-127 | However frames are redelivered, the client mirrors the server after the last one |
| Indexes.PushAgrees | v0/conversation/normalizer.ts:505-529 | Pushing under its key keeps an index in step with its list |
| Indexes.EntriesWithout | v0/conversation/normalizer.ts:204-208 | Removing an element removes its own entry and nothing under another key |
| Normalizer.ShiftAgrees | v0/conversation/normalizer.ts:230-233 | Shifting a key's oldest entry removes the first declaration with that key |
| Normalizer.UndeclareAgrees | v0/conversation/normalizer.ts:235-274 | Removing a taken declaration leaves all four declaration indexes holding the same remaining declarations |
| Normalizer.RetireAllAgree | v0/conversation/normalizer.ts:783-813 | Removing the last entry of an identity from each map closes the newest open call of that identity in all four |
| Normalizer.TakenAgrees | v0/conversation/normalizer.ts:230-274 | Taking by the four maps is taking the first match off the list of declarations |
| Normalizer.ResolvedAgrees | v0/conversation/normalizer.ts:210-228 | Resolving by the four open-call maps is resolving by the list of open calls |
| Normalizer.MapsRefine | v0/conversation/normalizer.ts:320-918 | While no model result is observed twice the eight maps stay indexes of the two lists and yield the same facts |
| Normalizer.NormalizedValid | v0/conversation/normalizer.ts:320-918 | Every observation keeps declarations distinct and tracked, and every open call opened where its origin says |
| Normalizer.ResolvesOpen | v0/conversation/normalizer.ts:210-228 | Progress and results refer only to open calls |
| Normalizer.ConversationNormalizer.TakeDeclaration | v0/conversation/normalizer.ts:633-642 | The shift off one list and the removal from the other three, on any state of the maps |
| Normalizer.ConversationNormalizer.DeclareCalls | v0/conversation/normalizer.ts:486-577 | The loop over declared calls is its specification on the eight maps and the origins |
| Normalizer.ConversationNormalizer.NormalizeToolCall | v0/conversation/normalizer.ts:614-714 | A tool call in place, on any history, is its specification on the eight maps |
| Normalizer.ConversationNormalizer.NormalizeToolResult | v0/conversation/normalizer.ts:758-847 | A result in place, on any history, is its specification on the eight maps |
| Normalizer.ConversationNormalizer.Normalize | v0/conversation/normalizer.ts:320-918 | Every observation, on any history, changes books and maps and yields facts as specified |
| ConversationRuns.NormalizedWellFormed | v0/conversation/normalizer.ts:320-918 | On every history the maps hold identities of tools only, and every fact names its entity by an identity of the right kind |
| ConversationRuns.ObservationsMirror | v0/conversation/normalizer.ts:1072-1084 | For every history, repeated observations included, the client that folds the changes ends with the server's entities in display order, and the state is consistent |
| ConversationRuns.EveryHistoryMirrors | v0/conversation/normalizer.ts:1072-1084 | The same from an empty server and an empty client |
| ConversationRuns.ClientOrderIsSorted | v0/conversation/model.ts:403-409 | The client's order list is the identities of the server's entities, sorted |
| ConversationRuns.TakenOnce | v0/conversation/normalizer.ts:614-642 | Over every history without a repeated model result each declared call is taken by at most one tool call |
| ConversationRuns.RunRefines | v0/conversation/normalizer.ts:1072-1084 | Over every such history the eight maps give the facts of the two lists, observation by observation, and end as indexes of them |
| ConversationRuns.MapsTakeOnce | v0/conversation/normalizer.ts:614-642 | So the eight maps hand out no declaration twice |
| ConversationRuns.StepBalances | v0/conversation/normalizer.ts:614-847 | A call opens one identity, a result with any effect closes one that is open, nothing else does either |
| ConversationRuns.RunBalances | v0/conversation/normalizer.ts:614-847 | Over every history what was opened is what was closed or is still open |
| ConversationRuns.IndexesAgreeOnOpen | v0/conversation/normalizer.ts:655-690 | The four open-call indexes hold each identity as often as it is open |
| ConversationRuns.ApplyObservation | v0/conversation/normalizer.ts:1072-1084 | The server in place after any observation, and the changes emitted, are those of the specification |
| SearchResults.ResultAccumulator.Append | external-tools/grep/index.ts:664-704 | A match is kept exactly when it fits with every context record evicted |
| SearchResults.ResultAccumulator.FindEvictions | external-tools/grep/index.ts:673-698 | The running totals are those of the records left, and no shorter eviction makes room |
| SearchResults.Splice | external-tools/grep/index.ts:689-691 | Splicing the noted positions out, last first, leaves the earlier matches and everything after them |
| SearchResults.ResultAccumulator.MatchedLine | external-tools/grep/index.ts:544-594 | A line event keeps the ledger, and the matches kept stay the greedy fill |
| SearchResults.ResultAccumulator.MatchedFile | external-tools/grep/index.ts:533-542 | A file is counted once, and the files kept stay the greedy fill |
| SearchResults.ResultAccumulator.FlushContexts | external-tools/grep/index.ts:639-662 | The waiting context lines are kept while they fit, in order, and never change which matches are kept |
| SearchResults.ResultAccumulator.TrimToFit | external-tools/grep/index.ts:598-614 | Trimming keeps the ledger and leaves alone a result that fits |
| SearchResults.ResultAccumulator.Finish | external-tools/grep/index.ts:596-637 | With counts of at most sixteen digits no record is trimmed, match or context, and the result fits the budget or has no records |
| SearchResults.RunSearch | external-tools/grep/index.ts:507-705 | Over any events the matches returned are the greedy fill of the first matches, and the counts agree with them |
| SearchResults.ContextNeverCosts | external-tools/grep/index.ts:564-580 | A search and the same search without its context events return the same matches and count as many |
| SearchResults.EnvelopeSmall | external-tools/grep/index.ts:617-637 | The envelope of the result fits in the room kept for it |
| SearchResults.GreedyFits | external-tools/grep/index.ts:670-672 | The greedy fill stays within the room for records |
| Listings.ListedExact | external-tools/ls/index.ts:243-299 | At every level the bytes added up are exactly those the JSON grows by |
| Listings.ResultExact | external-tools/ls/index.ts:195-312 | The bytes added up are those of the whole result, written with its limit for a count |
| Listings.ResultFits | external-tools/ls/index.ts:308-312 | The final check never fails when the empty result leaves 25 bytes, and the count never exceeds the limit |
| Listings.OverBudgetExactly | external-tools/ls/index.ts:262-312 | The exact bound that makes the final error unreachable: it is raised only if not even the empty result with its mark fits |
| Listings.ResultLeads | external-tools/ls/index.ts:243-299 | The entries listed are the first ones of the full listing; all of them exactly when nothing stopped it; an empty unmarked directory is empty |
| Listings.Lister.AppendEntries | external-tools/ls/index.ts:243-293 | The recursive builder, counting in place, gives the specified tree and ledger |
| Listings.Execute | external-tools/ls/index.ts:184-313 | The listing, or the error of a result over its budget |
| EventStreams.ScanWindow | v0/api/client.ts:588-600 | Once a text holds no separator, a search in a longer one may skip all but its last three characters |
| EventStreams.EventReader.Feed | v0/api/client.ts:588-600 | Whatever follows, the records a chunk completes are the next ones of the whole stream |
| EventStreams.ParseRecord | v0/api/client.ts:567-574 | The payload of a record is its data lines, joined |
| EventStreams.Subscribe | v0/api/client.ts:586-607 | However a stream is cut into chunks, the subscriber receives the frames of the whole stream up to the first invalid one |
| EventStreams.WrittenDelivered | v0/api/client.ts:564-607 | Events written as data lines with LF or CRLF come out as their texts, decoded, in any chunking |
| EditorLayout.RowsLaid | v0/tui/input_layout.ts:11-60 | Rows partition the graphemes; only line feeds fall between rows; each fits or is a single grapheme |
| EditorLayout.LayoutEditorText | v0/tui/input_layout.ts:11-60 | The one-pass loop gives those rows and the row and cell of the cursor |
| EditorLayout.MoveEditorCursorVertically | v0/tui/input_layout.ts:62-89 | The move, by cutting the target row's own text, is the specified one |
| EditorLayout.MoveLands | v0/tui/input_layout.ts:62-89 | A move lands in the adjacent displayed row, at a grapheme, no further right than asked |
| EditorLayout.UpsThenDowns | v0/tui/input_editor.ts:104-121 | As many downs as successful ups all succeed and end where a move into the first row would land |
| EditorLayout.RestoredExactly | v0/tui/input_editor.ts:104-121 | From every state such a run restores the cursor if and only if it stood at the grapheme of its row that the column in force points at |
| EditorLayout.FreshRestored | v0/tui/input_editor.ts:104-121 | Without a column to begin with, if and only if it stood at a grapheme that takes cells, at a line's end or at the last of a wrapped row |
| EditorLayout.ZeroCellsNotRestored | v0/tui/input_layout.ts:75-88 | A concrete text, cut by its scalars, whose cursor is not restored |
| Editors.TuiEditor.MoveVertical | v0/tui/input_editor.ts:110-121 | A vertical move sets cursor and sticky column as specified; a failed one changes nothing |
| Editors.TuiEditor.Insert | v0/tui/input_editor.ts:52-61 | Text is inserted at the cursor exactly when it is acceptable and fits the byte limit |
| Editors.TuiEditor.Home | v0/tui/input_editor.ts:86-94 | The cursor goes past the nearest line feed before it |
| Editors.BackspacesUndoInsert | v0/tui/input_editor.ts:52-73 | As many backspaces as scalars inserted give the text back |

## Left out

- Line recognition patterns, inline spans, tones and escaping: predicates of a `Grammar`, or not modelled; only the parser's control flow and the wrapping arithmetic are.
- Grapheme segmentation and cell widths: a parameter of every layout. In the document modules a `char` is one UTF-16 unit, in the editor one Unicode scalar, in a listing's JSON one byte.
- Seeking inside tables, record-style tables and cell rendering: many display cases with little depth; `Navigation.Body` covers plain, fixed and wrapped lines.
- Natural table widths: `TableWidths` starts from them; their cache per width is not modelled.
- BodyDocuments.BodyDocument.Update: speaks of one document whose identities come from its own counter; the source's counter is shared by all documents, which only makes identities rarer. The table contexts are cached by key, and the shared cache map of the source is passed along as `contexts`.
- BodyDocuments.BodyDocument.Update: claims nothing about the blocks of a document that a misread append has left unlike a fresh one.
- Line objects: `SourceLine` is a value whose identity and version stand for the object. The layouts of one line are objects in `LineWraps`; those of a whole document are values in `DocumentLayouts`.
- ConversationFlows.ConversationFlow.Drain: recomputes an entry's rows at each drain; the cache of rendered rows, the startup header, the preview and `reset` are not modelled. A cached separator row may differ from a recomputed one; body rows cannot.
- FlowRuns.ExactlyOnce: speaks of body source text, not of label or separator rows: a label counts as printed as soon as any row is. It covers entries that are plain bodies at every drain that shows them; Markdown bodies and records are given as rows by `Look`, and an assistant entry that changes from Markdown to a plain note (`v0/tui/keyed_conversation_store.ts:48`) is outside the theorems about runs.
- Conversation entities: fields that are copied and never read are one `Payload`; identity strings are constructors, and their encoding is assumed injective. `toolOccurrenceIds` is modelled, and storing an assistant message again drops it as in the source, so nothing is claimed about keeping it.
- Normalizer: with a repeated model result the eight maps may hold different entries; what is then claimed is their specification, well-formed facts and replication. The model starts at observations; the history adapter that produces them is field translation.
- SessionClient.SessionReducer.Reduce: compares identity strings by a total order that is a parameter.
- SearchResults: processes, cancellation, path policy and JSON rendering of records are parameters (`allows`, `relative`, `sizeOf`); a silently dropped leading context line is not counted, as in the source.
- Listings: the file system is a given tree of sorted visible entries. When the listing stops inside a directory, only that directory is marked, not the ones above it, as in the source. Tree nodes are values; the source marks and fills node objects in place.
- EventStreams: character decoding, JSON decoding, abort and reader release; frames are delivered per chunk rather than one by one.
- Editors: history, kill ring and key handling live elsewhere in the source; the cursor moves by one scalar and submit are one-branch members.
- Other API calls, codecs, evaluation and corpus tables, hooks, presentation contracts, scripts and packaging.
