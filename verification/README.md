# Azem: verified models of its editing, archive and durability protocols

This project models the parts of Azem whose promises span many steps, and proves them for every
input, every history or every reachable state.

| files | what they model |
|---|---|
| `Sorting.dfy` | stable sorting by a key, and what holds of any sort |
| `Text.dfy`, `LineEnds.dfy` | splitting, joining, newline normalization, decimal numbers and string order as Go has them |
| `HashlineApply.dfy`, `HashlinePatch.dfy`, `HashlineLanguage.dfy`, `HashlineLexis.dfy`, `HashlinePrepare.dfy`, `HashlineCommit.dfy`, `HashlineClipboard.dfy`, `HashlineDriver.dfy`, `HashlineMoves.dfy`, `HashlineHunks.dfy`, `HashlineSections.dfy` | the hashline patch engine: language, parser, resolution, batch application, commit with rollback, registers kept between patches, and what each hunk and each pair of sections does to the files |
| `NativeEdits.dfy`, `NativeRoundTrip.dfy`, `NativeChanges.dfy`, `Replace.dfy`, `ReplaceLineEnds.dfy` | the two patch printers and their round trips through the engine |
| `Trie.dfy`, `AsarRead.dfy`, `AsarCodec.dfy`, `AsarNames.dfy` | the ASAR codec |
| `Approvals.dfy`, `ApprovalService.dfy`, `ApprovalAnswers.dfy` | the approval protocol, and what each answer of a user does to the call |
| `Bindings.dfy` | execution bindings under compare-and-swap |
| `Blobs.dfy`, `SubagentStore.dfy` | subagent rows and their blobs, over all interleavings and as one writer runs them |
| `Team.dfy`, `TeamRun.dfy` | the coding team's scheduler, fold and driving loop |
| `Registry.dfy` | the adapter registry |
| `Positions.dfy`, `Unicode.dfy`, `Splices.dfy` | editor positions, the encodings they count in, and batches of text edits |
| `Wakeups.dfy`, `PromptReplies.dfy` | shell slots, background jobs and prompt replies |

`dafny verify dfyconfig.toml` checks everything.

Protocols are state machines whose steps are the critical sections and units of work of the code, so
an interleaving is a list of steps and a theorem about every history is one about every interleaving.
Objects that the code updates in place are also given as classes whose methods are tied to the steps.
Digests (SHA-256, shortened identities) are taken as injective, the FNV tag and JSON as functions with
the laws stated where they are used. Texts are sequences of Unicode scalars; archives and spliced files are sequences of bytes.

## What the proofs turned up

- A change that only alters line ends or a byte-order mark prints an empty PUT, which the parser refuses
  (`internal/agent/native_edits.go:51`): the printed patch is accepted exactly when normalization hides
  no change (`NativeChanges.NativeChangesRoundTrip`, with an instance in `NativeChanges.LineEndChangeRefused`).
- "old_text must occur exactly once" is not what is tested: overlapping occurrences count as one
  (`Replace.AcceptedExactly`, `Replace.OverlapAccepted`).
- The ASAR encoder accepts archives its reader refuses, among them a rewrite that adds the 10001st entry,
  a target with a backslash, or one of 5000 parts, which nests deeper than the JSON reader goes
  (`AsarCodec.RewriteRoundTrip`, `AsarCodec.BackslashRefused`, `AsarCodec.DeepRefused`).
- A decision taken after the approval's expiry leaves the resume token pending, because expired tokens
  are not listed and the decision does not look at the expiry (`Approvals.TokenAfterDecision`,
  `Approvals.TokenPendingHistory`).
- `RequireRunReconciliation` can revive a cancelled binding (`Bindings.RevivedExactly`).
- Routes with NUL characters can share a registry key (`Registry.NulRoutesCollide`), and exactly those do
  (`Registry.KeyUnique`).
- "REM must be the only hunk" is tested against earlier hunks only: a later section may edit a file that the
  patch has removed, and its lines are lost (`HashlineSections.EditsAfterRemoveLost`; the other way round it
  is refused, `HashlineSections.RemoveAfterEditsRefused`).
- A member name such as `./ a` is normalized to a name with white space before it, which is not normal
  itself, so the encoder refuses it (`AsarNames.NormalTwice`).
- "The symbol must occur exactly once on the line" does not count an occurrence that overlaps the first
  (`Positions.ColumnExactly`).
- A carriage return inside a line of a replacement text is taken for a line end of the patch, and what
  follows it is read as a hunk (`ReplaceLineEnds.LoneCrReadAsHunk`, `ReplaceLineEnds.OverwriteReadExactly`).
- A prompt sent without an id is answered, with a null id, if its run ends before registration, and
  otherwise leaves its session busy for good (`PromptReplies.NotificationFate`, with instances in
  `PromptReplies.NotificationAnswered` and `PromptReplies.NotificationLeavesBusy`).
- Syntax-tree replacements with equal starts come out in an order the sort is free to choose
  (`Splices.TiesAreAmbiguous`), and an insertion tied with a replacement is accepted or refused by that order
  (`Splices.TieDecidesAcceptance`); `Splices.TiesExactly` says when the order does not matter.

## Model

| member | source | states |
|---|---|---|
| `HashlineApply.ApplyActions` | internal/agent/hashline_edit.go:521-570 | accepts exactly the action lists whose ranges do not overlap and whose insertion gaps lie in no range, names an offending pair otherwise, and then returns the declared per-line result |
| `HashlineApply.CollectRanges` | internal/agent/hashline_edit.go:525-536 | the range pass finds a clash exactly when two ranges overlap, and indexes every range by its first line |
| `HashlineApply.CollectInsertions` | internal/agent/hashline_edit.go:537-547 | the insertion pass groups insertions by gap and finds one inside a range exactly when there is one |
| `HashlineApply.SortInsertions` | internal/agent/hashline_edit.go:548-550 | each gap's text is its insertions in sequence order |
| `HashlineApply.Walk` | internal/agent/hashline_edit.go:551-569 | the line counter loop emits gap texts, ranges and kept lines so as to produce the planned output |
| `HashlineApply.CutAtGap` | internal/agent/hashline_edit.go:551-569 | the declared output can be cut at any gap into what lies above, the gap's text and what lies below |
| `HashlineApply.UntouchedAbove` | internal/agent/hashline_edit.go:551-569 | lines above every hunk are kept, once and in order |
| `HashlineApply.RangeSwallowed` | internal/agent/hashline_edit.go:558-564 | a replaced range appears once, as its body, and its inner lines and gaps vanish |
| `HashlineApply.OrderIndependent` | internal/agent/hashline_edit.go:521-570 | permuting the action list changes neither acceptance nor the result |
| `HashlineApply.BottomUpAgrees` | internal/agent/hashline_edit.go:521-570 | the batch result equals applying the hunks one at a time from the bottom of the file to the top |
| `HashlinePatch.HeaderRoundTrip` | internal/agent/hashline_edit.go:31-31 | a printed section header reads back as its path and tag |
| `HashlinePatch.ParsePatch` | internal/agent/hashline_edit.go:208-261 | the index-cursor parser computes the patch grammar, errors included |
| `HashlinePatch.ScanHunks` | internal/agent/hashline_edit.go:228-254 | the inner loop reads one section's hunks, stopping at the next header |
| `HashlinePatch.ScanRows` | internal/agent/hashline_edit.go:241-249 | body rows are the lines with a plus sign, without it |
| `HashlinePatch.ParseNumbers` | internal/agent/hashline_edit.go:208-261 | parsed hunks carry consecutive sequence numbers over the whole patch and well-formed locators |
| `HashlinePatch.SectionRead` | internal/agent/hashline_edit.go:208-261 | a header, a hunk line and its rows read as one section with one hunk |
| `HashlinePatch.EmptyPutRejected` | internal/agent/hashline_edit.go:241-249 | a PUT that announces a body and has no row is refused |
| `HashlinePatch.RangeLocatorReads` | internal/agent/hashline_edit.go:301-334 | a printed line range reads back as that range |
| `HashlinePatch.GapLocatorReads` | internal/agent/hashline_edit.go:301-334 | printed gap locators read back as the gap before or after a line |
| `HashlinePatch.PutReads` | internal/agent/hashline_edit.go:263-299 | a PUT line reads as a PUT with the locator its text reads as |
| `HashlinePatch.CutReads` | internal/agent/hashline_edit.go:263-299 | a CUT line reads as a CUT of the range its text reads as |
| `HashlineLexis.HeaderExactly` | internal/agent/hashline_edit.go:31-31 | a line is a header exactly when it is `[PATH#TAG]` with a path that is not empty and has no `#` or line end, and a tag of four upper-case hexadecimal digits |
| `HashlineLexis.RegisterReads` | internal/agent/hashline_edit.go:33-34 | whatever stands before ` @NAME` is told apart from the name |
| `HashlineLexis.RegisterExactly` | internal/agent/hashline_edit.go:33-34 | a text that does not end so stands for itself, without a register |
| `HashlineLexis.LocatorTrimmed` | internal/agent/hashline_edit.go:301-302 | white space around a locator does not count |
| `HashlineLexis.PlainMoves` | internal/agent/hashline_edit.go:290-294 | an unquoted destination is taken as it is, without the white space around it |
| `HashlineLexis.QuotedMoves` | internal/agent/hashline_edit.go:355-360 | one in single quotes is taken without them, and refused without the closing one |
| `HashlineLexis.UnquotedMoves` | internal/agent/hashline_edit.go:348-354 | one in double quotes is what unquoting makes of it, or refused with it |
| `HashlineLexis.EmptyMoveRefused` | internal/agent/hashline_edit.go:345-347 | a move to nothing is refused |
| `HashlineLanguage.LocatorReads` | internal/agent/hashline_edit.go:301-334 | every printed locator reads back as itself |
| `HashlineLanguage.RegisterSplits` | internal/agent/hashline_edit.go:33-34 | a locator text and a register name are told apart |
| `HashlineLanguage.HunkTextReads` | internal/agent/hashline_edit.go:263-299 | every printed hunk line, of any kind, reads back as its hunk |
| `HashlineLanguage.PatchRoundTrip` | internal/agent/hashline_edit.go:208-261 | printing any list of sections with well-formed hunks and parsing the text, with or without a final newline, gives the list back |
| `HashlineLanguage.ReprintParses` | internal/agent/hashline_edit.go:208-261 | whatever parses can be printed and parsed again to the same patch, as long as no destination holds a line end |
| `HashlinePrepare.ResolvedFits` | internal/agent/hashline_edit.go:483-519 | a resolved action lies within the file; where it stands in it is said by the `HashlineHunks` rows |
| `HashlinePrepare.PreparePatch` | internal/agent/hashline_edit.go:364-481 | collecting drafts section by section, applying them and checking the outcome computes the prepared outputs and registers, or the same refusal; what they come to is said, hunk by hunk, by the `HashlineHunks` and `HashlineSections` rows |
| `HashlinePrepare.CollectSection` | internal/agent/hashline_edit.go:369-450 | one section finds the file its path stands for, opens or reuses its draft, checks its tag and takes its hunks in order |
| `HashlinePrepare.SpellingIrrelevant` | internal/agent/hashline_edit.go:369-394 | a file is one draft, whichever spellings of its path the sections use |
| `HashlinePrepare.FinishDrafts` | internal/agent/hashline_edit.go:451-473 | every draft is applied in the order of first mention |
| `HashlinePrepare.ValidateDestinations` | internal/agent/hashline_edit.go:572-595 | accepts exactly when no two kept files share a destination and a moved file lands only on a free path or on another source |
| `HashlinePrepare.PreparedOk` | internal/agent/hashline_edit.go:364-481 | prepared outputs have distinct sources, carry the state on disk, and satisfy the destination rules |
| `HashlinePrepare.SectionsKeepOk` | internal/agent/hashline_edit.go:364-450 | every draft stays tied to its file and its actions stay within it, with rising sequence numbers |
| `HashlineCommit.UpdatedAt` | internal/agent/hashline_edit.go:601-675 | what the simultaneous update leaves at any path: the output written there, nothing where a source was taken away, the old state elsewhere |
| `HashlineCommit.Root.CommitPatch` | internal/agent/hashline_edit.go:601-675 | a commit succeeds exactly when the sources are as prepared and the system refuses nothing, and is then one simultaneous update of all files; one that fails with a clean rollback leaves every path that is not a temporary name with its content and mode; in any case no path outside the patch is touched |
| `HashlineCommit.Root.ReadOriginals` | internal/agent/hashline_edit.go:602-613 | the commit goes on exactly when every source still is what the patch was prepared against |
| `HashlineCommit.Root.StageOutputs` | internal/agent/hashline_edit.go:614-648 | new contents are staged in fresh temporary files and no other path changes |
| `HashlineCommit.Root.RenameAll` | internal/agent/hashline_edit.go:649-663 | renaming the staged files one by one in path order turns the old tree into the old tree overlaid with the written files; after a failure only the renamed destinations differ |
| `HashlineCommit.Root.RemoveSources` | internal/agent/hashline_edit.go:664-673 | sources nobody wrote to are removed; after a failure only the listed paths differ |
| `HashlineCommit.Root.Rollback` | internal/agent/hashline_edit.go:683-712 | a rollback without error restores the recorded state of every mutated path |
| `HashlineCommit.Root.Cleanup` | internal/agent/hashline_edit.go:677-681 | only temporary files are removed |
| `HashlineDriver.Execute` | internal/agent/hashline_edit.go:172-206 | the edit driver refuses exactly when the patch does not parse or prepare; otherwise it succeeds exactly when the system refuses nothing, and then the prepared update took place and its registers entered the clipboard; in every other case the clipboard is as it was, and after a clean rollback so are the files |
| `HashlineClipboard.Clipboard.Commit` | internal/agent/hashline_edit.go:55-75 | the registers of a patch replace those of the same name and new names go last; the oldest are dropped until number and size are within the limits, and no more of them |
| `HashlineClipboard.Clipboard.Enter` | internal/agent/hashline_edit.go:61-69 | every register of the patch is entered, whatever order the map yields, and each name is listed once |
| `HashlineClipboard.Clipboard.Evict` | internal/agent/hashline_edit.go:70-74 | the loop drops a prefix of the order and stops as soon as the rest fits |
| `HashlineDriver.PreparedCommittable` | internal/agent/hashline_edit.go:182-195 | a prepared patch satisfies what the commit relies on |
| `HashlineMoves.CutPasteMoves` | internal/agent/hashline_edit.go:402-433 | the patch that cuts lines a to b and pastes them after line g is refused exactly when g lies inside the range, or nothing moves and no named register keeps the lines; otherwise the block is moved and every other file is untouched |
| `HashlineMoves.MoveConserves` | internal/agent/hashline_edit.go:402-433 | moving loses and duplicates no line |
| `HashlineMoves.MoveDeclared` | internal/agent/hashline_edit.go:521-570 | the batch result of a cut and a paste is the moved block |
| `HashlineHunks.TailAppends` | internal/agent/hashline_edit.go:498-499 | `PUT >$:` leaves the old lines followed by the body, whatever the file |
| `HashlineHunks.BeforeInserts` | internal/agent/hashline_edit.go:488-492 | `PUT <n:` puts the body before line n, or is refused when there is no such line |
| `HashlineHunks.AfterInserts` | internal/agent/hashline_edit.go:493-497 | `PUT >n:` puts the body after line n, or is refused when there is no such line |
| `HashlineHunks.AfterBlockInserts` | internal/agent/hashline_edit.go:500-502 | `PUT >n*:` puts the body after the end of the block at line n, or is refused when there is none |
| `HashlineHunks.RangeReplaced` | internal/agent/hashline_edit.go:485-513 | `PUT a.=b:` replaces exactly the lines a to b, or is refused when they are not all there or would stay as they are |
| `HashlineHunks.BlockReplaced` | internal/agent/hashline_edit.go:485-518 | `PUT n*:` replaces exactly the lines of the block at line n |
| `HashlineHunks.PastesClipboard` | internal/agent/hashline_edit.go:411-433 | a paste puts what the clipboard holds under the name, as a PUT of these lines would, and is refused when it holds nothing |
| `HashlineHunks.PastedAfter` | internal/agent/hashline_edit.go:411-433 | `PUT >n @r` inserts what the clipboard holds under r after line n |
| `HashlineHunks.CutTakesOut` | internal/agent/hashline_edit.go:402-410 | `CUT a.=b` takes the lines out and keeps exactly them under the register, if one is named |
| `HashlineHunks.CutTakesBlock` | internal/agent/hashline_edit.go:402-410 | `CUT n*` does the same with the block at line n |
| `HashlineHunks.RemoveDeletes` | internal/agent/hashline_edit.go:434-438 | a lone REM leaves all files but this one as they were |
| `HashlineHunks.MoveRenames` | internal/agent/hashline_edit.go:439-447 | a lone MV leaves the normalized text and the mode under the new name, and is refused for the file's own name or an occupied one |
| `HashlineSections.TagsCurrent` | internal/agent/hashline_edit.go:384-393 | no patch is accepted unless each of its sections names a file by the tag of its present text |
| `HashlineSections.SectionsMerge` | internal/agent/hashline_edit.go:369-394 | two neighbouring sections of one file do what one section with the hunks of both does |
| `HashlineSections.RemoveAlone` | internal/agent/hashline_edit.go:434-437 | in an accepted patch REM is the only hunk of its section |
| `HashlineSections.EditsAfterRemoveLost` | internal/agent/hashline_edit.go:434-438 | a section that edits a file after another has removed it is accepted, and its lines are lost |
| `HashlineSections.RemoveAfterEditsRefused` | internal/agent/hashline_edit.go:434-437 | a file that has been edited cannot be removed by a later section |
| `HashlineSections.SecondFlagRefused` | internal/agent/hashline_edit.go:434-441 | a file that has been removed or renamed can be neither removed nor renamed again |
| `HashlineSections.CutPasteAcross` | internal/agent/hashline_edit.go:402-433 | lines cut from one file and pasted into another are gone from the one and stand after the given line in the other |
| `HashlineCommit.TempBeside` | internal/agent/hashline_edit.go:620-627 | a temporary file lies beside the file it is written for |
| `HashlineClipboard.TextBytes` | internal/agent/hashline_edit.go:77-86 | the size of a register is that of its text in UTF-8 with each line ended |
| `LineEnds.UnifyLaw` | internal/agent/hashline_edit.go:209-209 | folding pairs and then single carriage returns reads each line end once: a pair is one newline, so is a carriage return with none after it, and all else stands |
| `LineEnds.EndsAgree` | internal/agent/hashline_edit.go:209-209 | rows are read alike whichever of the three line ends stands between them |
| `NativeEdits.DiffSound` | internal/agent/native_edits.go:57-66 | the trimmed diff splits both texts into a common prefix, the differing middle and a common suffix; the middle is empty on both sides exactly for equal texts |
| `NativeEdits.TrimDiff` | internal/agent/native_edits.go:57-66 | the two trimming loops compute the diff |
| `NativeEdits.PrintSection` | internal/agent/native_edits.go:57-82 | header, hunk line and plus rows of one change |
| `NativeEdits.PrintChanges` | internal/agent/native_edits.go:43-87 | the printer loop produces the patch text of the changes that differ, says that nothing changed, or refuses an unrepresentable file name |
| `NativeRoundTrip.PrintedParses` | internal/agent/native_edits.go:47-87 | the printed patch parses into one section per change, or is refused when a change prints an empty PUT |
| `NativeRoundTrip.PrintedPrepares` | internal/agent/native_edits.go:47-98 | preparing the parsed sections yields, file by file, the normalized new text |
| `NativeRoundTrip.PrintedPatchRoundTrip` | internal/agent/native_edits.go:43-98 | printing, parsing, resolving and applying: accepted if and only if normalization hides none of the changes, and then every file holds its normalized new text and every other file is as it was |
| `NativeChanges.NativeChangesRoundTrip` | internal/agent/native_edits.go:43-98 | changes to distinct files are refused unprinted exactly when a file that changes has a name a patch cannot hold; otherwise the printed patch is accepted exactly when normalization hides no difference, and then every changed file holds its normalized new text and nothing else changes |
| `NativeChanges.HiddenPrintsEmptyPut` | internal/agent/native_edits.go:57-82 | a change that normalization hides is printed as a PUT with no row |
| `NativeChanges.LineEndChangeRefused` | internal/agent/native_edits.go:43-98 | an instance: turning a carriage return and newline into a newline prints such a PUT, and the driver refuses the patch |
| `Replace.HeaderAndCount` | internal/agent/replace.go:107-121 | header and line count of a numbered view |
| `Replace.SourceText` | internal/agent/replace.go:123-135 | the text of a numbered view, line numbers stripped |
| `Replace.ViewStrips` | internal/agent/coding_core.go:366-389 | stripping the numbered view of a file recovers its header, its line count and exactly its text |
| `Replace.AcceptedExactly` | internal/agent/replace.go:153-169 | an old text is accepted exactly when all its occurrences lie within one needle's length of the first |
| `Replace.OnceIsAccepted` | internal/agent/replace.go:153-169 | a text that occurs exactly once is accepted, and that occurrence is replaced |
| `Replace.OverlapAccepted` | internal/agent/replace.go:153-169 | two overlapping occurrences are accepted although the text does not occur exactly once |
| `Replace.ApplyUniqueReplaces` | internal/agent/replace.go:153-169 | edits are applied in order, each to the outcome of the one before, stopping at the first that is empty, missing or not unique |
| `Replace.OverwritePatch` | internal/agent/replace.go:137-151 | the overwrite patch: one PUT over the whole file |
| `Replace.OverwriteRoundTrip` | internal/agent/replace.go:137-151 | the overwrite patch of a text without carriage returns is refused exactly when the text is unchanged, and otherwise leaves the file with exactly that text and every other file alone |
| `Replace.PrintReplacement` | internal/agent/replace.go:61-101 | the replace driver, which sees the file only through its numbered view, prints the overwrite patch of the ordered replacements applied to the text on disk |
| `ReplaceLineEnds.OverwriteReadExactly` | internal/agent/replace.go:137-151 | the printed patch reads back as one PUT of the new text's rows, without the carriage returns at their ends, exactly when no carriage return stands inside a row |
| `ReplaceLineEnds.TameOverwrites` | internal/agent/replace.go:137-151 | such a new text leaves the file with exactly those rows, and nothing else changes; it is refused exactly when the file already holds them |
| `ReplaceLineEnds.EditsReachFile` | internal/agent/replace.go:61-101 | from edits to file: the file becomes the result of the edits in order, as it is when no new text has a carriage return |
| `ReplaceLineEnds.ReplaceInFile` | internal/agent/replace.go:61-101 | the tool as a whole: its refusals exactly, and after a commit the file holds the result of the edits |
| `ReplaceLineEnds.LoneCrReadAsHunk` | internal/agent/replace.go:137-151 | an instance: after a carriage return inside a row the rest of the row is read as a hunk, here one that moves the file |
| `Trie.InsertFound` | internal/agent/asar.go:196-214 | inserting a file makes it reachable at its path and changes nothing else |
| `Trie.InsertBlocked` | internal/agent/asar.go:198-213 | an insertion fails only if its path extends, or is extended by, a path already there |
| `Trie.InsertFree` | internal/agent/asar.go:198-213 | an insertion that succeeds met no such path |
| `Placement.PlacedExactly` | internal/agent/asar.go:189-219 | files are laid out exactly when all names are proper, none lies inside another and the sizes fit |
| `Placement.PlacedLeaf` | internal/agent/asar.go:213-219 | every file's node carries its size and the sum of the sizes before it as offset |
| `Placement.PlacedLeafOnly` | internal/agent/asar.go:189-219 | the header tree holds no other file |
| `Placement.LayOut` | internal/agent/asar.go:184-219 | the encoder's loop over the sorted paths |
| `AsarRead.WalkDenotes` | internal/agent/asar.go:106-180 | the recursive walk accepts a header exactly when its names, nodes and ranges are well formed and the files it denotes keep to the entry and size limits; then it returns exactly those files |
| `AsarRead.WalkExact` | internal/agent/asar.go:143-150 | the running count and total are the number and the size of the entries read |
| `AsarRead.WalkAdds` | internal/agent/asar.go:110-176 | what the walk over the first names of a directory adds, member by member |
| `AsarRead.FetchedExactly` | internal/agent/asar.go:137-170 | a file node is readable exactly when it is no link and its size matches the sidecar's bytes, or its offset parses and the range lies inside the data |
| `AsarCodec.NormalFixed` | internal/agent/write.go:465-485 | a member name is its own normal form exactly when it is trimmed and has no empty, dot or dot-dot part |
| `AsarNames.NormalLaw` | internal/agent/write.go:465-486 | a member name is refused exactly when, trimmed, it begins or ends with a slash, goes up a directory or names no file; otherwise its empty and dot parts are left out |
| `AsarNames.NormalTwice` | internal/agent/write.go:465-486 | a normalized name is normal exactly when it has no white space at its ends |
| `AsarCodec.UnframeFramed` | internal/agent/asar.go:84-104 | the aligned length-prefixed header reads back as the header text and the data behind it, exactly when its total size is within the limit |
| `AsarCodec.UnframedExactly` | internal/agent/asar.go:75-102 | the reader's header checks accept exactly the framed files, whatever their padding holds |
| `AsarCodec.EncodeExactly` | internal/agent/asar.go:183-226 | the encoder accepts exactly the maps with proper names, no member inside another, payloads within the limit and a header text within the limit |
| `AsarCodec.ConcatAt` | internal/agent/asar.go:213-249 | payload regions are contiguous and disjoint, and each holds its member's bytes |
| `AsarCodec.EncodeRoundTrip` | internal/agent/asar.go:75-255 | reading an encoded archive returns exactly the encoded map if the map is not empty, has at most 10000 entries, no backslash or NUL in a name, no name of more than 4999 parts and a total header within the limit; otherwise the archive is refused |
| `AsarCodec.RewriteRoundTrip` | internal/agent/asar.go:49-73 | a rewritten archive reads back as the old map with only the target changed, exactly when the target has no backslash or NUL and at most 4999 parts, the entries are at most 10000 and the header is within the limit |
| `AsarCodec.BackslashRefused` | internal/agent/asar.go:49-255 | an instance: a member whose name holds a backslash is written, and the archive is refused by the reader |
| `AsarCodec.DeepRefused` | internal/agent/asar.go:49-255 | an instance: a member of 5000 parts is written, and the archive is refused by the reader |
| `AsarCodec.HeaderNests` | internal/agent/asar.go:184-222 | the header can be read as JSON exactly when no member has more than 4999 parts |
| `AsarCodec.ReadShallow` | internal/agent/asar.go:102-105 | whatever is read has members of at most 4999 parts |
| `AsarCodec.ReadClean` | internal/agent/asar.go:116-119 | whatever is read has no name with a backslash or NUL |
| `AsarNames.ReadParts` | internal/agent/asar.go:116-119 | no part of a name that is read is empty, a dot or two dots |
| `AsarCodec.Reader.Walk` | internal/agent/asar.go:110-176 | the walk as it updates entries, count and total in place |
| `AsarCodec.Reader.Visit` | internal/agent/asar.go:116-174 | one node: a directory is walked, a file fetched and counted, anything else refused |
| `AsarCodec.ReadArchive` | internal/agent/asar.go:75-181 | header checks, then the walk |
| `AsarCodec.EncodeArchive` | internal/agent/asar.go:183-255 | build the header, then write prefix, header, padding and payloads in turn |
| `AsarCodec.WriteHeader` | internal/agent/asar.go:227-245 | the four words, the header text and its padding |
| `AsarCodec.RewriteArchive` | internal/agent/asar.go:49-73 | read, replace one entry, encode |
| `Approvals.ReadyOnlyWhenApproved` | internal/agent/service.go:1518-1597 | in every history, a call that needs approval becomes ready only after a recorded approval of its scope fingerprint, for its own run and operation unless a session grant covers the fingerprint |
| `Approvals.StepKeeps` | internal/agent/service.go:1518-1730 | every step of prepare, resolve, recovered resolve, execute and restart keeps: grants, one-time approvals, recovered notes and decisions in flight are backed by approved records; records are never lost or altered once decided |
| `Approvals.HistoryGrows` | internal/agent/service_runtime.go:641-813 | whatever happens later, records keep their identity and decided ones their state |
| `Approvals.OneRecord` | internal/agent/service_runtime.go:594-614 | at most one record per execution and operation |
| `Approvals.DecidedOnce` | internal/agent/service_runtime.go:742-812 | the journal decides an approval at most once, exactly when its record is decided, and as the record says |
| `Approvals.DecidedForever` | internal/agent/service_runtime.go:742-761 | a decision never changes |
| `Approvals.TokenPendingExactly` | internal/agent/service_runtime.go:641-813 | until its expiry passes, the resume token is pending exactly while the approval is |
| `Approvals.TokenPendingHistory` | internal/agent/service_runtime.go:742-812 | in every history a token is pending exactly while its approval is, or when the approval was decided after its expiry |
| `Approvals.TokenAfterDecision` | internal/store/sqlite/stores_core.go:508-526 | a decision consumes its token exactly when the token has not expired at the listing |
| `Approvals.LateDecisionLeavesToken` | internal/agent/service_runtime.go:742-789 | a history in which an expired approval is decided and its token stays pending |
| `Approvals.DecisionRecalled` | internal/agent/service.go:1450-1482 | after any further history, restarts included, the durable lookup for the same operation answers with the decision |
| `Approvals.GrantedBecomesReady` | internal/agent/service.go:1622-1650 | a waiting call becomes ready once its approval is granted, once or for the session |
| `Approvals.DecideRecords` | internal/agent/service_runtime.go:742-812 | deciding keeps every record tied to its token and its identity |
| `ApprovalAnswers.GuardedWaits` | internal/agent/service.go:1541-1558 | a call that writes, reaches outside, or whose policy asks for approval or an action task is not ready at once without a grant, a one-time approval or an approving note, unless its policy allows it; an allowed one still waits for the network prompt |
| `ApprovalAnswers.HarmlessReady` | internal/agent/service.go:1541-1558 | every other call is ready at once |
| `ApprovalAnswers.GuardedOnlyWhenApproved` | internal/agent/service.go:1518-1597 | in every history such a guarded call becomes ready only after a recorded approval of its scope |
| `ApprovalAnswers.RecoveredTaken` | internal/agent/service.go:1652-1690 | a recovered decision is taken exactly when its word is one of the eight, the record is open with operation and scope and the token named serves; otherwise nothing changes |
| `ApprovalAnswers.DenialRefuses` | internal/agent/service.go:1652-1697 | each of the four denial words leaves the record rejected, makes the next look at the operation refused, and is then used up |
| `ApprovalAnswers.ApprovalReadiesOnce` | internal/agent/service.go:1652-1697 | each of the three approval words leaves the record approved and makes exactly the next look at the operation ready |
| `ApprovalAnswers.SessionGrants` | internal/agent/service.go:1652-1697 | the word for the session leaves the record approved and its scope granted from then on |
| `ApprovalAnswers.LiveDenialRefuses` | internal/agent/service.go:1622-1650 | a denial on a live run leaves the record rejected and the call off the waiting list, and the next look at it is refused by the store |
| `ApprovalAnswers.OnceUsedUp` | internal/agent/service.go:1600-1611 | a one-time approval is good for one execution, and others stand |
| `ApprovalAnswers.RestartForgets` | internal/agent/service.go:384-384 | a restart forgets grants, one-time approvals and notes, and keeps the store |
| `ApprovalAnswers.PendingFound` | internal/agent/service_runtime.go:627-639 | a pending record in the store is waited for until it expires; after that the call fails |
| `ApprovalAnswers.OtherRecordFails` | internal/agent/service_runtime.go:614-626 | a record of another run, task or scope under the identity fails the call |
| `ApprovalAnswers.RequestMakes` | internal/agent/service_runtime.go:641-724 | a request with nothing in its way makes one pending record of the call, open for a day, with its token |
| `ApprovalAnswers.IdentityTells` | internal/agent/service_runtime.go:594-605 | where executions hold no NUL the identity tells execution and operation apart, up to white space around them |
| `ApprovalService.Service.PrepareDriver` | internal/agent/service.go:1518-1597 | look, load, request: a call that needs approval is ready only under a recorded approval of its scope, for its run and operation or by a session grant; it waits only for a record of its own; no record is lost, decided or altered |
| `ApprovalService.Service.PrepareLook` | internal/agent/service.go:1541-1558 | ready only under a recorded approval, waiting only for a record of the call; at most the one note for this operation is used up and nothing durable changes |
| `ApprovalService.Service.PrepareLoad` | internal/agent/service.go:1559-1583 | ready only after a recorded approval and refused only after a recorded rejection of this run, operation and scope; waiting only for a record that can still be decided |
| `ApprovalService.Service.PrepareRequest` | internal/agent/service_runtime.go:641-724 | decides nothing and loses no record; it waits for a record and token that are pending and unexpired, the only ones it may have added, or fails and changes nothing |
| `ApprovalService.Service.DecideApproval` | internal/agent/service_runtime.go:742-812 | one unit of work: status, tokens and journal, or nothing; a decided record is never altered, and its token stays pending exactly when it had expired |
| `ApprovalService.Service.ConsumeTokens` | internal/agent/service_runtime.go:770-789 | the loop over the listed tokens consumes exactly those of the approval |
| `ApprovalService.Service.ResolveApproval` | internal/agent/service.go:1622-1650 | the decision is recorded before it takes effect, and an approval makes the next look at the operation ready |
| `ApprovalService.Service.ResolveRecovered` | internal/agent/service.go:1652-1697 | the recovered decision is recorded before it is granted or noted, as the word says; records only grow |
| `ApprovalService.Service.ConsumeRecovered` | internal/agent/service.go:1717-1730 | a recovered decision is handed out once, only for its fingerprint, and an approving one only after a recorded approval |
| `ApprovalService.Service.StoreRecovered` | internal/agent/service.go:1706-1715 | the note is what the next lookup for its run and operation finds, no other note changes, and memory stays backed when an approved record stands behind it |
| `ApprovalService.Service.ExecutePrepared` | internal/agent/service.go:1600-1611 | executing uses up a one-time approval |
| `ApprovalService.Service.GrantSession` | internal/agent/policy.go:39-46 | every later call of the scope is ready in any run, calls of other scopes are answered as before, and memory stays backed when an approved record stands behind the grant |
| `Bindings.CancelledForever` | internal/agent/service.go:1021-1131 | over every interleaving of start, seal, finish, release and cancel steps a cancelled binding stays cancelled |
| `Bindings.RevivedExactly` | internal/agent/service.go:1180-1202 | a cancelled binding is left exactly by a reconciliation that had read its current version |
| `Bindings.ReconciliationRevives` | internal/agent/service.go:1180-1202 | a history in which a reconciliation revives a cancelled binding |
| `Bindings.StepKeeps` | internal/agent/service_runtime.go:223-243 | every step keeps snapshots honest: a snapshot with the current version is the current binding |
| `Bindings.HistoryEvolves` | internal/agent/service_runtime.go:348-383 | versions only grow, one version has one value, and a sealed or started profile never changes |
| `Bindings.StaleWritesNothing` | internal/store/sqlite/execution_bindings.go:20-67 | of all callers that read one version at most one writes |
| `Bindings.ConflictNeedsThreeWrites` | internal/agent/service_runtime.go:223-243 | a finish reports a conflict only after three other writes to its binding |
| `Bindings.SettledMeans` | internal/agent/service_runtime.go:223-243 | a finish that reports success leaves the binding in the phase aimed for, or cancelled |
| `Bindings.EndsExactly` | internal/agent/service.go:1064-1131 | whatever happens between the end of an execution and the report that it was recorded, the binding is then cancelled, or: suspended after a suspension or another runtime error; in need of reconciliation after a reconciliation error, a failed release of claims or a failed completion; failed or completed, by the result, otherwise |
| `Bindings.TakenUp` | internal/agent/service.go:940-969 | a binding is taken up for execution exactly when it is sealed and neither cancelled nor in need of reconciliation; a completed or failed one is replayed |
| `Bindings.ClaimRuns` | internal/agent/service.go:1021-1028 | a claim from a current snapshot leaves the binding running, and from a stale one writes nothing |
| `Bindings.SealFixes` | internal/agent/service_runtime.go:348-383 | sealing from a current snapshot fixes the profile and keeps the phase |
| `Bindings.SealBegins` | internal/agent/service_runtime.go:348-383 | only a pending, unsealed binding can be sealed |
| `Bindings.OnlySealSeals` | internal/agent/service_runtime.go:348-383 | no other step seals a binding or gives it another profile |
| `Bindings.FinishReaches` | internal/agent/service_runtime.go:223-243 | a finish that nobody disturbs leaves the binding in the phase aimed for, or cancelled |
| `Bindings.CancelReaches` | internal/agent/service.go:1939-1996 | a cancellation that nobody disturbs cancels every binding that has not ended |
| `Bindings.Provider.SaveBinding` | internal/store/sqlite/execution_bindings.go:20-110 | a save made from a snapshot succeeds exactly when the binding is still that snapshot; it is then the only save from that version that can ever succeed, and touches no other binding |
| `Bindings.Provider.FinishBinding` | internal/agent/service_runtime.go:223-243 | the retry loop against rivals that write between its load and its save |
| `Blobs.CommittedRowsDecode` | internal/agent/subagents.go:106-164 | over every interleaving of writers, with failures and crashes at any point, every committed row decodes to exactly the run it was written for |
| `Blobs.ReferencedSurvives` | internal/agent/subagents.go:287-349 | no step, a failed writer's cleanup included, deletes a blob a committed row refers to |
| `Blobs.SweptClean` | internal/agent/subagents.go:303-325 | a cleanup without errors leaves none of the failed writer's blobs unless a row refers to it |
| `Blobs.CleanupDeletes` | internal/agent/subagents.go:303-325 | a failed writer whose cleanup nothing disturbs deletes exactly those of its blobs that no row refers to, and leaves rows and all other blobs alone |
| `Blobs.AmbiguousCommit` | internal/agent/subagents.go:106-164 | a commit that takes effect and still reports an error leaves its row and all the blobs it refers to, and its writer goes on to clean up |
| `Blobs.CheckOk` | internal/agent/subagents.go:294-301 | the check before a commit finds every created blob referenced and deletes nothing |
| `Blobs.OneHolder` | internal/agent/subagents.go:119-123 | at most one writer is past its write lock |
| `Blobs.SpilledDecodes` | internal/agent/subagents.go:257-285 | what was spilled loads back |
| `Blobs.CommittedRowsSized` | internal/agent/subagents.go:257-285 | whatever the interleaving, no committed row holds a payload of more than 4096 bytes or an empty transcript |
| `Blobs.CommitSaves` | internal/agent/subagents.go:106-164 | a commit saves the run its writer was opened with, two brackets standing for an empty transcript |
| `Blobs.InsertRefused` | internal/agent/subagents.go:106-164 | a new run is not written over an existing one, and an update makes none |
| `Blobs.StepOk` | internal/agent/subagents.go:106-349 | every step keeps rows resolvable, the lock exclusive and an encoded row's blobs present |
| `SubagentStore.Store.Write` | internal/agent/subagents.go:106-164 | a write that succeeds stores a row that decodes to the run; one that fails leaves the rows alone, never loses a blob that was there and, when installs and cleanup work, leaves the blobs as they were |
| `SubagentStore.Store.EncodeRun` | internal/agent/subagents.go:216-233 | both payloads are spilled; exactly the new digests are reported as created |
| `SubagentStore.Store.SpillPayload` | internal/agent/subagents.go:257-285 | a long payload is installed unless it is there |
| `SubagentStore.Store.SweepAll` | internal/agent/subagents.go:303-325 | the loop over the created digests deletes exactly those no row refers to |
| `SubagentStore.Store.SweepOne` | internal/agent/subagents.go:327-349 | a blob is deleted only while no row refers to it |
| `TeamRun.RunInRounds` | internal/agent/scheduler.go:32-84 | every run dispatches a prefix of planner, implementer, reviewer, reporter, or of the two-round sequence exactly when the first verdict is not the word accept, up to case and white space; at most six tasks, none after a failure, revision_limit_reached exactly when the second verdict is not an acceptance, and each task handed over by the instance before it |
| `TeamRun.RunCompletes` | internal/agent/scheduler.go:32-84 | a run without failures goes through all its rounds |
| `TeamRun.NextFollows` | internal/agent/scheduler.go:32-84 | on facts that follow the plan the scheduler answers with the planned dispatch and input |
| `Team.AcceptsExactly` | internal/agent/scheduler.go:204-214 | a report accepts exactly when its verdict is the word accept, up to case and the white space around it |
| `TeamRun.DispatchNew` | internal/agent/scheduler.go:95-100 | a new dispatch has a new task and a new instance identity |
| `Team.TaskIdInjective` | internal/agent/scheduler.go:95-99 | task identities of one run tell class and attempt apart |
| `Team.InstanceIdInjective` | internal/agentruntime/team.go:136-143 | instances made at different counts differ |
| `Team.FoldComposes` | internal/agent/team_runtime.go:532-574 | folding a prefix of the outcomes and then all of them equals folding all; in particular the fold is idempotent |
| `Team.ScheduleFromSnapshot` | internal/agent/team_runtime.go:238-256 | scheduling from any persisted snapshot gives the same dispatch, task and instance identity as an uninterrupted run |
| `TeamRun.FoldTeam` | internal/agent/team_runtime.go:532-574 | the fold with its sets of known identities |
| `TeamRun.DriveTeam` | internal/agent/team_runtime.go:162-231 | however it ends, by completion, at the tick limit, or by an error of the drive or of saving, the state and the saved state are those of an uninterrupted run after some ticks, the saved one at most one behind; completion means nothing is left to dispatch |
| `TeamRun.ScheduleNext` | internal/agent/scheduler.go:32-84 | the scheduler as it reads the snapshot makes the choice the theorems are about |
| `TeamRun.DispatchTo` | internal/agent/scheduler.go:86-100 | attempt, task and instance are numbered from the snapshot |
| `TeamRun.AnyActiveOrFailed` | internal/agent/scheduler.go:165-173 | true exactly when some instance is pending, running or failed |
| `TeamRun.FinishedForClass` | internal/agent/scheduler.go:175-183 | the finished instances of a class, in order |
| `TeamRun.ClassAttemptCount` | internal/agent/scheduler.go:185-193 | the instances of a class, counted |
| `TeamRun.ReportForTask` | internal/agent/scheduler.go:195-202 | the last task with the identity |
| `Registry.ActiveIsLive` | internal/adapterdeployment/registry.go:153-245 | in every reachable registry an active entry is a registered, valid artifact for that key that was never killed |
| `Registry.KilledForever` | internal/adapterdeployment/registry.go:190-201 | a killed artifact stays killed, whatever is deployed later |
| `Registry.RollbacksEnd` | internal/adapterdeployment/registry.go:184-189 | rollback links are well-founded: they reach the base route within the number of registered artifacts |
| `Registry.KillsReachBase` | internal/adapterdeployment/registry.go:222-245 | killing the active artifact over and over reaches the base route within as many kills as there are live artifacts for it |
| `Registry.KillFallsBack` | internal/adapterdeployment/registry.go:222-245 | in every history killing the active artifact of a key makes its rollback target active when that is not the base and not killed, and none otherwise; every other key is as it was |
| `Registry.DeployExactly` | internal/adapterdeployment/registry.go:153-202 | in every history a valid artifact is deployed exactly when its grant names its base route, is trusted and served, its rollback is the base or a registered live artifact of the same key, and nothing else is registered under its identity |
| `Registry.ContentForever` | internal/adapterdeployment/registry.go:190-196 | what is registered under an identity never changes |
| `Registry.ResolveExact` | internal/adapterdeployment/registry.go:204-220 | for a route without NUL characters, whatever was deployed before, resolving finds an artifact exactly when one is active; it is then deployed for exactly that route, live, of its content's identity, and changes only the model |
| `Registry.ServedWell` | internal/adapterdeployment/registry.go:204-220 | what is asked and what is served are never blank nor padded, and the adapter is named by 64 hexadecimal digits |
| `Registry.KeyExact` | internal/adapterdeployment/registry.go:254-256 | a route without NUL characters shares its key with no other route |
| `Registry.KeyUnique` | internal/adapterdeployment/registry.go:254-256 | a key belongs to one route exactly when that route has no NUL character in any field |
| `Registry.TwinOf` | internal/adapterdeployment/registry.go:254-256 | a route with a NUL character in any field shares its key with a different route |
| `Registry.SharedKeyAnswers` | internal/adapterdeployment/registry.go:204-220 | whenever two routes share a key an artifact deployed for one answers for the other |
| `Registry.NulRoutesCollide` | internal/adapterdeployment/registry.go:254-256 | an instance: an artifact for one route answers for another whose NUL is in the reasoning |
| `Registry.Registry.Deploy` | internal/adapterdeployment/registry.go:153-202 | deploys exactly when valid, granted and deployable; a refusal changes nothing |
| `Registry.Registry.Kill` | internal/adapterdeployment/registry.go:222-245 | kills for good; where the artifact was active, its rollback target is active afterwards unless it is the base or killed, and then none is; no other key is touched |
| `Registry.Registry.Resolve` | internal/adapterdeployment/registry.go:204-220 | the serving route of the active artifact, or the route as it was |
| `Positions.AcceptedExactly` | internal/agent/native_lsp.go:334-366 | a position is accepted exactly when it is the UTF-16 length of a prefix of an existing line without carriage return; the result is the byte offset of that prefix's end |
| `Positions.InvertsExactly` | internal/agent/native_lsp.go:296-322 | the byte offset inverts the native position exactly at the columns before which the row has no carriage return, and refuses the others |
| `Positions.NativeAccepted` | internal/agent/native_lsp.go:296-319 | a column is accepted exactly from 0, which stands for 1, to one past the row without the carriage return at its end |
| `Positions.SymbolInverts` | internal/agent/native_lsp.go:306-312 | the offset of a symbol's position is the offset of the symbol |
| `Positions.ColumnExactly` | internal/agent/native_lsp.go:306-312 | a symbol is found exactly where every occurrence of it on the row begins within that one |
| `Unicode.Utf8RoundTrip` | internal/agent/native_lsp.go:346-364 | the bytes counted are those of UTF-8, which reads back |
| `Unicode.Utf16RoundTrip` | internal/agent/native_lsp.go:319-319 | the units counted are those of UTF-16, which reads back |
| `Positions.StrictlyIncreasing` | internal/agent/native_lsp.go:334-366 | offsets increase strictly in line and character |
| `Positions.LineFound` | internal/agent/native_lsp.go:338-345 | line n is found exactly when there is one, and holds the n-th part of the split text |
| `Positions.LspByteOffset` | internal/agent/native_lsp.go:334-366 | the two loops compute the byte offset |
| `Positions.FindLine` | internal/agent/native_lsp.go:338-345 | one newline per line |
| `Positions.ScanColumn` | internal/agent/native_lsp.go:346-364 | the scalars of one line, counting UTF-16 units and bytes |
| `Splices.SweepLaw` | internal/agent/native_edits.go:183-197 | a batch is accepted exactly when its ranges are in order and disjoint and the output keeps to the limit; it equals the edits applied one by one from the last start to the first, and its length is the original plus inserted minus removed bytes |
| `Splices.TextEditsLaw` | internal/agent/native_edits.go:159-198 | language-server edits are accepted exactly when they are at most 10000, both ends of each have byte offsets in order, and their stable sort by start is admissible; the result is then these byte ranges replaced by the new texts one by one from the last start to the first, ties in list order, with the length law |
| `Splices.OneTextEdit` | internal/agent/native_edits.go:159-198 | one edit leaves the text before its start, its new text and the text from its end on |
| `Splices.TextEditsRefused` | internal/agent/native_edits.go:159-198 | an edit without both offsets, or with its end before its start, refuses the batch |
| `Sorting.StableUnique` | internal/agent/native_edits.go:182-182 | there is one stable sort by start |
| `Sorting.SortKeepsTies` | internal/agent/native_edits.go:182-182 | ties keep the order of the list |
| `Sorting.SortAscending` | internal/agent/native_edits.go:182-182 | the stable sort permutes and orders by start |
| `Splices.ReplacementsLaw` | internal/agent/native_ast.go:177-219 | with distinct starts there is one sort; acceptance, result and length obey the same law |
| `Splices.TiesExactly` | internal/agent/native_ast.go:203-218 | when some sort is accepted, the result does not depend on the sort exactly when any two replacements with one start are insertions whose texts commute |
| `Splices.SortsAgree` | internal/agent/native_ast.go:203-218 | when all ties are of that kind every sort gives the same result or the same refusal |
| `Splices.TiesAreAmbiguous` | internal/agent/native_ast.go:203-203 | two insertions at one place come out in either order |
| `Splices.TieDecidesAcceptance` | internal/agent/native_ast.go:203-208 | an insertion tied with a replacement is accepted in one order and refused in the other |
| `Splices.ApplyLspTextEdits` | internal/agent/native_edits.go:159-198 | resolve, sort, splice |
| `Splices.SpliceAll` | internal/agent/native_edits.go:183-197 | the loop with a growing output and a moving offset |
| `Shell.NoLostWakeup` | internal/agent/shell.go:151-210 | in every interleaving, whoever releases, every parked caller has been woken whenever the runtime is closing or its count is below the limit; nobody is counted who holds no slot |
| `Shell.CountExactly` | internal/agent/shell.go:158-189 | the count is the number of holders throughout a history exactly when every release in it is by a holder or finds nothing running |
| `Shell.CountBounded` | internal/agent/shell.go:158-200 | in every history no more slots are counted than the greatest limit there has been |
| `Shell.AcquireExactly` | internal/agent/shell.go:158-180 | a caller is turned away while closing, gets a slot below the limit and parks otherwise |
| `Shell.ShellRuntime.TryAcquire` | internal/agent/shell.go:158-180 | one turn of acquire: shut down, a slot, or parked on the channel read in the same critical section |
| `Shell.ShellRuntime.ReleaseSlot` | internal/agent/shell.go:182-189 | every parked caller can go on, whoever releases; a count that is the number of holders stays so exactly when a holder releases or nothing is running |
| `Shell.ShellRuntime.UpdateMaxConcurrency` | internal/agent/shell.go:191-200 | the limit changes and every parked caller can go on |
| `Shell.ShellRuntime.Shutdown` | internal/agent/shell.go:151-156 | closing wakes every parked caller |
| `Jobs.NoLostWakeup` | internal/agent/jobs.go:116-150 | in every interleaving a waiter whose channel is open waits for some jobs, and all of them are running |
| `Jobs.SettlesOnce` | internal/agent/jobs.go:72-93 | in every history each started job that is not running has settled, keeps the status it settled with, and shows it as long as it is listed |
| `Jobs.EndSettles` | internal/agent/jobs.go:72-93 | a running job that was told to stop settles as cancelled, another as failed when it ends in an error or an error result, and as completed otherwise |
| `Jobs.ShutdownCancels` | internal/agent/jobs.go:178-194 | whatever happens after a shutdown, a job that was running then has been told to stop, and once it has settled it is cancelled |
| `Jobs.CancelSettles` | internal/agent/jobs.go:152-176 | a cancellation settles exactly the named running jobs of the owner as cancelled |
| `Jobs.LookFinds` | internal/agent/jobs.go:116-150 | a look finds the jobs asked for, of the owner asked for, that have not settled more than five minutes ago |
| `Jobs.JobManager.Start` | internal/agent/jobs.go:51-71 | a new running job unless the manager is closed |
| `Jobs.JobManager.Finish` | internal/agent/jobs.go:72-93 | a job settles when its goroutine ends unless it has settled already |
| `Jobs.JobManager.Poll` | internal/agent/jobs.go:116-150 | one turn of wait: what was selected, or parked when all of it is running |
| `Jobs.JobManager.CancelJobs` | internal/agent/jobs.go:152-176 | the running jobs among the named ones of the owner settle as cancelled, and earlier settlements stand |
| `Jobs.CancelFirstAt` | internal/agent/jobs.go:152-176 | cancelling touches exactly the named, running jobs of the owner |
| `Jobs.JobManager.Shutdown` | internal/agent/jobs.go:178-194 | running jobs are told to stop and waiters are woken |
| `Jobs.JobManager.Prune` | internal/agent/jobs.go:232-238 | pruning drops settled jobs past retention and disturbs no parked waiter |
| `Jobs.PrunedRunning` | internal/agent/jobs.go:232-238 | pruning leaves a selection of running jobs as it was |
| `PromptReplies.AnsweredOnce` | internal/acp/server.go:296-330 | in every interleaving a prompt is answered at most once |
| `PromptReplies.AnswersTell` | internal/acp/server.go:296-330 | in every interleaving an answer says cancelled exactly when the run was cancelled, end of turn when it finished or failed, and refused only when the prompt was never registered |
| `PromptReplies.AnsweredWhenEnded` | internal/acp/server.go:603-615 | in every interleaving a registered prompt with an id whose run has ended, and whose session was neither closed nor resumed since, has been answered; until it is, its record waits for its run |
| `PromptReplies.NotificationFate` | internal/acp/server.go:320-330 | whatever happens after its registration, a prompt without an id is answered, with a null id, exactly when its run had ended by then; otherwise it never is, and its record is never free for another prompt |
| `PromptReplies.NotificationLeavesBusy` | internal/acp/server.go:320-330 | an instance: the run ends after the registration, the prompt stays unanswered and its session busy |
| `PromptReplies.NotificationAnswered` | internal/acp/server.go:320-327 | an instance: the run ends before the registration and the prompt is answered with a null id |
| `PromptReplies.PromptStands` | internal/acp/server.go:328-330 | a prompt stays as it was registered, whatever happens later |
| `PromptReplies.EndIsKept` | internal/acp/server.go:320-327 | in every interleaving a prompt in hand is not answered yet, and an end of its run is kept for it |
| `PromptReplies.StepKeeps` | internal/acp/server.go:296-330 | every critical section keeps records, prompts and answers consistent, whichever session an event names |
| `PromptReplies.Server.Check` | internal/acp/server.go:305-316 | the first critical section: refusals are answered, otherwise the prompt is in hand |
| `PromptReplies.Server.RegisterRun` | internal/acp/server.go:320-330 | the second critical section: the prompt is answered here exactly when its run has ended, otherwise the record waits for the run |
| `PromptReplies.Server.CompleteRun` | internal/acp/server.go:603-615 | any terminal event: the waiting prompt is answered and its session freed, or the end is kept |
| `PromptReplies.ReplyKeeps` | internal/acp/server.go:603-615 | answering keeps the books of prompts, records and answers consistent |
| `PromptReplies.RegisterEarlyKeeps` | internal/acp/server.go:320-327 | so does registering after the end |
| `PromptReplies.RegisterLateKeeps` | internal/acp/server.go:328-330 | and registering before it |

## Left out

- Write and chmod errors on temporary files: the code shadows them (`internal/agent/hashline_edit.go:632-634`), so staging is taken to succeed once the file is created; failures are modelled at create, rename and remove.
- HashlineCommit.Root.CommitPatch: when the rollback itself reports an error it claims nothing of the paths the patch names, and it treats directories, symbolic links and file modes beyond a stored value as given.
- Block locators: the Go, Markdown, indentation and brace block finders are a parameter that returns a range starting at the line and inside the file; so are path resolution, quoted MV destinations and the tag function.
- The edit result's diff and context lines, the model-facing error texts, and the clipboards of other scopes than the one in use.
- Replace.PrintReplacement: starts from a file the read tool can show without truncation; whether it can is a parameter of ReplaceLineEnds.ReplaceInFile, and the read window and its byte limits are not modelled.
- Replace.OverwriteRoundTrip: is about a new text without carriage returns; ReplaceLineEnds.TameOverwrites covers carriage returns at line ends, and ReplaceLineEnds.OverwriteReadExactly says that with any other the patch is no longer the one intended.
- ASAR: symbolic links of the archive path, file modes and the sync of the output; the header tree is grown as a value where the code mutates nodes, so aliasing between nodes is not captured. Error values are not told apart.
- Approvals.ReadyOnlyWhenApproved: takes the recovered record as it is in the store, as its callers pass it; run and task status, edit recovery and the wording of requests are not modelled.
- Bindings: the run record beside the binding, resource claims and the durable runtime behind ExecuteRun; Completed is not claimed to be terminal. Store errors other than conflicts end the caller without effect.
- Bindings.CancelledForever: excludes the unguarded write of RequireRunReconciliation, for which Bindings.RevivedExactly gives the exact condition.
- Blobs: tables other than the rows themselves are folded into one set of rows; payload encoding beyond the inline limit is not modelled. Transactions roll back as a whole.
- Team: the durable orchestration call is one tick that runs the dispatches it is given, and its errors are faults given from outside; budgets, retry policies, schemas and a class missing from the configuration are not modelled.
- Registry: the digest patterns, lineage and held-out report checks of an artifact are one predicate of its content.
- Positions: text that is not valid UTF-8.
- Shell and jobs: contexts, timeouts and the processes behind a slot or a job; a caller that gives up simply leaves its channel.
- PromptReplies: session updates, permissions and elicitations. A run counts as ended when an event for it names its own session; PromptReplies.AnsweredWhenEnded says nothing of a run whose only event names another.
- Venat SDK, SQLite, blob store and language-server internals; shell, browser, debugger, media, GitHub and web drivers; CLI, configuration, evaluation and contract generation.
