# Verified model of the coding agent's core

This project models the algorithmic core of an autonomous coding agent (the Go packages under `core/`) in Dafny and
proves what that core is relied on for. `dafny verify dfyconfig.toml` checks everything.

| file | what it models |
|---|---|
| `Text.dfy`, `Counting.dfy` | prefixes, trimming, splitting and joining, with their laws |
| `Lcs.dfy` | the rolling two-row dynamic program behind fuzzy matching |
| `EditLines.dfy`, `EditIndent.dfy`, `EditReplace.dfy` | the tiered SEARCH/REPLACE engine and its re-indentation |
| `EditAgreement.dfy` | when Find and Replace select the same window |
| `EditParser.dfy`, `EditNames.dfy` | the SEARCH/REPLACE block parser; what it takes for markers and file names |
| `PatchTypes.dfy`, `PatchSeek.dfy`, `PatchApply.dfy` | the three-tier seeker and the in-order splice loop |
| `PatchLocate.dfy` | where one chunk acts, by what stands in the lines |
| `PatchInStep.dfy` | exactly when the splice loop equals its two-phase reading |
| `PatchParser.dfy` | the patch parser, with a printer as its partner |
| `PatchGrammar.dfy` | every layout the patch language allows, and what the parser makes of it |
| `Regexp.dfy`, `Wildcard.dfy` | the wildcard-to-regex rewriting, against a small regex syntax with a reader and a language |
| `LspClient.dfy` | the request multiplexer as a state machine of atomic steps, and the client's procedures |
| `Decimal.dfy`, `LspFraming.dfy` | Content-Length framing: reader, writers under a lock |
| `RepoMapTypes.dfy`, `StableSort.dfy`, `RankOrder.dfy`, `PageRank.dfy`, `RepoMapFit.dfy` | ranking, grouped rendering and the binary search for the budget |
| `BashChain.dfy`, `BashWords.dfy` | the shell-chain splitter, and lines written out piece by piece |
| `Detector.dfy` | the bounded event buffer and four of the six stuck checks |
| `EventStream.dfy` | append and fan-out, sequential and interleaved |
| `Messages.dfy`, `Compactor.dfy` | compaction of the message history |
| `AgentIteration.dfy`, `AgentRun.dfy` | one iteration, whole runs, the budget and the wrap-up call |

The shape is the same throughout. A loop of the program is a method, proved equal to a specification function or to a
direct description of its result; the laws are lemmas about that function. Objects whose fields change are classes.
Concurrency is a state machine whose steps are the program's atomic actions, and its lemmas quantify over all
interleavings. What comes from outside (provider replies, tool outcomes, verification, history's skip decision, timers,
cancellation) is an arbitrary input.

## Where the code and what is said about it differ

- The comment on the splice loop says it equals "compute all replacements, then apply". That holds when every
  end-of-file chunk fits behind the cursor, in particular without such chunks (`PatchApply.InPlaceIsTwoPhase`,
  `PatchApply.InPlaceIsTwoPhaseWithoutEof`), and can fail otherwise (`PatchApply.EofBreaksTheClaim`). The exact condition
  is in `PatchInStep.dfy`: every end-of-file chunk reached that looks left of the cursor must be clear, that is hit
  nothing there or end up doing the same in both readings (`PatchInStep.AgreeExactlyWhenInStep`).
- A SEARCH block without a name line is meant for the file of the block before. When one of the last two lines of that block's
  replacement is a path, it is taken for that file's instead (`EditNames.LastLineIsTakenForName`).
- Rejoining a file that ends in a blank line loses that line (`PatchApply.RejoinIsFileText`,
  `PatchApply.EmptyPatchIsIdentity`).
- `Replace` is documented to find its window as `Find` does. It does on every text exactly when the part is all blank or no
  non-blank replacement line is indented less than the part (`EditAgreement.FindAndReplaceAgree`); otherwise it can miss what `Find`
  matches (`EditAgreement.ReplaceCanMissWhatFindMatches`: text "x", part "x" behind four blanks, replacement "y").
- `Shutdown` marks the client closed before it calls `shutdown`, so that request is always refused
  (`LspClient.ShutdownRequestIsRefused`). A call that passed the test before can still draw an id and enter the table
  after the close (`LspClient.LateIdsExactlyWhenPassed`, `LspClient.CloseCanBeOvertaken`).
- A call that enters the table after the reader's exit gets neither reply nor notice
  (`LspClient.LateCallersAreNotAnswered`, `LspClient.AnsweredExactlyWhenEntered`).
- A negative Content-Length, and one above what can be allocated, pass the test for a missing one, and allocating the buffer
  panics (`LspFraming.CrashesExactlyOnImpossibleLength`, `LspFraming.HeadersThatCrash`).
- Appends that overlap can reach a subscriber out of order (`EventStream.OrderIsSafeExactlyWhenCalm`).
- The wrap-up call looks at the full cap while the loop stops at the effective one, so a token stop that respected the
  reserve never hands off (`AgentRun.ReserveKeepsGraceAway`).

## Model

| member | source | states |
|---|---|---|
| `Lcs.LcsLenIsLongest` | core/edit/match.go:446-473 | the recurrence gives the length of a longest common subsequence: some common subsequence has it, none is longer |
| `Lcs.LcsLenSymmetric` | core/edit/match.go:446-473 | swapping the two texts does not change the length, so the argument swap is harmless |
| `Lcs.FillRow` | core/edit/match.go:455-467 | one pass of the outer loop turns the table row of `j - 1` into the row of `j` |
| `Lcs.LongestCommonSubsequenceLen` | core/edit/match.go:446-473 | the two-row computation, with its argument swap, row swap and row clearing, returns that length |
| `Lcs.TwiceTheMatch` | core/edit/match.go:433-442 | twice the match is at most both lengths together, and equals them exactly on equal texts |
| `Lcs.SequenceRatio` | core/edit/match.go:433-442 | the method computes twice the match over the total length, with the two empty-text cases |
| `Lcs.RatioLaws` | core/edit/match.go:433-442 | the ratio is symmetric, lies in [0,1] and is 1 exactly on equal texts |
| `Lcs.RatioMeaning` | core/edit/match.go:433-442 | the ratio times both lengths together is twice the length of a longest common subsequence |
| `EditLines.SplitKeepNewline` | core/edit/match.go:138-156 | the loop cuts behind every newline |
| `EditLines.KeepNewlinesIsLossless` | core/edit/match.go:123-156 | putting the cut lines together again gives the text |
| `EditLines.Prep` | core/edit/match.go:128-134 | a non-empty text without a final newline gets one, and is cut into lines |
| `EditLines.TerminatedMeaning` | core/edit/match.go:128-134 | the empty text and one that ends in a newline stay as they are, any other gets one |
| `EditIndent.CommonLeadingCount` | core/edit/match.go:260-277 | the loop computes the least indent of the non-blank lines, 0 when there is none |
| `EditIndent.MinLeadMeaning` | core/edit/match.go:260-277 | no non-blank line has less than the common indent, some non-blank line has exactly that |
| `EditIndent.StripLeadingN` | core/edit/match.go:280-294 | the loop strips the indent off every line that is long enough |
| `EditIndent.StrippingTakesOnlyBlanks` | core/edit/match.go:250-294 | stripping the common indent takes only blanks off, from every non-blank line exactly that many, and leaves blank lines alone |
| `EditIndent.MatchButForLeadingWS` | core/edit/match.go:302-340 | returns the uniform addition of the non-blank lines when the bodies agree, and nothing exactly when there is none |
| `EditIndent.ReindentsOnce` | core/edit/match.go:302-340 | there is at most one such addition |
| `EditIndent.ReindentIsBlank` | core/edit/match.go:296-340 | the addition consists of blanks only |
| `EditIndent.UniformIndentIsRecovered` | core/edit/match.go:296-340 | a part put behind uniform blanks `w`, blank lines left alone and some line non-blank: exactly `w` is recovered |
| `EditReplace.Tier1Exact` | core/edit/match.go:159-172 | the first window that equals the part line by line, or none |
| `EditReplace.Tier2Search` | core/edit/match.go:193-231 | the first window whose lines equal the outdented part but for a uniform indent, and that indent |
| `EditReplace.IndentReplacement` | core/edit/match.go:233-240 | the loop computes IndentAll, of which the next row says what it is |
| `EditReplace.IndentAllMeaning` | core/edit/match.go:214-240 | every non-blank replacement line goes in without the indent it shares with the part and behind the window's indent; blank lines go in as they are; none is added or lost |
| `EditReplace.Tier3TrailingWS` | core/edit/match.go:346-362 | the first window that equals the part after trailing white space is cut off both |
| `EditReplace.RTrimTakes` | core/edit/match.go:364-377 | spaces and tabs at the end of a line go, in front of its newline too, and nothing else does |
| `EditReplace.WindowLengths` | core/edit/match.go:386-391 | the fuzzy scan looks at windows of nine tenths of the part's length, at least one line, up to eleven tenths and one more |
| `EditReplace.Tier4Fuzzy` | core/edit/match.go:382-424 | the best-scoring window over all lengths and starts in scan order, the earliest scanned on ties, kept when it reaches the threshold |
| `EditReplace.Select` | core/edit/match.go:65-84 | the tiers in order: the first window of the strictest tier that matches, none when no tier does |
| `EditReplace.SelectionIsUnique` | core/edit/match.go:56-85 | that description fixes the window, and it exists exactly when some tier matches |
| `EditReplace.Find` | core/edit/match.go:60-85 | Find selects with the part outdented by its own common indent |
| `EditReplace.ApplyReplacement` | core/edit/match.go:477-483 | the text before the window, the replacement, the text after it |
| `EditReplace.Replace` | core/edit/match.go:87-121 | Replace selects with the indent shared by part and replacement, and puts the (in tier 2 re-indented) replacement in place of exactly the window; on a miss it hands the newline-terminated text back |
| `EditReplace.WindowSplitsText` | core/edit/match.go:87-121 | what Replace keeps on both sides, with the window, is the whole text |
| `EditReplace.IndentIsRestored` | core/edit/match.go:214-247 | when the window is the outdented part behind uniform blanks `w`, the replacement goes in line by line: a blank line as it is, any other less the shared indent and behind exactly `w` |
| `EditReplace.TextIsIndented` | core/edit/match.go:87-121 | so on texts: Replace answers the text before the window, the replacement so indented, and the text after it |
| `EditAgreement.SharedIndent` | core/edit/match.go:193-223 | Replace never outdents by more than Find, and by as much exactly when no non-blank replacement line is indented less than the part |
| `EditAgreement.OutdentedTextSeparates` | core/edit/match.go:193-231 | if it outdents by less, the part's own outdented text tells them apart: Find selects it in the second tier, with the smaller outdent that tier misses |
| `EditAgreement.FindAndReplaceAgree` | core/edit/match.go:57-121 | Find and Replace select the same window of every text exactly when the part is all blank or no non-blank replacement line is indented less than the part |
| `EditAgreement.FindMatchesAndReplaceMisses` | core/edit/match.go:57-121 | a line, the part being that line behind four blanks or more, an unindented replacement: Find selects the line and no tier of Replace matches |
| `EditParser.FindFilename` | core/edit/parser.go:170-238 | the loop over the preceding lines, newest first, returns the first that names a file |
| `EditParser.CollectSection` | core/edit/parser.go:101-148 | the loop collects a section up to its closing marker and reports an unclosed or misplaced one |
| `EditParser.ReadBlock` | core/edit/parser.go:68-156 | one block: its file name (or the current one), its two sections, and where parsing goes on; the error cases with it |
| `EditParser.ParseLines` | core/edit/parser.go:66-158 | the parser loop over all lines: the blocks in order, and with an error the blocks before it |
| `EditParser.Parse` | core/edit/parser.go:61-159 | the parser on a text |
| `EditParser.ReadLaidBlock` | core/edit/parser.go:68-156 | wherever a printed block stands, for any syntax of markers and names, the parser reads that block and goes on right behind it |
| `EditParser.ParseOfPrint` | core/edit/parser.go:61-159 | printing blocks with canonical names and quiet newline-terminated bodies and parsing the text gives the same blocks |
| `EditParser.EarlierBlocksSurvive` | core/edit/parser.go:61-159 | printed blocks come back first and intact whatever text follows them, malformed or not |
| `EditParser.PlainPathIsCanonical` | core/edit/parser.go:170-238 | a trimmed path without decoration, fence or label names itself, so the round trip covers ordinary paths |
| `EditNames.HeadMeaning` | core/edit/parser.go:21-31 | a head marker is five to nine `<`, ` SEARCH`, perhaps `>`, and white space, and nothing else is |
| `EditNames.DividerMeaning` | core/edit/parser.go:21-31 | a divider is five to nine `=` and white space |
| `EditNames.UpdatedMeaning` | core/edit/parser.go:21-31 | a closing marker is five to nine `>`, ` REPLACE` and white space |
| `EditNames.SectionMeaning` | core/edit/parser.go:101-148 | a section ends at its closing marker, at the first marker that must not stand there, or not at all, with no marker before |
| `EditNames.BlockMeaning` | core/edit/parser.go:68-156 | a block's sections are the lines between its three markers; an error names the line of the first misplaced marker, or the last line when none closes the section |
| `EditNames.NamedBlock` | core/edit/parser.go:79-98 | the closest of the three lines before the head marker that gives a name gives the block's file |
| `EditNames.NamelessBlock` | core/edit/parser.go:85-98 | when none of the three does, the file is that of the block before |
| `EditNames.MissingName` | core/edit/parser.go:85-98 | and without a block before, that is the error, at the head marker's line |
| `EditNames.WrittenPathIsNamed` | core/edit/parser.go:170-238 | a path is named by its line, white space around it, however it is written: plain, in backticks or stars, with a colon, a heading mark, a `path:` label of either case, or behind a fence |
| `EditNames.NoDotNoName` | core/edit/parser.go:170-238 | a line without a dot and without a slash names nothing |
| `EditNames.OtherLinesAreSkipped` | core/edit/parser.go:68-76 | lines without a head marker are passed over |
| `EditNames.ParseOfNameless` | core/edit/parser.go:61-159 | blocks of one file round trip with only the first of them named, as long as the last three lines of each name no file |
| `EditNames.LastLineIsTakenForName` | core/edit/parser.go:79-98 | otherwise they need not: when the replacement before ends in a path, a nameless block is taken for that file's |
| `PatchSeek.SearchTier` | core/patch/seek.go:27-69 | each of the three search loops returns the first match of its tier at or behind the start, or -1 |
| `PatchSeek.SeekSequence` | core/patch/seek.go:13-72 | the three-tier seek, with the empty pattern, the too long pattern and the end-of-file start |
| `PatchSeek.SeekMeaning` | core/patch/seek.go:13-72 | -1 exactly when not even the loosest tier matches in the range; otherwise the first match of the strictest tier that has one |
| `PatchSeek.RStripMeaning` | core/patch/seek.go:39-52 | lines are alike in the second tier exactly when they differ in trailing spaces and tabs only |
| `PatchSeek.TrimMeaning` | core/patch/seek.go:54-67 | and in the third exactly when they differ in white space at both ends only |
| `PatchSeek.SeekShift` | core/patch/seek.go:13-72 | what stands before the start cannot matter, unless an end-of-file search starts inside it |
| `PatchSeek.EofSeekRespectsCursor` | core/patch/seek.go:22-25 | an end-of-file search respects the cursor exactly when its window starts behind it, does not exist, or does not match |
| `PatchApply.LocateShift` | core/patch/apply.go:145-196 | moving the settled lines about only moves the region a chunk is given |
| `PatchApply.InPlaceFollowsPhases` | core/patch/apply.go:145-200 | from any point on the splice loop goes as the two phases do |
| `PatchApply.InPlaceIsTwoPhase` | core/patch/apply.go:136-200 | the splice loop equals locating every chunk in the original lines and then replacing all regions at once: same failures, same result, regions ordered and disjoint, when every end-of-file chunk has room behind the cursor |
| `PatchApply.InPlaceIsTwoPhaseWithoutEof` | core/patch/apply.go:136-200 | in particular for every chunk list without end-of-file marks |
| `PatchApply.SettledStays` | core/patch/apply.go:145-200 | nothing left of the cursor ever changes again |
| `PatchApply.EofLandsAtTheEnd` | core/patch/apply.go:145-200 | an end-of-file chunk acts on the last lines of the file, wherever the cursor is |
| `PatchApply.EofBreaksTheClaim` | core/patch/apply.go:136-138 | without that room the claim in the code's comment can be false: a concrete file and two chunks |
| `PatchInStep.ClearExactlyInStep` | core/patch/apply.go:145-200 | an end-of-file chunk that looks left of the cursor does the same in both readings exactly when it is clear: its old lines hit neither end (nor does their shorter form), or the shorter form takes exactly what is left and both put in the same |
| `PatchInStep.TwoPhasesExactlyWhenInStep` | core/patch/apply.go:136-200 | the splice loop equals the two phases after every chunk exactly when every end-of-file chunk reached that looks left of the cursor is clear |
| `PatchInStep.AgreeExactlyWhenInStep` | core/patch/apply.go:136-200 | on the whole list they are equal exactly then, or when both fail at the same chunk for the same reason; once out of step they never give the same text again |
| `PatchInStep.RoomKeepsInStep` | core/patch/apply.go:136-200 | room behind the cursor for every end-of-file chunk is enough for that |
| `PatchInStep.InStepWithoutRoom` | core/patch/apply.go:136-200 | and not necessary: a concrete file and two chunks |
| `PatchApply.ChunksRewrite` | core/patch/apply.go:139-200 | chunks in their own places turn g1 c1 h1 o1 g2 c2 h2 o2 ... into g1 c1 h1 n1 g2 c2 h2 n2 ...: context lines at the end of their gaps, old lines behind them, additions directly behind their context line, end-of-file chunks at the end |
| `PatchApply.FirstFaultIsReported` | core/patch/apply.go:139-186 | behind such chunks one that cannot be placed ends the run, under its own number |
| `PatchApply.SwappedChunksUndo` | core/patch/apply.go:139-200 | under the same condition on the result, the chunks with old and new swapped restore the original lines |
| `PatchApply.LocateChunk` | core/patch/apply.go:147-186 | context line, then old lines, then old lines without their last blank line: computes Locate, of which the next rows say what it is |
| `PatchLocate.LocateMeaning` | core/patch/apply.go:147-186 | where a chunk acts, in every case and by what stands in the lines: its context line is nowhere behind the cursor; the chunk has no old lines and goes in directly behind its context line; the old lines first found behind it (strictest tier; for an end-of-file chunk the last lines only) give way to the new ones; they are not found but are without their last blank line, and then the new lines lose theirs; or they are nowhere |
| `PatchLocate.PlaceIsUnique` | core/patch/apply.go:147-186 | that description leaves no choice of place or text |
| `PatchApply.LocateOldLines` | core/patch/apply.go:164-186 | the retry without the last blank line, and what is then put in |
| `PatchApply.SpliceChunks` | core/patch/apply.go:144-200 | the loop over `lines` and `cursor` computes the in-place reading, with the index of the failing chunk |
| `PatchApply.DeriveNewContents` | core/patch/apply.go:139-208 | the whole operation on a text: split, loop, rejoin |
| `PatchApply.SplitLinesOfFileText` | core/patch/apply.go:211-218 | splitting a file's text gives its lines back |
| `PatchApply.RejoinIsFileText` | core/patch/apply.go:201-207 | rejoining gives the file's text except exactly when it ended in a newline behind a blank last line: then that line is lost |
| `PatchApply.EmptyPatchIsIdentity` | core/patch/apply.go:139-208 | a patch without chunks leaves a file alone exactly when the file does not end in a blank line |
| `PatchApply.FileRewrite` | core/patch/apply.go:139-208 | the rewriting law on whole files, context lines, additions and final newline included |
| `PatchParser.Chunk` | core/patch/parser.go:194-294 | a chunk that parses takes at least one line |
| `PatchParser.OneHunk` | core/patch/parser.go:109-189 | a hunk that parses takes at least one line |
| `PatchParser.ParseUpdateChunk` | core/patch/parser.go:194-294 | the chunk loop: context marker, marked body lines, end-of-file mark, and the line at which it stops or fails |
| `PatchParser.ItemLoop` | core/patch/parser.go:82-104 | the loop that skips blank lines and collects items computes what any reader with the same single steps computes |
| `PatchParser.ParseItems` | core/patch/parser.go:82-104 | so it equals reading the items one after the other |
| `PatchParser.ParseOneHunk` | core/patch/parser.go:109-189 | the three hunk forms by their header, with the move line and the empty update refused |
| `PatchParser.ParseBody` | core/patch/parser.go:74-104 | the hunks of a body |
| `PatchParser.Parse` | core/patch/parser.go:21-62 | boundary markers checked on the trimmed text, then the body |
| `PatchParser.ReadChunk` | core/patch/parser.go:194-294 | a printed chunk in front of any line a chunk ends at is read back, and nothing more is taken |
| `PatchParser.ReadHunk` | core/patch/parser.go:109-189 | a printed hunk is read back exactly when it has a path; otherwise it does not parse |
| `PatchParser.ParseOfPrint` | core/patch/parser.go:21-104 | printing a well-formed patch and parsing it gives the same patch, move and end-of-file marks included, exactly when every hunk has a path |
| `PatchParser.FinalNewline` | core/patch/parser.go:21-62 | newlines behind the end marker make no difference |
| `PatchParser.ParsedIsPrintable` | core/patch/parser.go:21-294 | whatever parses can be printed: hunks, chunks in every update, lines in every chunk, trimmed one-line names |
| `PatchParser.Reparse` | core/patch/parser.go:21-294 | printing what was parsed and parsing again gives the same patch, exactly when no hunk has an empty path |
| `PatchGrammar.ReadChunkText` | core/patch/parser.go:194-294 | a chunk is read whatever mix of space, plus, minus and empty lines its body is: old lines are the texts of the space, minus and empty ones in order, new lines those of the space, plus and empty ones; without its @@ line only where that may be missing, an error elsewhere |
| `PatchGrammar.ReadChunkTexts` | core/patch/parser.go:160-189 | all chunks of an update, the first with or without its @@ line, blank lines behind end-of-file marks |
| `PatchGrammar.LaterChunkNeedsContext` | core/patch/parser.go:217-226 | a later chunk without its @@ line is an error at its first line |
| `PatchGrammar.EmptyChunkFails` | core/patch/parser.go:227-240 | a @@ line with no body line behind it is an error |
| `PatchGrammar.ReadHunkText` | core/patch/parser.go:109-189 | every layout of a hunk is read as the hunk it means, white space around paths left off |
| `PatchGrammar.ReadPatchText` | core/patch/parser.go:21-104 | every layout of a patch, blank lines and white space around the boundary markers included, is read as the patch it means |
| `PatchGrammar.UnknownLineFails` | core/patch/parser.go:109-189 | a line with no marker where a hunk must start is an error at that line |
| `PatchGrammar.UpdateWithoutChunksFails` | core/patch/parser.go:160-189 | an update without chunks is an error at its own line |
| `PatchGrammar.ErrorBehindHunks` | core/patch/parser.go:82-104 | an error behind hunks that are read is the outcome of the whole body |
| `PatchGrammar.NoPatch` | core/patch/parser.go:21-104 | a patch without its boundary lines, or with only blank lines between them, is none |
| `Wildcard.RewritesAreImages` | core/permission/wildcard.go:48-52 | the three text rewrites, done one after the other, equal replacing every character by its image: no rewrite touches what an earlier one put in |
| `Wildcard.SpaceStar` | core/permission/wildcard.go:53-56 | the trailing rewrite fires exactly for patterns that end in " *" |
| `Wildcard.RegexTextCompiles` | core/permission/wildcard.go:44-61 | the rewritten text always compiles, and to the tree of the pattern's items |
| `Wildcard.RewriteKeepsMeaning` | core/permission/wildcard.go:44-61 | the compiled expression matches a string exactly when the pattern means it: star any text, question mark one character, a final " *" nothing or a space and anything |
| `Wildcard.PlainPattern` | core/permission/wildcard.go:13-61 | a pattern without wildcards means only itself |
| `Wildcard.PlainPatternWithSlashes` | core/permission/wildcard.go:28-36 | and MatchWildcard then matches exactly the strings equal to it after slash normalisation |
| `Wildcard.SlashesMeaning` | core/permission/wildcard.go:28-36 | normalisation keeps the length and puts `/` exactly where a slash of either kind stood |
| `Wildcard.OtherSlashMatches` | core/permission/wildcard.go:23-36 | for instance the pattern a/b matches the path written with a backslash |
| `Wildcard.CommandPattern` | core/permission/wildcard.go:20-61 | a plain command with space and star behind it means the command alone, or with a space and any arguments, and nothing else |
| `Wildcard.WildcardCache.CompileWildcard` | core/permission/wildcard.go:44-61 | a cached result is what a fresh compile gives, and the cache stays so |
| `Wildcard.WildcardCache.MatchWildcard` | core/permission/wildcard.go:28-36 | with any valid cache the answer is the meaning of the normalised pattern on the normalised string |
| `LspClient.NextKeepsInv` | core/lsp/client.go:83-142 | every atomic step of a caller, of the reader or of shutdown keeps the invariant of table, channels, callers and reader |
| `LspClient.EveryRunKeepsInv` | core/lsp/client.go:83-266 | so does every interleaving of any length |
| `LspClient.RepliesReachTheirCallers` | core/lsp/client.go:83-266 | in every reachable state: a registered id has an open empty channel, no channel ever gets two messages, a caller only receives a reply with its own id (section 5 of the JSON-RPC 2.0 specification) or the closing notice, never a zero value |
| `LspClient.ReaderNeverBlocks` | core/lsp/client.go:83-115 | the reader's next send or close can always be taken and never hits a closed channel |
| `LspClient.NoReplyIsLost` | core/lsp/client.go:99-115 | a waiting caller whose entry left the table can receive at once, unless the reader is just about to send to it |
| `LspClient.ExitReleasesEveryCaller` | core/lsp/client.go:86-97 | when the reader exits, every caller then waiting can receive |
| `LspClient.AnsweredExactlyWhenEntered` | core/lsp/client.go:86-97 | at any time after the reader's exit a caller in its select can receive exactly when its call had entered the table by the exit |
| `LspClient.LockIsReleased` | core/lsp/client.go:88-97 | from every state the reader, left alone, finishes failing the calls and gives up the lock |
| `LspClient.CloseIsFinal` | core/lsp/client.go:188-217 | after the close every call that comes to its test is refused, the ids still given out are drawn by calls that had passed the test before, one each, and no request is started any more |
| `LspClient.LateIdsExactlyWhenPassed` | core/lsp/client.go:213-217 | an id can still be drawn after the close exactly when some call has passed its test and drawn none yet |
| `LspClient.CloseCanBeOvertaken` | core/lsp/client.go:213-221 | such a run: a call tests the flag, it is set, and the call then gets its id and enters the table |
| `LspClient.ShutdownRequestIsRefused` | core/lsp/client.go:506-521 | so Shutdown's own request, made after it set the flag, is refused whatever happens in between |
| `LspClient.LateCallersAreNotAnswered` | core/lsp/client.go:86-97 | a call that has not entered the table when the reader exits is never answered: it times out, is cancelled or fails to write |
| `LspClient.FailRoundNotifies` | core/lsp/client.go:90-95 | one round of the failing loop gives its call the notice, closes the channel and deletes the entry |
| `LspClient.ReplyRoundReplies` | core/lsp/client.go:99-113 | a reply's three steps give the call the reply, close the channel and delete the entry |
| `LspClient.Client.FailPending` | core/lsp/client.go:86-97 | the failing loop: the table ends empty, every call that was in it holds exactly the notice in a closed channel, every other channel is as it was |
| `LspClient.Client.RouteReply` | core/lsp/client.go:99-113 | a reply goes to the call whose id it has, whose channel is then closed and whose entry is gone; a reply to nobody changes nothing |
| `LspClient.Client.EnterTable` | core/lsp/client.go:213-221 | a closed client refuses the call and changes nothing else; otherwise the call is registered under an id drawn after it began, whatever the others do between its steps |
| `LspClient.Client.WriteRequest` | core/lsp/client.go:188-235 | the caller goes to its select exactly when the client is open when the write starts, there is something to write and the write succeeds; otherwise it leaves |
| `LspClient.Client.Await` | core/lsp/client.go:240-258 | the select: a caller with a message in its channel that prefers it gets exactly that message, its own reply or the notice; any other times out or is cancelled, by which of the two fired |
| `LspClient.Client.CallWithTimeout` | core/lsp/client.go:213-265 | a whole call, the others moving arbitrarily between any two of its steps: refused exactly when closed at the start; unable to write exactly when it had nothing to write, the client was closed by then or the write failed; otherwise ended with the message in its channel at the select if it preferred that, timed out or cancelled if not; off the table, never with a zero value |
| `LspClient.CallIsAnswered` | core/lsp/client.go:99-113 | a call of an open client whose reply comes in can receive, and gets that reply |
| `Decimal.AtoiOfPrint` | core/lsp/client.go:162-171 | parsing a printed number, negative or not, gives the number exactly as long as it fits 64 bits |
| `LspFraming.Reader.ReadMessage` | core/lsp/client.go:147-184 | the header loop, the allocation and the body read: a body, which of the failures, or a crash |
| `LspFraming.ReceiveOfFrame` | core/lsp/client.go:147-204 | a written frame is read back and the stream left right behind it, exactly when the body is not empty and can be allocated |
| `LspFraming.ReceiveAllOfFrames` | core/lsp/client.go:147-204 | frames one after the other in front of any text that is no message: the bodies in order up to the first that cannot be allocated, where reading crashes; without one all of them, then what that text gives |
| `LspFraming.HeaderByLines` | core/lsp/client.go:147-171 | a header is read to its end exactly when it has a blank line and every Content-Length line before it is a number; the last one counts |
| `LspFraming.FieldByName` | core/lsp/client.go:158-171 | the length field is found by its name in any case |
| `LspFraming.CrashesExactlyOnImpossibleLength` | core/lsp/client.go:147-175 | reading panics exactly when such a header's last Content-Length is negative or more than can be allocated, whatever follows the header |
| `LspFraming.HeaderOfLength` | core/lsp/client.go:147-172 | a length header as the writer prints it, for any 64-bit number, is read to that number and its blank line |
| `LspFraming.ReceiveByLength` | core/lsp/client.go:147-184 | behind a printed length, any 64-bit number: no length, a crash, the end of the stream, or exactly that many characters |
| `LspFraming.HeadersThatCrash` | core/lsp/client.go:172-175 | two such headers: the length -1 always, and 9223372036854775807 unless every length can be allocated |
| `LspFraming.StepKeepsPipeInv` | core/lsp/client.go:188-204 | every step of a writer (lock, header, body and unlock) keeps the stream a row of whole frames and at most one header |
| `LspFraming.InterleavedFramesAreReadBack` | core/lsp/client.go:147-204 | after any interleaving of writers, reading the stream gives the bodies written, in lock order, up to the first that cannot be allocated; all of them and then the end of the stream exactly when every body announced can be (the "Header Part" of the Base Protocol section of the LSP 3.17 specification) |
| `LspFraming.Writer.Write` | core/lsp/client.go:188-204 | a write appends exactly one frame, and nothing once closed |
| `RepoMapFit.GroupByFile` | core/repomap/fit.go:38-55 | the loop with its index from files to blocks adds each symbol's line to its file's block |
| `RepoMapFit.BlocksGroupByFile` | core/repomap/fit.go:32-55 | the blocks are the files in order of first appearance, each with exactly its own lines in rank order |
| `RepoMapFit.SymbolLineMeaning` | core/repomap/fit.go:46-54 | a symbol's line gives kind, name and first line, and the last line behind it when it is a later one; both numbers can be read back |
| `RepoMapFit.RenderingLines` | core/repomap/fit.go:56-68 | split at its newlines a rendering gives for each file its heading, its own lines and a blank one |
| `RepoMapFit.Render` | core/repomap/fit.go:24-69 | the rendering of a prefix, clamped at both ends |
| `RepoMapFit.AddLineGrows` | core/repomap/fit.go:38-68 | one more line makes the rendering longer, whether it joins a block or opens one |
| `RepoMapFit.RenderingGrows` | core/repomap/fit.go:24-69 | longer prefixes render strictly longer |
| `RepoMapFit.FitsDownward` | core/repomap/fit.go:10-13 | so when a prefix fits the budget every shorter one does |
| `RepoMapFit.FitsMeaning` | core/repomap/fit.go:10-13 | a prefix fits exactly when its rendering has fewer than four characters for each token and four more |
| `RepoMapFit.Fit` | core/repomap/fit.go:79-101 | the binary search returns the rendering of the largest prefix that fits, and "" exactly when no prefix of one symbol or more does |
| `PageRank.CollectNodes` | core/repomap/pagerank.go:34-46 | the node list and the two indexes, from files and from names to nodes |
| `PageRank.EdgesMeaning` | core/repomap/pagerank.go:52-76 | there is an edge exactly when the nodes differ and a file with the owner's name refers to the target's name |
| `PageRank.Connect` | core/repomap/pagerank.go:62-75 | the inner loops add an edge to every target but the source itself, multi-edges kept |
| `PageRank.BuildGraph` | core/repomap/pagerank.go:52-76 | the two arrays hold that graph: out-edges by source, in-degrees by target |
| `PageRank.DegreesSum` | core/repomap/pagerank.go:52-76 | in-degrees sum to the number of edges, and so do the out-degrees |
| `PageRank.SumOfSpread` | core/repomap/pagerank.go:101-104 | dealing a share to every target, repeated targets included, deals out the share times their number |
| `PageRank.SharesSum` | core/repomap/pagerank.go:92-105 | a node gives away exactly its damped score, dangling or not |
| `PageRank.PartialSum` | core/repomap/pagerank.go:87-105 | after `k` nodes the next scores sum to the base mass and the damped mass of those nodes |
| `PageRank.ScoreIsConserved` | core/repomap/pagerank.go:78-107 | after every iteration the scores sum to 1 and none is below (1 - d)/n |
| `PageRank.NextScoreEquation` | core/repomap/pagerank.go:86-107 | one iteration gives a node 0.15 over the number of nodes, and from every node 0.85 of its score dealt evenly to its edges, or to all nodes when it has none |
| `PageRank.Damp` | core/repomap/pagerank.go:86-105 | one damping iteration over the two arrays computes the next scores |
| `PageRank.DampRepeatedly` | core/repomap/pagerank.go:79-107 | all iterations, the arrays swapped each time |
| `StableSort.SortedIsSort` | core/repomap/pagerank.go:118-126 | a list is in order with ties as they stood exactly when it is what the stable sort gives, and is then a permutation |
| `RankOrder.TiesAreEqualKeys` | core/repomap/pagerank.go:118-126 | only entries with equal score, file and name tie |
| `RankOrder.StringLessMeaning` | core/repomap/pagerank.go:118-126 | behind what two texts have in common the lesser one ends, or has the lesser character |
| `PageRank.Rank` | core/repomap/pagerank.go:29-127 | the nodes' entries, none left out or doubled, each with a higher score than the next, or the same and a lesser file, or the same file and no greater name, ties in node order; whatever the files, scores sum to 1, each at least (1 - d)/n, in-degrees sum to the number of out-edges |
| `Detector.CheckPingPong` | core/stuck/detector.go:288-348 | fires exactly when the window's call signatures contain an alternation of two different signatures of length six or more, and counts a longest one |
| `Detector.SignaturesMeaning` | core/stuck/detector.go:288-302 | the signatures are tool name and input of the readable tool calls, all of them and in order |
| `Detector.RunFrom` | core/stuck/detector.go:319-329 | how long the two signatures at a start take turns |
| `Detector.CheckMonologue` | core/stuck/detector.go:248-283 | the largest number of bare responses in a stretch nothing breaks; fires from three on |
| `Detector.TalkCountMeaning` | core/stuck/detector.go:252-268 | what is counted are readable provider responses without tool calls |
| `Detector.CountRepeats` | core/stuck/detector.go:194-246 | the counting loop over the pairs: exactly the keys that occur often enough, each with how often |
| `Detector.TimesMeaning` | core/stuck/detector.go:194-240 | a key's count is the number of pairs with that tool name and input, that outcome and, for successes, that content |
| `Detector.CheckRepeatedActionObservation` | core/stuck/detector.go:194-219 | the calls that had the same tool, input and successful result four times or more, with how often |
| `Detector.CheckRepeatedActionError` | core/stuck/detector.go:221-246 | the calls that failed with the same tool and input three times or more, with how often |
| `Detector.PairToolEvents` | core/stuck/detector.go:147-188 | the cursor loop pairs every call with the next result of its name |
| `Detector.PairsAreOrdered` | core/stuck/detector.go:147-188 | the pairs match, follow one another and never overlap |
| `Detector.PairsMissNothing` | core/stuck/detector.go:147-188 | no call is passed over: a named call with a later result of its name is paired, or stands inside an earlier pair |
| `Detector.EventBuffer.WindowEvents` | core/stuck/detector.go:74-83 | the detector sees in the buffer what it would see in the whole log since the last reset, exactly when the window is no larger than the buffer or the log is short |
| `Detector.EventBuffer.Check` | core/stuck/detector.go:74-91 | so checking the buffer gives these four signals of the whole log, for any window up to its size |
| `Detector.EventBuffer.Emit` | core/runner/runner.go:1660-1669 | the buffer holds the last 200 events since the last reset |
| `Detector.EventBuffer.Reset` | core/runner/runner.go:798-798 | a checkpoint reset empties it |
| `Detector.TailOfTail` | core/runner/runner.go:1666-1668 | the last `w` of the last `m` events are the last `w`, exactly when `w` is no larger than `m` or there are no more than `m` |
| `Detector.TailMeaning` | core/runner/runner.go:1666-1668 | what is kept are the last ones, or all when there are no more |
| `BashChain.SplitBashChain` | core/runner/runner.go:1717-1772 | the scanner loop with its quote, escape and operator branches |
| `BashChain.SeparatorSet` | core/runner/runner.go:1747-1763 | the scanner cuts outside quotes only, and there exactly at `&&`, at a bar (one or two) and at a semicolon |
| `BashChain.PlainLineIsQuiet` | core/runner/runner.go:1717-1772 | a line without quotes and backslashes is scanned without a cut exactly when none of these stands in it, so a single ampersand and a newline never cut |
| `BashChain.PlainLineStaysWhole` | core/runner/runner.go:1717-1772 | such a line is one command |
| `BashWords.PieceIsKept` | core/runner/runner.go:1717-1772 | text between two quotes of either kind, a character behind a backslash and a single ampersand are never cut |
| `BashWords.LineSplits` | core/runner/runner.go:1704-1772 | a line of commands made of such pieces, with operators between them, is split into exactly those commands, each trimmed, blank ones left out |
| `BashWords.PartMeaning` | core/runner/runner.go:1717-1730 | what goes in for a command is what is left of it without the white space around it, or nothing |
| `BashChain.PartsWeaveTheLine` | core/runner/runner.go:1704-1772 | the parts are trimmed non-empty pieces of the line, in order and apart, and between them stand only operators and white space |
| `BashChain.SplittingAPart` | core/runner/runner.go:1717-1772 | splitting any part gives just that part, quotes and escapes included |
| `BashChain.RejoinedPartsSplit` | core/runner/runner.go:1717-1772 | joining the parts with " && " and splitting again gives the same parts |
| `AgentIteration.ClassifyTurn` | core/runner/runner.go:1943-1957 | the role is one of the three that usage is summed over |
| `AgentIteration.RoleTestsExclude` | core/runner/runner.go:1943-1990 | the first turn is the planner's; later planner exactly when the last response called the plan tool, editor exactly when it called execution tools only, so the order of the two tests does not matter |
| `AgentIteration.StopReasons` | core/runner/runner.go:663-828 | a token stop exactly at the effective cap, a cost stop at the cost cap, a stuck stop at the limit of unrecovered signals and under both caps |
| `AgentIteration.StopsExactly` | core/runner/runner.go:663-828 | an iteration stops exactly when the reply takes the tokens to the cap less the reserve (at least one), or the cost to its cap, or a check leaves as many unrecovered signals as allowed; tokens before cost before signals |
| `AgentIteration.RecordRoleUsage` | core/runner/runner.go:2019-2030 | one role's counters grow by one reply and its tokens and cost |
| `AgentIteration.ChargeAddsUp` | core/runner/runner.go:2019-2030 | so the sums over the roles grow by exactly that |
| `AgentIteration.DefaultReserveFits` | core/runner/runner.go:403-420 | the default reserve is at most a tenth of the cap, so the effective cap is never clamped |
| `AgentIteration.ReserveMeaning` | core/runner/runner.go:398-420 | the caller's reserve comes before the specification's, a negative one means none, and without any it is 8000 tokens or a tenth of the cap |
| `AgentIteration.RunToolCalls` | core/runner/runner.go:962-1050 | one result for every call, in order, under the call's id: computes ResultsOf, whose content IterationWrites states |
| `AgentIteration.CountUnrecovered` | core/runner/runner.go:737-805 | every signal without a recovery counts |
| `AgentIteration.TakeReply` | core/runner/runner.go:831-960 | the assistant message, then the tool results, the verifier's feedback, or the end of the run with its milestone charge |
| `AgentIteration.Iterate` | core/runner/runner.go:454-1074 | one pass of the loop body: compaction, reply, charge, budget, stuck signals, assistant turn |
| `AgentIteration.IterationWrites` | core/runner/runner.go:831-1068 | what an iteration that is not stopped writes behind the history: the reply as it came, and then, call by call, the tool's own output and flag, the reason of a denial, the name of an unknown tool, or the first 500 characters of an error; or the verifier's feedback; or nothing, and the run is done |
| `AgentIteration.CompactionWrites` | core/runner/runner.go:454-500 | the history it works on: head, summary and tail exactly when compaction is wanted, not skipped, worth it and the summary was made; otherwise as it was |
| `AgentIteration.IterationCharges` | core/runner/runner.go:600-630 | its reply is charged to the totals and to the role of the turn only, and its signals are counted |
| `AgentIteration.MilestoneCharges` | core/runner/runner.go:878-900 | a milestone reply is charged on top, to main |
| `AgentIteration.UnrecoveredMeaning` | core/runner/runner.go:737-805 | the signals that count are those without a recovery |
| `AgentIteration.AssistantKeepsHistory` | core/runner/runner.go:831-1053 | the turns an iteration appends keep roles alternating and results right behind their calls, whatever stands before them |
| `AgentIteration.IterationKeepsLedger` | core/runner/runner.go:454-1074 | an iteration that starts accounted for and under budget goes on so, or ends accounted for; for every configuration |
| `AgentIteration.IterationKeepsWellFormed` | core/runner/runner.go:454-1074 | with even head and tail sizes, an iteration that starts with a well-formed history leaves one unless it ends the run |
| `AgentIteration.IterationKeepsAnswers` | core/runner/runner.go:454-1074 | whatever the sizes, no call but that of the last head message is ever left without its results |
| `AgentIteration.TokenStopLeavesRoom` | core/runner/runner.go:663-690 | a token stop ends below the full cap exactly when the last reply is smaller than what was left of it, so whenever it is no larger than a reserve that is under the cap |
| `AgentRun.EveryIterationIsUnderBudget` | core/runner/runner.go:349-1074 | at the top of every iteration of every run, for every configuration: totals equal to the sums over roles with one reply for each iteration so far, tokens and cost strictly below their effective caps |
| `AgentRun.EveryIterationStartsWell` | core/runner/runner.go:349-1074 | with even head and tail sizes, at the top of every iteration, compactions included: odd length, roles in turns from the user on, every tool result right behind its call |
| `AgentRun.EveryIterationAnswersItsCalls` | core/runner/runner.go:349-1074 | whatever the sizes and however often a run compacts: every call is answered, that of the last head message perhaps excepted |
| `AgentRun.PlayEnds` | core/runner/runner.go:452-1081 | a run ends by what its last iteration came out as, or at the iteration limit |
| `AgentRun.RunIsAccounted` | core/runner/runner.go:349-1164 | over a whole run tokens, cost and replies equal the sums over roles, with one reply for each iteration, one less on a provider failure, one more for a milestone; for every configuration |
| `AgentRun.RunCountsReplies` | core/runner/runner.go:349-1164 | the tokens of a run are those of the replies it got, milestone included |
| `AgentRun.RunLeavesWellFormed` | core/runner/runner.go:349-1164 | with even sizes a run that is not done leaves a well-formed history |
| `AgentRun.RunEndsInUser` | core/runner/runner.go:349-1074 | for every configuration a run that is not done leaves a user message last |
| `AgentRun.TokenStopIsBelowTheCap` | core/runner/runner.go:398-420 | for every configuration with the reserve under the cap, a run stopped on tokens by a reply no larger than the reserve ends below the full cap |
| `AgentRun.ReserveKeepsGraceAway` | core/runner/runner.go:1111-1138 | such a run reports its verification status and sends no wrap-up request |
| `AgentRun.HandoffNeedsTheFullCap` | core/runner/runner.go:1091-1143 | the status is a hand-off exactly when the budget stopped the run, grace is allowed and the full cap (not the effective one) is reached |
| `AgentRun.ReportMeaning` | core/runner/runner.go:1098-1163 | one status for each way a run can end, an error exactly when it was stuck or the provider failed, the counters as they stood |
| `AgentRun.AgentLoop.Loop` | core/runner/runner.go:452-1081 | the iteration loop |
| `AgentRun.AgentLoop.Result` | core/runner/runner.go:1098-1163 | exit reason, verification and grace status become the result |
| `AgentRun.AgentLoop.Run` | core/runner/runner.go:307-1164 | a run resets grace, carries unrecovered signals over, reports its ending, and adds at most the one wrap-up request |
| `AgentRun.AgentLoop.SyncGraceState` | core/runner/grace.go:90-106 | the snapshot of totals, caps and messages |
| `AgentRun.AgentLoop.CheckBudgetAndMaybeGrace` | core/runner/grace.go:26-67 | over a cap and with grace allowed: one request and the hand-off status; the reply is appended when there is one |
| `AgentRun.GraceIsIdempotent` | core/runner/grace.go:23-42 | a second check changes nothing and sends nothing, whatever the provider would now say |
| `AgentRun.WrapUpMeaning` | core/runner/grace.go:26-87 | the wrap-up of a budget stop: one request, the history and then the prompt, exactly when a full cap is reached, grace is allowed and there is a provider; its answer is kept behind the history |
| `AgentRun.WrapUpNeverAlternates` | core/runner/grace.go:73-87 | so no wrap-up request after any run has its roles in turns: its prompt stands behind another user message |
| `Compactor.CloneMessage` | core/compact/compactor.go:147-170 | the copy equals the message |
| `Compactor.Compact` | core/compact/compactor.go:44-144 | history unchanged when skipped or too short, nothing on a provider failure, otherwise head, summary and tail |
| `Compactor.CompactKeepsWellFormed` | core/compact/compactor.go:72-114 | with even sizes a well-formed history stays well-formed |
| `Compactor.AlternationNeedsEvenSizes` | core/compact/compactor.go:49-114 | after a real compaction roles alternate exactly when both sizes are even |
| `Compactor.CompactKeepsAnswers` | core/compact/compactor.go:72-114 | any compaction, of the original history or of one compacted before, leaves every call answered but perhaps that of the last head message |
| `Compactor.LastHeadMessageDecides` | core/compact/compactor.go:85-87 | for the first compaction and every later one: all calls are answered exactly when the last head message makes none |
| `EventStream.Stream.Append` | core/event/stream.go:21-41 | an event with an id is refused; otherwise it gets the next id, is logged and offered to every subscriber, dropped only where the channel has no room and no receiver waits at an unbuffered one |
| `EventStream.Stream.Subscribe` | core/event/stream.go:78-87 | a new subscriber starts with nothing, behind all events so far |
| `EventStream.NextKeepsInv` | core/event/stream.go:21-87 | every step of an append, a subscription or a receiver keeps the invariant |
| `EventStream.EveryRun` | core/event/stream.go:21-87 | after any interleaving the event at log position k has id k + 1, and no subscriber was sent an event twice or one logged before it subscribed |
| `EventStream.OrderIsSafeExactlyWhenCalm` | core/event/stream.go:31-39 | from any reachable state in order, every continuation that records nothing new keeps the order exactly when no subscriber is owed an event by two appends, or one older than it was sent already |
| `EventStream.LaterCanOvertake` | core/event/stream.go:31-39 | of two appends that owe a subscriber, the later can always get there first |
| `EventStream.SequentialAppendsArriveInOrder` | core/event/stream.go:21-41 | so when appends do not overlap, the ids sent to a subscriber strictly increase |
| `EventStream.OverlappingAppendsCanOvertake` | core/event/stream.go:31-39 | and a run from the empty stream in which they overlap and the order is lost |

## Left out

- PageRank.Rank: the library's stable sort is replaced by an insertion sort; StableSort.SortedIsSort shows that no other
  result is possible.
- The stuck checks for context-window errors and no progress, and the short hash in call signatures and keys: they are
  compared as whole strings.
- Detector.EventBuffer.Check: covers four of the six checks, for windows no larger than the buffer; a larger window sees
  less than the log, as WindowEvents states. The signals' texts and their order are not modelled.
- JSON, regex and catalogue internals: payloads are opaque, events carry the few fields the checks read, the regex syntax
  is the part the rewriting produces.
- Floating point: scores, costs and ratios are reals. Integers are unbounded; the only width kept is that of the parsed
  Content-Length.
- White space is the ASCII kind, and text is a sequence of characters rather than bytes.
- PatchApply.DeriveNewContents: file reading, writing, moving and deleting around it, and the wording of errors, are not
  modelled; an error is the index of the chunk and what was not found.
- PatchParser.ItemLoop: calls the item parser through its specification function, which ParseUpdateChunk and ParseOneHunk
  are proved to compute; error texts are line numbers.
- EditParser.ReadBlock: an error carries its kind, not the excerpt of lines around it.
- LspClient.ReaderNeverBlocks: says nothing of the reader's own writes (the null answer to a server's request), which can
  block on the pipe.
- LspClient.ShutdownRequestIsRefused: closing the pipes, killing the process and the waits of Shutdown are not modelled.
- LspClient.Client.FailPending: states what the failing loop does with nobody else moving, as the calls' receives between
  its sends only empty buffers; those interleavings are the state machine's (EveryRunKeepsInv, ExitReleasesEveryCaller).
- LspClient.Client.RouteReply: likewise states a reply's steps with nobody else moving; the interleavings are the state
  machine's (RepliesReachTheirCallers, NoReplyIsLost).
- LspFraming.Reader.ReadMessage: the largest length that can be allocated is a parameter; a length below it that exhausts the
  memory, and a body that is no JSON, are not modelled.
- LspFraming.Writer.Write: failing or partial writes to the pipe are not modelled.
- Diagnostics and other notifications, and the typed requests built on the multiplexer.
- Wildcard.WildcardCache.CompileWildcard: concurrent use of the cache is not modelled; a pattern whose compile fails cannot
  occur (RegexTextCompiles).
- Compactor.Compact: that the copies share no storage with the originals, and the events and the history record it writes.
- AgentIteration.Iterate: when to compact (the token estimate), permissions, checkpoints, system prompt, model switching
  and stuck strategies only reach the model through an iteration's inputs; warnings and events are not modelled.
- AgentRun.AgentLoop.Run: the last assistant text and the verification details in the result, the default of 100
  iterations and the seed text are not modelled; the wrap-up prompt is cut to its tag.
- EventStream.EveryRun: closing a subscription is not modelled; a close that races with an append can close a channel that
  is still being sent to.
- Provider, network, sandbox, storage, command-line and editor front ends.
