# Verified models of AusweisApp's patch engine, download protocol and related tools

The repository carries a complete unified-diff engine (`libs/patch.py`), a
download protocol for updatable files (`src/file_provider`), a registry of
singletons and shared instances (`src/global/Env.h`), a tool that flattens a tree
of reStructuredText files (`cmake/pandoc/preprocess_rst.py`), a tool that imports
a patch series step by step (`ci/import.py`) and the reader table
(`src/configuration`). This project models the parts of them that keep state and
proves what they are for.

`dafny verify dfyconfig.toml` checks everything.

## How it is organised

Code that changes things step by step is a method or a class here, with the
source's loops and fields. Its `ensures` equates the result, or the new state,
with a function of the inputs or of the old state, for every input. Lemmas about
these functions then say what they mean. Functions that only serve as such a
specification have no row of their own in the table below, and neither have the
methods for single steps of a loop: the regions of the parser, the branches of
`flatten_files`, the parts of `patch_stream`, of the validator and of `dump`.

| module | about |
|---|---|
| `Strings`, `Sequences`, `Wrappers` | white space, items that occur once, options |
| `Lines`, `Edits`, `Hunks` | lines and their ends; what a list of edits means for any document; hunks as edits |
| `Rewriter`, `PatchedBytes`, `LineEnds` | `patch_stream` as block splicing; the bytes it writes for every file and every hunks; one kind of line end |
| `Revert`, `PatchObjects` | `_reverse` as inversion; `revert` on mutable hunks and their copy |
| `Validator`, `Crashes`, `Checker`, `Apply` | the one-pass check, when it crashes, the "already patched" check, and the two with the rewriter for one file |
| `ParsedPatches` | from the bytes of a patch to the patched file and back |
| `PatchLines`, `PatchParser`, `ParserObject` | the lines of a patch, the parser as a step function, the parser as an object with its flags |
| `PatchSpelling`, `PatchGrammar` | how the lines of a patch are written; the streams that parse, as a grammar |
| `ParserFacts`, `WellFormed`, `PatchFaults`, `PatchPrinter` | which flags occur together, what a successful parse has built, streams with errors, printing and reading back |
| `PathNames`, `PathMeaning` | file names made safe, and shortened; where they lead |
| `Downloader`, `DownloaderRuns`, `DownloaderSignals` | queue, slot and abort; every run; what the signals say |
| `Files`, `FileMarkers`, `FileObjects`, `FileCache` | files and downloader together; updates and dirty markers event by event; the file object and its provider; versions in the cache folder |
| `SharedInstances`, `SharedCalls`, `Singletons` | `getShared` under every interleaving; what a call gives; singletons and their re-creation |
| `Headings`, `RstLines`, `Flatten`, `FlattenText`, `FlattenDepth` | heading levels; how lines are written; a tree of files; its text; how deep it goes |
| `PatchSeries`, `ReaderTable` | the imported series; the reader table |

Words used below. Hunks are *placed* when their source ranges start at line 1 or
later, ascend and do not overlap, and *well placed* when, besides, none has an
empty source side. Their targets are *consistent* when every target start is the
source start moved by what the earlier hunks add. A *plain* text has no
`\ No newline` marker. A hunk *matches* a file when its source side is what the
file holds at its source start, line ends aside: the code compares lines without
trailing CR and LF.

## Where the code does less than expected

Each of these is stated exactly: when it happens and when not.

- The validator keeps counting after the last hunk when that hunk expects no
  source line, so a file that lacks an earlier hunk can pass as patchable
  (`Validator.OvercountsExactly`) and is rewritten (`Apply.NeverWrong`).
- Overlapping hunks make the validator read past the expected lines
  (`IndexError`) on some file (`Crashes.AscendingCrashes`); for hunks in any order
  a search over the hunks tells (`Crashes.CrashesExactly`).
- A `\ No newline` marker is a source line to the rewriter and a target line to the
  "already patched" check, which does not recognise the patched file
  (`Checker.RecognisedWithoutMarker`).
- Lines that a patch inserts before it has read any source line keep the patch's
  line end (`LineEnds.KeepsLineEnds`), and then nothing can be put back with the
  file's (`LineEnds.RevertRestoresBytes`, `LineEnds.OneEndRestores`).
- Under a header `@@ -n,0 +m,0 @@` two parser flags can be set at once
  (`ParserFacts.SingleExactly`, `PatchPrinter.TwoFlags`).
- `pathstrip` never ends on an absolute path (`PathNames.AbsoluteNeverEnds`).
- An abort leaves one request for its URL when the request in flight and the next
  one waiting are both for it (`DownloaderRuns.AbortLeaves`).
- Two file keys can share one URL (`FileObjects.SharedUrl`), and then an update
  can end while its request is still waiting (`Files.MatchExactly`,
  `FileObjects.KeysMatchExactly`).
- Versions stored for a file `a_b`, or `A`, are listed as versions of `a`
  (`FileCache.OwnVersionsExactly`).
- With vendor number 0 the order of the reader table can decide the lookup
  (`ReaderTable.VirtualVendor`).

## Model

| member | source | states |
|---|---|---|
| `Rewriter.PatchStream` | libs/patch.py:1211-1269 | for every source and every list of hunks, markers and overlaps included, the generator yields `Patched`, which `PatchedBytes.PatchedAlways` determines byte for byte |
| `Rewriter.PatchedIsExactSplice` | libs/patch.py:1211-1269 | for placed plain hunks within the file, every line outside the hunks and every context line of the output is the source's own, byte for byte |
| `Rewriter.PatchedIsSplice` | libs/patch.py:1211-1269 | the splice theorem: when every hunk matches, the output, line ends aside, is the source with each source side replaced by the target side |
| `Rewriter.PatchedLength` | libs/patch.py:1211-1269 | when the headers count the texts, the output has as many lines as the source plus, for each hunk, `linestgt` minus `linessrc` |
| `Rewriter.BlockIsTarget` | libs/patch.py:1249-1266 | where the source side stands, what one hunk writes is its target side, line ends aside |
| `PatchedBytes.InsertedBytes` | libs/patch.py:1225-1266 | for any source and any number of lines read, told from these lines alone: an inserted line is its content with their end if one end occurs in them and no other, and the patch's own bytes if several occur or none |
| `PatchedBytes.AdaptsOne` | libs/patch.py:1225-1266 | that leaves one way to insert, so the bytes of every inserted line are determined |
| `PatchedBytes.PatchedExactly` | libs/patch.py:1211-1269 | for hunks within the file the output is, byte for byte, the source outside the hunks and on context lines, and such inserted lines |
| `PatchedBytes.PatchedAlways` | libs/patch.py:1211-1269 | the same for every source and every list of hunks: a marker is a line to be removed, a hunk that starts too early starts behind the one before, and a file that is too short goes on with nothing |
| `PatchedBytes.SettledFits` | libs/patch.py:1240-1247 | every list of hunks, settled like this, fits a file that is long enough |
| `LineEnds.InsertedEnd` | libs/patch.py:1226-1266 | in a file with one kind of line end an inserted line gets it exactly when a source line was read before or the patch line has it already |
| `LineEnds.KeepsLineEnds` | libs/patch.py:1211-1269 | patching a file with one kind of line end gives such a file if and only if the lines inserted before the first source line carry that end |
| `LineEnds.RevertRestoresBytes` | libs/patch.py:1137-1155 | on a file with one kind of line end, for every patch: apply and then revert gives back the same bytes if and only if every line that is put back gets the file's end, which the ends read so far decide, the lines inserted at the very front included, and otherwise the line's own end |
| `LineEnds.OneEndRestores` | libs/patch.py:1137-1155 | when all lines of the patch have one end: the bytes are restored if and only if that is the file's end, or the patch starts below line 1, or with a context line, or by inserting and then removes nothing at all |
| `LineEnds.KeptEndsComeBack` | libs/patch.py:1137-1155 | a patch that keeps the file's line ends: the bytes are restored if and only if the reversed patch keeps them too |
| `Revert.ReverseTwice` | libs/patch.py:1137-1149 | reversing twice is the identity on hunks |
| `Revert.ReversedExactly` | libs/patch.py:1137-1149 | a reversed hunk has its ranges swapped and `+` and `-` exchanged line by line, and is otherwise the same: descriptions, marks, contexts and markers stay |
| `Revert.FlipSides` | libs/patch.py:1143-1149 | reversing a text swaps its source side and its target side |
| `Revert.ReversedMeansInverse` | libs/patch.py:1137-1149 | the edits a reversed patch stands for are the inverse edits |
| `Revert.RevertUndoesApply` | libs/patch.py:1137-1155 | after patching a matching file with placed, plain, consistent hunks, the reversed hunks are placed and match the output, and patching with them gives the source back, line ends aside |
| `Edits.InverseApplies` | libs/patch.py:1151-1155 | on any spliced document the inverse edits are in order and find their old blocks |
| `Edits.SpliceBack` | libs/patch.py:1151-1155 | splicing a document and then splicing the inverse edits gives the document |
| `PatchObjects.HunkObject.Reverse` | libs/patch.py:1140-1149 | the in-place rewriting of one hunk swaps ranges and tags and nothing else |
| `PatchObjects.ReverseHunks` | libs/patch.py:1137-1149 | the loop reverses every hunk object as often as it stands in the list |
| `PatchObjects.DeepCopy` | libs/patch.py:1153-1153 | the copy has the same values in new objects, and the same object in two places exactly where the original has |
| `PatchObjects.Reverted` | libs/patch.py:1151-1155 | what `revert` applies is the patch with every hunk reversed as often as it stands in the list, and the patch set it was called on is unchanged |
| `PatchObjects.DistinctOnce` | libs/patch.py:1137-1149 | when no object stands in the list twice, this is the reversed patch |
| `Validator.Validate` | libs/patch.py:1034-1094 | for every file and every non-empty list of hunks the streaming loop gives the verdict of the step function: crash, or patchable, number of valid hunks, premature end |
| `Validator.SpacedVerdict` | libs/patch.py:1034-1094 | for hunks apart from each other, empty source sides allowed: no crash; patchable if and only if every hunk is present or the loop overcounts; premature end if and only if the file ends inside or before the last hunk and agrees so far |
| `Validator.WellPlacedVerdict` | libs/patch.py:1034-1094 | for well-placed hunks the one-pass check is its declarative meaning: patchable if and only if every hunk matches |
| `Validator.OvercountsExactly` | libs/patch.py:1079-1094 | for hunks apart from each other: on every readable file the verdict is "patchable" exactly when every hunk is present, if and only if the last hunk expects a source line or no hunk expects any |
| `Validator.WrongFile` | libs/patch.py:1079-1094 | for every other such list of hunks, a readable file whose verdict is "patchable" although a hunk's source side does not stand there |
| `Crashes.CrashesExactly` | libs/patch.py:1045-1094 | for every list of hunks the loop crashes on no file if and only if a search over starts and source sides, each compared line being free to agree or not, finds no way to a crash; for texts made of lines readable files are enough to tell |
| `Crashes.CrashingFile` | libs/patch.py:1045-1094 | whenever that search finds a way, a file on which the loop reads past the expected lines; it is readable when the texts consist of lines |
| `Crashes.AscendingCrashes` | libs/patch.py:1052-1062 | for ascending starts, as in every diff, the search finds a way if and only if two hunks overlap |
| `Crashes.OverlapCrashes` | libs/patch.py:1052-1062 | and then already a file that holds the first of two overlapping hunks crashes |
| `Validator.ScanCounts` | libs/patch.py:1079-1094 | for all hunks, patchable if and only if all hunks were counted valid, never more than there are |
| `Checker.MatchFileHunks` | libs/patch.py:1172-1208 | for every file and every list of hunks, true if and only if the kept sides stand one after the other, each from its target start or, if reading is past it, from where reading is |
| `Checker.MatchText` | libs/patch.py:1190-1202 | one hunk's loop succeeds if and only if its kept lines stand at the read position, and then reading is just behind them |
| `Checker.CheckIsTargetsStand` | libs/patch.py:1172-1208 | with target ranges in order the check is true if and only if every target side stands at its target start |
| `Checker.PatchedIsRecognised` | libs/patch.py:1172-1208 | what the rewriter made of a matching file is recognised as already patched |
| `Checker.KeptIsTarget` | libs/patch.py:1190-1191 | on plain texts the lines the check keeps are the target side |
| `Checker.RecognisedWithoutMarker` | libs/patch.py:1172-1208 | when the last hunk ends with the file, as its marker says, and earlier hunks have none: what the rewriter made of a matching file is recognised as already patched if and only if that hunk has no `\ No newline` marker |
| `Checker.MarkerIsNotRecognised` | libs/patch.py:1190-1200 | the smallest case of this: the file `a` patched to `b`, neither with a line end, is not recognised |
| `Apply.ApplyFile` | libs/patch.py:1033-1118 | validation, the "already patched" check, the test for an existing backup and rewriting of one file give the specified outcome and error count |
| `Apply.ApplySpaced` | libs/patch.py:1033-1118 | for hunks apart from each other, empty source sides allowed, and any file, the exact outcome and error count: rewritten without error if and only if every hunk is present or the validator overcounts, and the backup's name is free |
| `Apply.ApplyMeans` | libs/patch.py:1033-1118 | with well-placed hunks a file is rewritten without error if and only if every hunk matches and the backup's name is free; when no hunk is missing but the name is taken there is one error; otherwise the file is reported as already patched if and only if the check says so |
| `Apply.NeverWrong` | libs/patch.py:1033-1118 | for which hunks a readable file is never rewritten although a hunk is not there: if and only if the last hunk expects a source line, or none does |
| `Apply.ApplyThenRevert` | libs/patch.py:1151-1155 | applying and reverting both rewrite the file without error, and the file is back, line ends aside |
| `Apply.ApplyTwice` | libs/patch.py:1098-1105 | a second run on a patched file never reports the source as different |
| `ParsedPatches.HeadersTell` | libs/patch.py:653-677 | for hunks of a successful parse without markers, placement and consistency can be read off the numbers in the hunk headers |
| `ParsedPatches.ParsedPatchApplies` | libs/patch.py:1033-1118 | for any bytes that parse without error, any patch in them without markers whose headers are placed and consistent, and any file: the file is rewritten without error if and only if every hunk matches |
| `ParsedPatches.ParsedPatchRoundTrip` | libs/patch.py:1151-1155 | and then the file has grown as the headers declare, is recognised as patched, and reverting restores it, line ends aside |
| `ParsedPatches.PrintedPatchSameEffect` | libs/patch.py:1287-1296 | a patch set that is printed and parsed again matches the same files and makes the same of them, line ends aside |
| `PatchPrinter.HunkLineReads` | libs/patch.py:652-677 | the printed header of any hunk is read back with the same four numbers |
| `PatchPrinter.HeaderForms` | libs/patch.py:652-677 | so is each of the four forms of a header, with either count there or left out, which stands for 1, and with any description |
| `PatchSpelling.HeaderExactly` | libs/patch.py:652-677 | a line is read as a hunk header if and only if it is written as one, and then with the numbers and the description that are written |
| `PatchSpelling.NameExactly` | libs/patch.py:578-593 | the name on a `---` or `+++` line is what stands up to the first tab, white space at its ends aside, or the null device if and only if a date of the epoch and a full hour stand behind the tab |
| `PatchSpelling.ToIntPlaces` | libs/patch.py:671-675 | digits count by their place |
| `PatchPrinter.Dump` | libs/patch.py:1287-1296 | the nested loops print the lines of all patches |
| `PatchPrinter.ParseDump` | libs/patch.py:438-706 | for every well-formed patch set, whatever its body lines look like, parsing the printed lines succeeds and rebuilds headers, names, ranges and texts |
| `PatchPrinter.ParseDumpedBytes` | libs/patch.py:1287-1296 | the same when the printed bytes are split into lines again |
| `PatchPrinter.ParseDumpParse` | libs/patch.py:438-706 | printing what any successful parse has built and parsing it gives the same patches |
| `PatchGrammar.ParseExactly` | libs/patch.py:365-706 | for every stream and every list of patches: the parse succeeds and gives these patches if and only if the stream spells them, by a grammar of header lines, replaced source names, names, hunk headers in any form, body lines with empty ones for empty context lines, and trailing lines |
| `PatchFaults.InvalidExactly` | libs/patch.py:479-536 | for every stream, with errors or without: a hunk of the result is marked invalid if and only if its text is not complete under its header |
| `PatchFaults.ErrorsExactly` | libs/patch.py:450-706 | for every stream that keeps one region active: the number of errors is that of the faults of its lines, each told from the region and the line, and of its end |
| `ParserFacts.StepDisciplined` | libs/patch.py:438-686 | every line keeps the flag discipline, and no branch marked unreachable, dead or to be reviewed is taken |
| `ParserFacts.ParserDiscipline` | libs/patch.py:417-450 | after any lines one region is active, unless the last header declared no lines; the target name is unset, the source name is set exactly in the names region; and no dead branch follows on any line |
| `ParserFacts.SingleExactly` | libs/patch.py:417-450 | for every stream: exactly one region is active after each of its lines if and only if no line that is none for a hunk comes while a hunk that declares no lines is open |
| `ParserFacts.SingleFlag` | libs/patch.py:417-450 | so a stream without a hunk header that declares no lines never has two regions active |
| `PatchPrinter.TwoFlags` | libs/patch.py:507-532 | and the shortest streams that have: names, a header that declares no lines, and any line that is none for a hunk |
| `ParserObject.PatchSet.Parse` | libs/patch.py:365-728 | the main loop with flags and counters gives, for every stream, the result, the patches and the error count of the step function |
| `WellFormed.FileNameClean` | libs/patch.py:578-593 | a name that was read has no white space at its ends, no tab and no line feed, so that it can be printed and read again |
| `WellFormed.RunClean` | libs/patch.py:438-686 | as long as no error was counted, everything built so far is well formed |
| `WellFormed.ErrorFreeIsWellFormed` | libs/patch.py:479-728 | a successful parse has built at least one patch, each with both names and at least one hunk, each hunk valid, its counts equal to the declared ranges and its text ending at the first line where they are |
| `PathNames.XStrip` | libs/patch.py:167-180 | the loop ends and gives the name without its absolute prefixes |
| `PathNames.NormalizeName` | libs/patch.py:810-852 | prefix letter, normal form, parent references and absolute prefixes, in this order |
| `PathNames.NormalisedName` | libs/patch.py:823-852 | a normalised name is the null device, one dot or two, or relative with proper components and no parent reference |
| `PathNames.NormalisedIsSafe` | libs/patch.py:823-852 | every normalised name is the null device, or relative and without a leading `../` |
| `PathNames.SplitAll` | libs/patch.py:231-232 | on a path without leading slash the loop ends with its pieces |
| `PathNames.PathStrip` | libs/patch.py:228-233 | the first pieces are taken off, all of them when there are too few |
| `PathNames.PiecesOfName` | libs/patch.py:228-233 | the pieces of a normalised name are its components |
| `PathMeaning.PiecesExactly` | libs/patch.py:228-233 | for every relative path the pieces are its components without empty ones, and an empty name at the end when the path ends in a slash |
| `PathMeaning.NormPathWalks` | libs/patch.py:160-165 | `normpath` leads where the path led, from every folder deep enough, or from the root when the path is absolute |
| `PathMeaning.CrossNormWalks` | libs/patch.py:160-165 | so does `xnormpath` for names without backslashes |
| `PathMeaning.CrossNormStays` | libs/patch.py:160-165 | a path of the normal shape is left as it is |
| `PathMeaning.NormalNameStays` | libs/patch.py:823-852 | a relative name of ordinary components stays as it is |
| `PathMeaning.ParentsOff` | libs/patch.py:823-852 | parent references in front go and nothing else |
| `PathMeaning.SlashesOff` | libs/patch.py:823-852 | slashes in front go and nothing else, but for the null device |
| `PathMeaning.DriveOff` | libs/patch.py:167-180 | a drive in front goes with its slash and nothing else |
| `PathMeaning.DriveExactly` | libs/patch.py:147-158 | a normal name begins with a drive if and only if its first component is a letter, a digit or an underscore and a colon, and another one follows |
| `PathNames.AbsoluteNeverEnds` | libs/patch.py:231-232 | on a path with leading slash the loop's guard holds and its step gives such a path again |
| `Downloader.DownloaderObject.StartDownloadIfPending` | src/file_provider/Downloader.cpp:32-52 | the oldest request goes into a free slot, otherwise nothing changes |
| `Downloader.DownloaderObject.ScheduleDownload` | src/file_provider/Downloader.cpp:24-29 | the request goes to the end of the queue and starts if the slot is free |
| `Downloader.Verdict` | src/file_provider/Downloader.cpp:80-131 | aborted if and only if the reply was; success if and only if status 200, no error, data and no abortion; "not modified" if and only if status 304 and no abortion; file not found if and only if status 404 and no abortion; other error if and only if another status without error or abortion |
| `Downloader.DownloaderObject.Outcome` | src/file_provider/Downloader.cpp:80-131 | the branches on abortion, status, error and data lead to the signal and code of `Verdict` |
| `Downloader.DownloaderObject.OnNetworkReplyFinished` | src/file_provider/Downloader.cpp:70-132 | one terminal signal, of the kind that `Outcome` finds; whatever the handlers schedule or abort meanwhile goes through the queue; then the slot is freed and the next request starts |
| `Downloader.DownloaderObject.AbortUrl` | src/file_provider/Downloader.cpp:158-184 | the running reply for the URL finishes as aborted, with any handlers, then every request waiting for it is dropped with one failure each; true if and only if there was something to abort |
| `Downloader.DownloaderObject.EraseIf` | src/file_provider/Downloader.cpp:171-181 | the loop drops exactly the URL's requests, keeps the others in order and signals once for each dropped one |
| `Downloader.DownloaderObject.HandleAll` | src/file_provider/Downloader.cpp:70-78 | commands that arrive during an emission find the slot taken |
| `Downloader.RemovalsOf` | src/file_provider/Downloader.cpp:171-183 | something was removed if and only if the URL was waiting, and then it waits no more |
| `DownloaderRuns.FinishKeeps` | src/file_provider/Downloader.cpp:70-132 | the invariant holds again after a reply has finished, with any handlers re-entering |
| `DownloaderRuns.EraseKeeps` | src/file_provider/Downloader.cpp:171-181 | dropping requests keeps the order of the others and drops no request twice |
| `DownloaderRuns.NextKeeps` | src/file_provider/Downloader.cpp:24-184 | every event leads from a quiescent state with the invariant to another |
| `DownloaderRuns.Conservation` | src/file_provider/Downloader.cpp:24-198 | after every run: requests scheduled = signals emitted + waiting + in flight; no request has two terminal signals; starts follow the schedule but for dropped requests, finishes follow starts; a non-empty queue means a busy slot |
| `DownloaderRuns.AbortLeaves` | src/file_provider/Downloader.cpp:158-184 | what an abort leaves of its URL, whatever the handlers of the cut-off reply ask for: one request if and only if the one in flight was for it and the first one waiting after the handlers is |
| `DownloaderRuns.AbortLeavesAlone` | src/file_provider/Downloader.cpp:158-184 | without handlers: if and only if the one in flight and the next waiting were both for it |
| `DownloaderSignals.SignalsTell` | src/file_provider/Downloader.cpp:24-198 | after every run: each signal is about a request for its URL, the signals of finished replies have, in order, the kinds in which the replies ended, each request dropped from the queue was told to be aborted, and the requests are exactly those asked for, by callers and by handlers |
| `DownloaderSignals.FinishTells` | src/file_provider/Downloader.cpp:70-132 | a finished reply adds one signal, with its request's number and URL and the kind in which it ended |
| `DownloaderSignals.HandlersDecide` | src/file_provider/Downloader.cpp:70-78 | when the handlers of a reply are done, the queue holds what waited before and no handler aborted, and what a handler asked for and no later one aborted, in this order |
| `Files.HappenBalances` | src/file_provider/UpdatableFile.cpp:152-209 | every update, answer, abort or mark keeps the balance of running updates and unanswered requests |
| `Files.FinishBalances` | src/file_provider/UpdatableFile.cpp:152-209 | after an answer, with receivers that update and mark files meanwhile, the balance holds and the answered URL is no longer outstanding |
| `Files.UpdatesMatchDownloads` | src/file_provider/UpdatableFile.cpp:349-363 | after every run in which no two files with a name share a URL: an update runs if and only if its URL is unanswered, which it is exactly once; nothing else is; and a drained downloader leaves no file updating |
| `Files.DirtyAfter` | src/file_provider/UpdatableFile.cpp:152-209 | the dirty marker is gone after success and "not modified" and kept after a failure |
| `Files.SharedUrlBreaksMatch` | src/file_provider/UpdatableFile.cpp:165-209 | for any files of which two with names share a URL: after both were updated, the first answer ends both updates while one request for the URL is left to nobody |
| `Files.MatchExactly` | src/file_provider/UpdatableFile.cpp:152-209 | the match of updates and downloads holds after every run if and only if no two files with names share a URL |
| `FileMarkers.NextInRuns` | src/file_provider/UpdatableFile.cpp:152-209 | at any point of any run, for any file and whatever happens next: which updates begin and end, and which dirty markers are set and cleared, with receivers that update and mark files meanwhile |
| `FileMarkers.RunningExactly` | src/file_provider/UpdatableFile.cpp:152-209 | an update begins when it is asked for and ends with the answer or an abort for its URL, and only then |
| `FileMarkers.DirtyExactly` | src/file_provider/UpdatableFile.cpp:366-418 | a marker is set when somebody marks a file that has a name and a cache folder, cleared when the server has answered, and only then |
| `FileMarkers.AbortEnds` | src/file_provider/Downloader.cpp:158-184 | after an abort no update of the URL runs and none of its requests is left |
| `FileObjects.UpdatableFile.Update` | src/file_provider/UpdatableFile.cpp:349-363 | an update that is not running connects the file and schedules its URL; otherwise neither object changes |
| `FileObjects.UpdatableFile.OnDownloadSuccess` | src/file_provider/UpdatableFile.cpp:165-185 | a signal for the file's own URL stores the data under its timestamp and ends the update, with its own signal exactly when the version is there; one for another URL changes neither file nor folder |
| `FileObjects.UpdatableFile.OnDownloadFailed` | src/file_provider/UpdatableFile.cpp:188-196 | a failure for the file's own URL ends the update and keeps the dirty marker |
| `FileObjects.UpdatableFile.OnDownloadUnnecessary` | src/file_provider/UpdatableFile.cpp:199-209 | "not modified" for the file's own URL ends the update and clears the dirty marker |
| `FileObjects.UpdatableFile.LookupPath` | src/file_provider/UpdatableFile.cpp:271-296 | the path of the newest entry in the section's cache folder, of the resource or by default, in this order; a dirty file's update is started, another's is not |
| `FileObjects.UpdatableFile.ForEachLookupPath` | src/file_provider/UpdatableFile.cpp:299-331 | the first valid candidate, from newest cache entry to default, ends the search, none is accepted if none is valid; a dirty file's update is started |
| `FileObjects.MarkAllDirty` | src/configuration/ReaderConfiguration.cpp:45-56 | all icons of the table are marked dirty, one that stands in it twice like any other |
| `FileObjects.SharedUrl` | src/file_provider/UpdatableFile.cpp:79-85 | two different keys have one URL if and only if one of them has no section and its name spells the other key |
| `FileObjects.KeysMatchExactly` | src/file_provider/UpdatableFile.cpp:79-85 | for the files of a provider, one for each key: it holds after every run if and only if no key without section has a name that spells another key |
| `FileObjects.FileProvider.GetFile` | src/file_provider/FileProvider.cpp:26-48 | a known key gives the stored object with the new default path and an unchanged state; a new one gives a new object, stored under its key unless it has no name |
| `FileCache.CachePath` | src/file_provider/UpdatableFile.cpp:66-76 | for every listing of the folder the result is the entry that the filter `name_*` lets through, ignoring case, and that no other such entry exceeds, or none |
| `FileCache.NewestUnique` | src/file_provider/UpdatableFile.cpp:66-76 | there is one such entry, so the order of the listing is irrelevant |
| `FileCache.CacheFolder.WriteDataToFile` | src/file_provider/UpdatableFile.cpp:212-238 | an existing file is kept, a partial one removed, and true means that the file is there and complete |
| `FileCache.StoreKeeps` | src/file_provider/UpdatableFile.cpp:165-185 | no run of downloads, for whichever names, changes or removes a stored version |
| `FileCache.CacheMonotone` | src/file_provider/UpdatableFile.cpp:66-76 | along every run of downloads the version in use never moves down and keeps its first content |
| `FileCache.NewestIsUsed` | src/file_provider/UpdatableFile.cpp:165-185 | a completely stored version above every entry that is listed for the name is the one used next, with the data that was stored |
| `FileCache.NewestOwnIsUsed` | src/file_provider/UpdatableFile.cpp:165-185 | in a folder without intruding names it is enough that its timestamp is above those of the name's own versions |
| `FileCache.LaterIsAbove` | src/file_provider/UpdatableFile.cpp:66-76 | a timestamp that tells a later time is above one that tells an earlier time |
| `FileCache.LatestIsUsed` | src/file_provider/UpdatableFile.cpp:66-76 | so in a folder without intruding names a version stored with the latest time is used next, with the data that was stored |
| `FileCache.StoredIsLookedUp` | src/file_provider/UpdatableFile.cpp:271-296 | after the complete storing of a version above every listed entry, `lookupPath` gives the path of this version in the section's folder, which holds its data |
| `FileCache.OwnVersionsExactly` | src/file_provider/UpdatableFile.cpp:66-76 | after every run of downloads into an empty folder the version in use for a name is one of its own, if and only if no other name in the folder intrudes: is the same but for the case, or continues it, in whatever case, with an underscore |
| `FileCache.ListedVersion` | src/file_provider/UpdatableFile.cpp:69-70 | a stored version of a name is listed for another one if and only if it intrudes |
| `FileCache.NamesInterfere` | src/file_provider/UpdatableFile.cpp:66-76 | when `more` starts with a small letter, every version of `name_more` is listed for `name` and exceeds every version of its own |
| `FileCache.LookupIsFirstCandidate` | src/file_provider/UpdatableFile.cpp:271-331 | a single lookup gives the first candidate of the validating lookup, or the empty path when there is none |
| `FileCache.CandidatesInOrder` | src/file_provider/UpdatableFile.cpp:271-331 | the candidates are the cache, the resource and the default path, in this order, as far as there are any |
| `FileCache.LowerIgnoresCase` | src/file_provider/UpdatableFile.cpp:69-70 | two names are the same to the filter if and only if they differ in case only |
| `SharedInstances.CreateKeeps` | src/global/Env.h:328-333 | an instance is created only when no reference of its class is left, and nobody else has one |
| `SharedInstances.InsertKeeps` | src/global/Env.h:334-334 | recording the new instance keeps the invariant although the old entry is overwritten |
| `SharedInstances.PromoteKeeps` | src/global/Env.h:322-329 | turning the weak reference into a strong one, under either lock, gives the recorded instance or proves it dead |
| `SharedInstances.StepKeeps` | src/global/Env.h:314-339 | every step of every thread keeps locks and references consistent |
| `SharedInstances.NeverSplit` | src/global/Env.h:314-339 | in every interleaving of any number of threads all live references of a class are to one instance, the one the map records whenever the write lock is free |
| `SharedCalls.CallGives` | src/global/Env.h:314-339 | in every interleaving: a call that may spawn leaves its caller with exactly one reference more, of its class and the one the map records then; one that may not gives a reference if and only if an instance was alive as it looked; and an instance that was found is the one given |
| `SharedCalls.InsideKeeps` | src/global/Env.h:314-339 | inside a call nothing but a gift from another thread changes what a thread has |
| `SharedCalls.CreatedIsNew` | src/global/Env.h:328-333 | what is created is none of the instances that anybody has or the map records |
| `SharedCalls.NeverStuck` | src/global/Env.h:314-339 | there is no deadlock: while a thread is inside a call some thread inside one can go on |
| `SharedCalls.CallAdvances` | src/global/Env.h:314-339 | and every step brings its call nearer to its end |
| `Singletons.Env.CreateSingleton` | src/global/Env.h:114-144 | the constructor runs, with all it fetches, before the singleton is registered |
| `Singletons.Env.GetOrCreateSingleton` | src/global/Env.h:147-160 | first use creates, later use returns the pointer whether null or not, re-creation creates again |
| `Singletons.Env.Init` | src/global/Env.h:275-287 | the list is copied, cleared and run entry by entry |
| `Singletons.FetchSound` | src/global/Env.h:114-160 | first use of a singleton, with whatever it fetches, keeps the list duplicate-free and every dependency before its user |
| `Singletons.FetchBuilds` | src/global/Env.h:114-160 | first use builds what the singleton needs, directly or not, and nothing else, and every construction is registered |
| `Singletons.InitializeMeans` | src/global/Env.h:275-287 | every entry is built once, in list order, the same list results, and some constructor sees a null pointer if and only if the list is not in dependency order |
| `Singletons.LifetimeSound` | src/global/Env.h:114-160 | over any sequence of uses and restarts nobody ever sees a null pointer and every restart builds each singleton exactly once |
| `Headings.FileHeadingHierarchy` | cmake/pandoc/preprocess_rst.py:38-48 | the loop collects the heading characters in order of appearance |
| `Headings.HierarchyFacts` | cmake/pandoc/preprocess_rst.py:38-48 | every heading's character is in the hierarchy, and none twice |
| `Headings.HierarchyOrder` | cmake/pandoc/preprocess_rst.py:38-48 | each character of the hierarchy stands in a heading before which all headings have one of the characters before it |
| `Headings.ConvertHierarchy` | cmake/pandoc/preprocess_rst.py:51-68 | the loop converts all lines, or fails at the first level off the main hierarchy |
| `Headings.ConvertAllMeans` | cmake/pandoc/preprocess_rst.py:51-68 | conversion succeeds if and only if every line converts, and then line by line |
| `Headings.ConvertLineMeans` | cmake/pandoc/preprocess_rst.py:58-67 | headings stay headings of the same length, text stays text, and local level k becomes the starting level plus k |
| `Headings.SameCharacter` | cmake/pandoc/preprocess_rst.py:51-68 | two headings get the same character if and only if they had the same one |
| `Headings.ConvertedHierarchy` | cmake/pandoc/preprocess_rst.py:38-68 | a file converts if and only if its levels fit, and the recomputed hierarchy is the main one from the starting level on |
| `RstLines.HeaderExactly` | cmake/pandoc/preprocess_rst.py:26-35 | a line is a heading if and only if it is three or more of one heading character and white space behind them |
| `RstLines.LineExactly` | cmake/pandoc/preprocess_rst.py:346-376 | a line is a heading, a toctree or an include directive, in this order of precedence, exactly when it is written as one, a heading stands for the level of its character, and every other line keeps its text but for white space at its end |
| `RstLines.IncludeExactly` | cmake/pandoc/preprocess_rst.py:236-236 | the path of an include directive is what stands behind it, white space at the ends of the line aside |
| `RstLines.CaptionExactly` | cmake/pandoc/preprocess_rst.py:267-279 | so is the value of a caption option |
| `RstLines.CaptionIsLast` | cmake/pandoc/preprocess_rst.py:267-287 | the caption of a toctree is that of its last caption option before the blank line, and there is none if no option is one |
| `RstLines.EntryExactly` | cmake/pandoc/preprocess_rst.py:288-297 | an entry names the file with the extension `.rst`, and a blank line ends the entries |
| `RstLines.ResolveInFolder` | cmake/pandoc/preprocess_rst.py:212-222 | a name is resolved in the folder of the file that names it |
| `RstLines.ResolveElsewhere` | cmake/pandoc/preprocess_rst.py:212-222 | a file without a folder names others as they are, and an absolute name stays |
| `Flatten.Script.FlattenFiles` | cmake/pandoc/preprocess_rst.py:303-376 | reading, converting and flattening one file gives the specified lines, flag and failure |
| `Flatten.HeadingsDeep` | cmake/pandoc/preprocess_rst.py:225-376 | over the whole include tree, every heading of the output is at the starting level or deeper, or is the text of a caption |
| `Flatten.NoHeadingShallower` | cmake/pandoc/preprocess_rst.py:303-376 | no heading of the flattened text is shallower than the level it was flattened at, when no caption reads like a heading |
| `Flatten.OwnTextKept` | cmake/pandoc/preprocess_rst.py:346-376 | the lines outside the directives all appear in the output, in their order |
| `Flatten.FileTextKept` | cmake/pandoc/preprocess_rst.py:303-376 | a file that flattens was readable and convertible, and its own converted text is kept |
| `FlattenText.FileFlattens` | cmake/pandoc/preprocess_rst.py:225-376 | flattening is expanding the tree of files into lines, gaps and places of toctrees, and writing these out; with the same failures, in the same order |
| `FlattenText.TreeTextKept` | cmake/pandoc/preprocess_rst.py:225-376 | the text of the whole tree of files, in the order of lines and directives, with one empty line behind each included file, appears in the output |
| `FlattenText.ReachedStands` | cmake/pandoc/preprocess_rst.py:242-297 | for every file that is reached, through however many others: its own flattened text, at the level where it is included, stands in the output with one empty line behind it |
| `FlattenText.ReachedTextKept` | cmake/pandoc/preprocess_rst.py:242-297 | so the own text of every file that is reached, converted to that level, appears in the output |
| `FlattenText.ContentsOnce` | cmake/pandoc/preprocess_rst.py:262-265 | the table of contents is written once, at the first toctree that is met, and whether it was written before changes nothing else |
| `FlattenDepth.DepthIrrelevant` | cmake/pandoc/preprocess_rst.py:212-222 | a run that does not exhaust the depth gives what every deeper run gives |
| `FlattenDepth.AcyclicEnds` | cmake/pandoc/preprocess_rst.py:225-376 | when no file includes itself, directly or not, the recursion ends: any depth above the file's rank is enough and gives the same result |
| `PatchSeries.SplitPatch` | ci/import.py:69-83 | the pieces concatenate to the file, the changeset marker is only ever a first line, and every piece but the first starts with it |
| `PatchSeries.PiecesUnique` | ci/import.py:69-83 | there is exactly one way to cut a file like that |
| `PatchSeries.PatchProcessor.Apply` | ci/import.py:88-112 | one run imports, and records, everything up to the first patch not applied before; without splitting, or with nothing pending, everything uncommitted |
| `PatchSeries.UpToPendingMeans` | ci/import.py:94-112 | for any series and any applied list: a beginning of the series is imported and recorded, each patch committed if it was applied before, up to the first one that was not, or all of it |
| `PatchSeries.SplitRunProgress` | ci/import.py:44-112 | one run from an applied prefix: the prefix grows by one patch, or stays with `--repatch`, all but its last patch are committed, and a fully applied series is imported uncommitted |
| `PatchSeries.RunsFrom` | ci/import.py:44-112 | over any runs the applied list remains a prefix of the series |
| `PatchSeries.SeriesProgress` | ci/import.py:44-112 | after a first run and any further ones the applied prefix has as many patches as there were runs without `--repatch` after the first, plus one, up to the whole series |
| `ReaderTable.GetProductIds` | src/configuration/ReaderConfigurationParser.cpp:116-153 | the set of all numbers of the array, or the one number, or a failure at the first element that is none |
| `ReaderTable.ParseEntryMeans` | src/configuration/ReaderConfigurationParser.cpp:156-204 | an element gives a known reader if and only if it has a vendor number, product numbers only and at least one, a name and a driver URL; and then the reader's fields are those of the element |
| `ReaderTable.HasUniqueId` | src/configuration/ReaderConfigurationParser.cpp:268-294 | true if and only if the reader clashes with none of the list |
| `ReaderTable.Parse` | src/configuration/ReaderConfigurationParser.cpp:207-258 | all entries if and only if each is a known reader and no two clash, otherwise none |
| `ReaderTable.ReaderConfiguration.ParseReaderConfiguration` | src/configuration/ReaderConfiguration.cpp:18-42 | the table is replaced exactly when the file is there and an unambiguous, non-empty list |
| `ReaderTable.ReaderConfiguration.GetReaderConfigurationInfoById` | src/configuration/ReaderConfiguration.cpp:97-108 | the loop gives the first entry for the id, or the unknown reader |
| `ReaderTable.LookupFinds` | src/configuration/ReaderConfiguration.cpp:97-108 | the lookup gives a known reader if and only if some entry is for the id, and then one that is |
| `ReaderTable.UniqueForVendor` | src/configuration/ReaderConfigurationParser.cpp:268-294 | in an accepted table at most one entry is for an id with a real vendor |
| `ReaderTable.UnambiguousExactly` | src/configuration/ReaderConfigurationParser.cpp:268-294 | a table is accepted as unambiguous if and only if all names differ, all patterns that are there differ, and no real vendor's product has two entries |
| `ReaderTable.OrderDoesNotMatter` | src/configuration/ReaderConfiguration.cpp:97-108 | for a real vendor every reordering of an accepted table gives the same answer |
| `ReaderTable.VirtualVendor` | src/configuration/ReaderConfigurationParser.cpp:277-280 | for vendor number 0 the answer is the same for every order if and only if at most one entry is for the id |

## Left out

From `libs/patch.py`:

- Apply.ApplyFile: the names are given, and a file marked as deleted is not removed.
- Files on disk: the backup itself (whether its name is taken is a parameter), `.invalid` files, permissions, changing directories, temporary files, loading from URLs, looking up names on disk, choosing which of source and target name exists.
- Logging, options, `diffstat`, `decode_text`, the counters of warnings and of line ends in a patch: they decide nothing.
- Fuzzy matching, `can_patch` and the type detection: heuristics. The type is a parameter of the name normalisation.
- Rewriter.PatchedIsSplice: asks for plain texts, because a marker line is a source line to the rewriter, which then drops one line too many; `PatchedBytes.PatchedAlways` says what is written then.
- Revert.RevertUndoesApply: gives the lines without their ends; `LineEnds.RevertRestoresBytes` says exactly when the ends are back too, for files with one kind of line end.
- Validator.SpacedVerdict: asks for hunks apart from each other; for other lists `Crashes.CrashesExactly` tells whether some file crashes, and on files that do not the verdict is the step function's without a declarative meaning.
- Checker.RecognisedWithoutMarker: asks that only the last hunk has markers and that it ends with the file, which is what a marker says; anywhere else the answer depends on which lines the file happens to hold.
- PatchLines.FileName: a date of the epoch with a time that has no colon raises an `IndexError` in the code; the model takes the name as it stands.
- PatchPrinter.Dump: prints what is meant; under Python 3 the code's concatenation of text and bytes fails. Descriptions of hunks are not printed by the code and so are not read back.
- PatchObjects.ReverseHunks: one list of hunks for all patches of the set.
- Ranges of zero lines follow the code, which inserts before the numbered line; section "Diff -u or -U Output Format" of POSIX.1-2017 `diff` numbers the line before.
- Bytes are characters; `posixpath.normpath` is modelled from its documented behaviour, as it is not in the repository.
- PathMeaning.CrossNormWalks: asks for a name without backslashes; one with backslashes is normalised before and after they become slashes, and the first time they are part of components.
- PatchFaults.ErrorsExactly: asks for a stream that keeps one region active, and `ParserFacts.SingleExactly` tells which do; with two regions active a line can be taken twice.
- PathNames.PathStrip: asks for a path without leading slash, for `PathNames.AbsoluteNeverEnds` shows that the loop does not end on others.

From `src/file_provider`:

- The network itself, progress signals and headers. A reply's end is an event with its outcome; `onMetadataChanged` only brings such an end about.
- The reply's `abort()` delivers `finished` synchronously.
- Downloader.DownloaderObject.AbortUrl: receivers of the failure signals that are emitted while the queue is being erased do nothing; a file that receives one only ends its update.
- Downloader.DownloaderObject.EraseIf: the same.
- Downloader.DownloaderObject.OnNetworkReplyFinished: status, error and presence of data come from the network and are parameters.
- FileObjects.UpdatableFile.OnDownloadSuccess: what receivers of the file's own signals do is in `Files`, on values: there the emission goes through the list of files.
- Files.UpdatesMatchDownloads: asks for different URLs of files with names; `Files.MatchExactly` shows that this is needed.
- FileCache.OwnVersionsExactly: timestamps are fourteen digits and a time zone without underscore, which is how they are formatted; file names are different on disk when they differ in case.
- FileObjects.UpdatableFile.Update: the timestamp of the newest cached version, which goes along with the request, is left out; the answer "not modified" is an event in any case.
- FileCache.CachePath: entries are ordered by their characters, which is what sorting by name does; case is ignored for ASCII letters only, names hold no wildcards of the filter, and dirty markers do not count as entries; timestamps are texts, so time zones play no part.
- Removing the dirty marker always succeeds; resources and the existence of folders are parameters; the provider's mutex is left out, one call at a time.

From `src/global/Env.h`:

- Mock hooks for tests, `createObject`, thread checks; the locks of Qt are taken as what they promise; a constructor that calls `getShared` itself.
- Singletons.Env.Init: every singleton was deleted before, as the code asserts; constructors have a fixed, acyclic list of dependencies.

From `cmake/pandoc/preprocess_rst.py`:

- Translations, placeholders, LaTeX, `inline_toc_header`, `parse_document`.
- Flatten.Script.FlattenFiles: the depth of inclusion is bounded by a parameter, any number, which `FlattenDepth` shows to be irrelevant without circles; a run on files that include each other in a circle ends in a failure here and in a recursion error there. Files are a map from resolved paths; white space is ASCII.

From `ci/import.py`:

- `clean`, the client commands, sorting of the files by number. The `applied` file is the list of its names.

From `src/configuration`:

- JSON, platform matching and driver URLs (an entry has a URL or none), filters, update signals.

Other parts of the repository:

- Card and eID protocols, diagnosis, user interface, Android and iOS code, the CI and store clients, finite tables such as `ECardApiResult` and `GlobalStatus`.
