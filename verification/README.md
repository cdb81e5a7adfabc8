# Verification of the document parsing server

A Dafny model of the parts of the server that hold real protocols, printers
with matching parsers, and list transformations, with proofs of what they
promise. `dafny verify dfyconfig.toml` checks the whole project.

| files | what they model |
|---|---|
| `ZipFormat`, `ZipArchive`, `ZipBytes`, `ZipWriter` | the one-pass ZIP writer over re-chunked output, a reader of its archives, and their bytes written out (PKWARE APPNOTE.TXT sections 4.3.7, 4.3.9, 4.3.12, 4.3.16 and 4.4.4) |
| `Strings`, `Entities`, `InlineMarkup`, `InlineParser`, `ParserLaws`, `InlineRoundTrip`, `RunMeaning`, `InlineTrim`, `StoredBlocks`, `DocxRuns` | the inline markup that the DOCX reader writes, the separate parser that reads it, and the block a paragraph is stored as |
| `VlmScheduler`, `SchedulerTrace` | the bounded request queue, its workers, counters and the per-task limiter, with cancellation at any wait; what the events of a run say on their own |
| `Tasks`, `TaskManager`, `TaskLifecycle`, `ManagerSteps`, `TaskTrace`, `TaskRecords`, `LeaseSafety`, `LeaseTrace`, `TaskPermits`, `CleanerPass` | the task table and its operations; requests, processors, result leases and the cleaner as one state machine, and what the events of its runs say |
| `PageWindows` | page windows over a PDF, pages and blocks that finish in any order |
| `Blocks`, `Attachment`, `Regroup`, `ListAbsorption`, `PagePieces`, `PageParts`, `PageAssembly`, `PageOrder`, `PageGroups`, `PagePlaces`, `PageBuilder` | assembling the blocks of a page |
| `ParagraphMerge`, `MarkdownEscape` | joining continued paragraphs in place; escaping Markdown |
| `Utf8`, `UploadStems` | unique stems under a byte limit |
| `Sheet`, `SheetTable`, `TableReader`, `SheetBlocks` | trimming a sheet, clipping its merges, the HTML table they give, a reader of its text, and the whole path from a sheet to its block |
| `StyleMap` | resolving a style through the styles it is based on |
| `Options`, `Numbers`, `Concat`, `Sums`, `Sorting`, `OfficeBlocks` | shared definitions |

Concurrent code is modelled by its atomic steps, and every interleaving of
steps is a run. Network answers, parser results, clocks, completion orders and
the pieces a reader yields are arbitrary: parameters, or choices left open.
Integers are unbounded; every 16-, 32- and 64-bit limit that the code tests or
that a field imposes is written out.

Results worth knowing beside the proofs:

- The request permit is dropped before the status changes, so the tasks shown
  as Processing are not bounded by `max_concurrent_requests`.
  `TaskPermits.ProcessingExceedsRequests` shows that they are exactly when
  `max_in_flight_tasks` is not larger.
- After fail-fast, requests whose callers are gone still run. They are counted
  in `SchedulerTrace.Fairness`, which bounds them by the per-task limit too.
- A ZIP stream cut short is still a prefix of the intended bytes, also when a
  name or size turns out not to fit (`ZipWriter.BuildZip`).
- A paragraph stored as an equation loses its tags but not its escape. Its LaTeX
  is the pushed formula exactly when one run is left and its formula holds none
  of `&`, `<`, `>` and `"` (`StoredBlocks.LatexIsFormula`). The formula `a<b` is
  stored as `a&lt;b`, and two formulas `x` and `y`, which one equation read in two
  text events gives, as `x</eq><eq>y` (`StoredBlocks.LatexFails`).
- The rows of a sheet count from the start of its used range and its merges from
  the start of the sheet, and nothing adds the one to the other. Merges cover
  their own cells exactly when the range starts at the first cell
  (`Sheet.ClipsAlignAtOrigin`).
- A merge that starts above or to the left of the trimmed box is dropped, not
  clipped (`Sheet.Clip`); its other cells become plain cells.
- Text already escaped is left alone by the Markdown escape; it changes a text
  exactly when some markup character in it is active
  (`MarkdownEscape.EscapingIsIdempotent`).

## Model

| member | source | states |
|---|---|---|
| ZipWriter.BuildZip | src/io/result_builder.rs:215-317 | for every list of sources, every way they split their bytes, a source error and a receiver that hangs up: success means the chunks join to bytes that stand literally as the format wants them, every record at its sum of lengths, and that read back to exactly the files in order; with no failure it succeeds exactly when every name, size, offset, central size and count is below its 16- or 32-bit limit; and on every outcome the chunks sent are at least 64 KiB but for the last, under 128 KiB, and join to a prefix of all that storing the files was to write |
| ZipWriter.StreamingZipWriter.AddReader | src/io/result_builder.rs:433-469 | an accepted file appends its local header, body and descriptor and one recorded entry with the right checksum, size and offset; a failure names the field that does not fit or the side that failed, and what was sent is a prefix of the earlier files and this one |
| ZipWriter.StreamingZipWriter.CopyBody | src/io/result_builder.rs:441-458 | the body loop writes every piece, folds the checksum over the pieces and adds up the size, however the source splits its bytes |
| ZipWriter.StreamingZipWriter.Finish | src/io/result_builder.rs:471-481 | success means every field fits and the output is the archive of the added files; a failure names the limit that is passed or the closed stream, and what was sent is a prefix of that output |
| ZipWriter.StreamingZipWriter.WriteLocalHeader | src/io/result_builder.rs:483-496 | the bytes are the local header record with zero sizes and the bit 3 and bit 11 flags |
| ZipWriter.StreamingZipWriter.WriteDataDescriptor | src/io/result_builder.rs:498-503 | the bytes are the data descriptor record of the checksum and size |
| ZipWriter.StreamingZipWriter.WriteCentralDirectoryEntry | src/io/result_builder.rs:505-534 | the bytes are the central record of the recorded entry followed by its name |
| ZipWriter.StreamingZipWriter.WriteEndOfCentralDirectory | src/io/result_builder.rs:536-551 | the bytes are the end record of count, size and offset |
| ZipWriter.StreamingZipWriter.WriteCounted | src/io/result_builder.rs:561-567 | the output grows by the bytes, and the position by their number, so that it always equals the bytes written; a failure leaves sent a prefix of the record being written |
| ZipWriter.ChannelZipWriter.Write | src/io/result_builder.rs:598-610 | what was sent and what is buffered join to all bytes written; full buffers are sent |
| ZipWriter.ChannelZipWriter.FlushBuffer | src/io/result_builder.rs:587-595 | a non-empty buffer is sent as one chunk and emptied, an empty one sends nothing, and it fails exactly when there is something to send and the channel is closed |
| ZipArchive.RoundTrip | src/io/result_builder.rs:401-572 | a reader that starts from the last 22 bytes, walks the central directory and follows every offset past its local header recovers the files, checking that local header, descriptor and central entry agree |
| ZipArchive.LayoutSizes | src/io/result_builder.rs:433-551 | entry offsets are the sums over earlier files of 46 and name and data lengths, the central size the sum of 46 and name lengths |
| ZipBytes.ArchiveBytes | src/io/result_builder.rs:433-551 | in the archive every local block, descriptor, directory entry and the end record stand at sums of name and data lengths with their signature and flag bytes written out, and their numbers little-endian |
| ZipBytes.FitsMeans | src/io/result_builder.rs:433-551 | the fields fit exactly when names and count are below 65536 and data, offsets and directory size below 4294967296 |
| ZipFormat.LocalHeaderFields | src/io/result_builder.rs:483-496 | every field of a local header record reads back from its offset |
| ZipFormat.CentralHeaderFields | src/io/result_builder.rs:505-534 | every field of a central record reads back from its offset |
| ZipFormat.EndRecordFields | src/io/result_builder.rs:536-551 | every field of an end record reads back from its offset |
| ZipFormat.Checksum.UpdateAppend | src/io/result_builder.rs:441-458 | a checksum folded over pieces is that of their concatenation, one step of the register a byte |
| DocxRuns.ParagraphState.PushText | src/office/docx.rs:284-298 | a pushed text becomes the markup of its style and link, an empty one nothing |
| DocxRuns.ParagraphState.PushEquation | src/office/docx.rs:300-306 | a pushed equation is trimmed and marked up, a blank one nothing |
| DocxRuns.ParagraphState.RenderPlain | src/office/docx.rs:308-310 | the rendered paragraph parses back, equal adjacent styles merged, to the runs that stand for the pushes: their text, link, and by name exactly the styles pushed |
| DocxRuns.ParagraphState.FlushAsBlock | src/office/docx.rs:312-339 | the block stored has the kind that the level, the list mark and the first and last run call for, and parses back to the merged runs with white space cut from a leading and a trailing plain run, an equation between its two tags again; its LaTeX is a pushed formula exactly for one run that the escape leaves alone; nothing is stored, and nothing cleared, exactly when no run is left |
| StoredBlocks.BlockKeeps | src/office/docx.rs:312-335 | for any pushes, level and list mark, that holds of the block the trimmed rendering is stored as |
| StoredBlocks.EquationBranch | src/office/docx.rs:317-329 | the equation branch is taken exactly when there is no level, no list mark, and the first and the last run left are equations |
| StoredBlocks.EquationContent | src/office/docx.rs:323-329 | cutting the tags as often as they are there takes one off each end and no more |
| StoredBlocks.LatexIsFormula | src/office/docx.rs:323-329 | the LaTeX stored is a formula of the paragraph, and is all of its text, exactly when one run is left and its formula holds none of the four escaped characters |
| StoredBlocks.LatexFails | src/office/docx.rs:323-329 | the formula with a less-than sign and the two formulas for which the LaTeX is not what was pushed |
| StoredBlocks.TwoFormulas | src/office/docx.rs:323-329 | any two formulas are stored escaped, with the closing tag of the one and the opening tag of the other between them |
| InlineTrim.TrimmedRoundTrip | src/office/docx.rs:313-313 | for any pushes, parsing the trimmed rendering gives the merged runs, so cut |
| InlineRoundTrip.RoundTrip | src/office/inline.rs:60-118 | for any pushes, any styles, links and characters: parsing what is rendered gives the pushed runs, merged |
| RunMeaning.ReadsBack | src/office/docx.rs:521-554 | for any pushes the runs read are, merged, the only ones that stand for them, each with "bold", "italic", "underline" and "strikethrough" exactly when that is pushed, in this order, and no other name |
| RunMeaning.OneRunReads | src/office/docx.rs:284-298 | one non-empty text push, linked or not, is read as one run of its text with exactly its styles |
| InlineRoundTrip.ParsePush | src/office/docx.rs:521-554 | the markup of one run after any text without markup parses to that text, that run, and the rest |
| Entities.DecodeUndoesEscape | src/office/inline.rs:228-234 | the four-pass decode undoes the four-pass escape on every text |
| Entities.EscapeIsCharwise | src/office/docx.rs:811-817 | the four replacement passes replace each special character once and nothing else |
| Entities.EscapeLeavesNoMarkup | src/office/docx.rs:811-817 | escaped text holds no angle bracket and no quote, and is empty only for empty text |
| InlineParser.ParseInlineSpans | src/office/inline.rs:60-118 | the loop over positions gives the spans of the recursive parse, merged, for every input, well formed or not |
| ParserLaws.EquationReads | src/office/inline.rs:60-118 | whoever wrote it, a complete equation tag reads as its formula, trimmed and decoded, between the text before and the parse of the rest |
| ParserLaws.TextReads | src/office/inline.rs:60-118 | a complete text tag with any attributes reads as its decoded text in the styles of its opening |
| ParserLaws.LinkReads | src/office/inline.rs:60-118 | a complete link reads as its text and address, and as plain text to the end when it lacks one of them |
| ParserLaws.LinkBodyIs | src/office/inline.rs:176-181 | inside a link the text tag comes first and the first address counts |
| ParserLaws.IncompleteReads | src/office/inline.rs:60-118 | a tag that is never closed, or never ends, is plain text to the end |
| ParserLaws.UnclosedTextReads | src/office/inline.rs:160-174 | so is a text tag whose text is never closed |
| ParserLaws.NamesBetweenCommas | src/office/inline.rs:183-198 | style names are what stands between commas, trimmed, and nothing where nothing is left |
| ParserLaws.StyleListIs | src/office/inline.rs:183-198 | the style list is what the quotes of the first style attribute enclose |
| ParserLaws.NoStyleList | src/office/inline.rs:183-198 | a tag without that attribute, or with its quote left open, has no styles |
| InlineParser.MergeAdjacentTextSpans | src/office/inline.rs:208-226 | editing the last span in place equals the merge of adjacent text spans with equal styles |
| InlineParser.MergeAppend | src/office/inline.rs:208-226 | spans can be merged in two goes with the same result |
| InlineRoundTrip.NextTagIsEarliest | src/office/inline.rs:127-143 | the next tag is the earliest opening of any of the three tags, and there is none only when none opens |
| Strings.FindIsFirst | src/office/inline.rs:127-143 | substring search finds the first occurrence, and nothing only when there is none |
| Strings.WhiteCharacters | src/office/docx.rs:300-313 | what is trimmed are the 25 white space characters of Unicode |
| VlmScheduler.Counters | src/vlm/scheduler.rs:81-163 | in every reachable state the queue depth is exactly the jobs between its two updates and never negative, active requests are at most the workers, and both together at most capacity plus workers |
| VlmScheduler.JobHistory | src/vlm/scheduler.rs:136-170 | jobs are received in the order sent, each by one worker and once, and answered at most once; a received job without an answer is at a worker |
| SchedulerTrace.Fairness | src/vlm/parser.rs:730-756 | at most the per-task limit of requests of one task are reserved, counted, queued or at workers, those of cancelled callers included |
| VlmScheduler.NeverStuck | src/vlm/scheduler.rs:81-163 | while anything is outstanding some step that finishes work is enabled |
| VlmScheduler.Drains | src/vlm/scheduler.rs:81-163 | without new calls the steps left are bounded, and when none is left both counters are zero and every slot and permit is back |
| VlmScheduler.StepInv | src/vlm/scheduler.rs:81-163 | every step, cancellation at any wait included, keeps all balances of slots, counters, permits and job assignments |
| SchedulerTrace.NothingIssuedAfterFailure | src/vlm/parser.rs:708-719 | on any run after the first error of a task no step starts a request of it or takes one further, none is sent that was not about to be, and its load never passes what it was |
| SchedulerTrace.FailureFreesCallers | src/vlm/parser.rs:403-415 | right after the error every waiting request of the task can be dropped, and dropping it gives back exactly the permit and slot it held |
| SchedulerTrace.OpenUntilFailure | src/vlm/parser.rs:390-416 | a task can start requests, and can fail, exactly as long as no error of it has occurred on the run |
| SchedulerTrace.RunIsTraced | src/vlm/scheduler.rs:81-163 | in every reachable state each request is where its own last step took it, the counters count the steps that change them, and the failed tasks are those whose error occurred |
| TaskManager.TaskManager.constructor | src/domain/tasks.rs:90-96 | an empty table whose first order is one |
| TaskManager.TaskManager.Submit | src/domain/tasks.rs:102-116 | stores a pending entry under the next order, with no readers |
| TaskManager.TaskManager.SetProcessing | src/domain/tasks.rs:126-133 | an existing entry becomes Processing with its start time and no error; nothing else changes |
| TaskManager.TaskManager.SetCompleted | src/domain/tasks.rs:135-142 | an existing entry becomes Completed with its names and completion time |
| TaskManager.TaskManager.SetFailed | src/domain/tasks.rs:144-151 | an existing entry becomes Failed with its error and completion time |
| TaskManager.TaskManager.CountAhead | src/domain/tasks.rs:167-184 | counting over the table in any order gives the number of pending tasks submitted earlier, zero for a task no longer pending, nothing for an unknown one |
| TaskManager.TaskManager.AcquireResultLease | src/domain/tasks.rs:199-206 | a lease on a stored task raises its reader count, an unknown task gets none |
| TaskManager.TaskManager.DropLease | src/domain/tasks.rs:37-41 | dropping a lease lowers the count of its task only |
| TaskManager.TaskManager.CleanupExpired | src/domain/tasks.rs:224-252 | takes out exactly the tasks that are completed or failed, unread, and over for at least the retention time, and returns each of their directories once |
| ManagerSteps.Perform | src/domain/tasks.rs:126-206 | the manager's methods for status changes and leases do what the steps of the state machine do |
| ManagerSteps.Submit | src/domain/tasks.rs:102-116 | submitting is the two steps of taking an order and inserting the entry |
| CleanerPass.PassIsCleanup | src/domain/tasks.rs:224-252 | the cleaner's steps lock, mark, remove and unlock, in any order of the tasks, end with exactly that table and exactly those directories to delete |
| Tasks.QueueRankBijection | src/domain/tasks.rs:167-184 | with p tasks pending the queue ranks are a bijection onto 0 to p-1 |
| TaskPermits.QueueRanks | src/domain/tasks.rs:102-116 | that holds in every reachable state, also when order assignment and insertion of concurrent submits interleave |
| TaskRecords.RecordStep | src/server/routes.rs:429-485 | one step advances a status from Pending to Processing or Failed, or from Processing to a terminal one, or changes nothing; a record is never lost |
| TaskRecords.RecordRun | src/server/routes.rs:429-485 | over any run a task never goes back and its terminal record never changes |
| TaskRecords.Lifecycle | src/domain/tasks.rs:126-151 | in every reachable state the status is the one the phase of its processor calls for, completion time is set exactly when terminal, error exactly when failed |
| TaskTrace.RunIsTraced | src/server/routes.rs:429-485 | in every reachable state each request is where its own steps took it, and succeeds exactly as its parser said; orders are handed out one by one |
| TaskTrace.NeverStuck | src/server/routes.rs:429-485 | while a request or the cleaner is under way, some step that finishes work and is no failure is enabled |
| TaskTrace.Drains | src/server/routes.rs:429-485 | without new requests and cleanups the steps left are bounded; when none is left every task is completed or failed, all permits are back and every removed directory is deleted once |
| TaskTrace.TableIsLocked | src/domain/tasks.rs:224-252 | while the cleaner scans and removes, only its own steps change the table |
| TaskTrace.OpenSteps | src/server/routes.rs:317-323 | a request may fail before it is submitted or while it waits for its permit; cleanup needs an idle cleaner and a retention time |
| TaskPermits.Bounds | src/server/routes.rs:429-485 | running parsers are at most the request permits; live processors and tasks shown as Processing at most the admission permits |
| TaskPermits.ProcessingExceedsRequests | src/server/routes.rs:453-457 | tasks shown as Processing stay within the request permits on all runs if and only if the admission permits are not more |
| TaskLifecycle.KeepPermits | src/server/routes.rs:317-323 | permits of both semaphores are conserved by every step |
| LeaseSafety.DeleteIsSafe | src/server/state.rs:123-132 | a directory is deleted only when its task is terminal, its parser has returned and no lease is live, and no lease can be acquired afterwards |
| LeaseSafety.LeasesAndDirectories | src/domain/tasks.rs:199-252 | the reader count equals the live leases and never underflows; a task with a live lease is in the table; each removed task's directory is deleted or waiting exactly once |
| LeaseTrace.ReadersAreLeases | src/domain/tasks.rs:199-206 | in every reachable state the reader count of a task is the number of leases taken on it on the run less those dropped |
| LeaseTrace.DeletedUnread | src/domain/tasks.rs:224-252 | when a directory is deleted every lease taken on its task was dropped, and none is taken on any run from then on |
| LeaseTrace.LeasesAreFree | src/domain/tasks.rs:199-206 | a lease can be taken on exactly the tasks in the table while the cleaner does not hold it, and dropped exactly when one is out |
| PageWindows.ParsePdf | src/vlm/parser.rs:247-303 | the window loop ends for every page count, range and window size; when all pages succeed it yields the pages from start to the last one present, each once and in order; otherwise it returns the error of a page with every earlier window successful |
| PageWindows.ParsePageWindow | src/vlm/parser.rs:390-450 | whatever the completion order, the pages come in page order, or the error is that of a page of the window |
| PageWindows.WindowCovers | src/vlm/parser.rs:1066-1079 | the bounds are the next pages up to the window size and the last page; there are none exactly when all pages are done |
| PageWindows.ExtractBlocks | src/vlm/parser.rs:507-523 | whatever the order of answers, each block ends with its own non-empty answer or as it was; on the first error all blocks are as they were |
| PageWindows.ApplyExtracts | src/vlm/parser.rs:512-523 | applying the sorted answers by index gives each block its own non-empty answer and changes no other |
| Sorting.SortOrders | src/vlm/python_compat.rs:293-294 | sorting keeps the elements and puts them in order |
| Sorting.SortStable | src/vlm/python_compat.rs:293-294 | elements with the same key stay in the order they had |
| Sorting.OneOrder | src/vlm/parser.rs:420-420 | elements with distinct keys have only one order, so sorting removes the influence of completion order |
| Attachment.NeverCrosses | src/vlm/python_compat.rs:464-561 | of two attached captions or footnotes the left one never has the parent further right |
| Attachment.OneEachSide | src/vlm/python_compat.rs:546-561 | a child has at most one candidate on each side, a footnote none after it |
| Attachment.ParentIsNearest | src/vlm/python_compat.rs:478-490 | the parent has only captions and footnotes between it and the child and no candidate is nearer |
| PageGroups.ParentMeans | src/vlm/python_compat.rs:478-490 | the parent is the one body that can hold the child with the fewest positions between, then the nearest box, then the smallest index; there is none exactly when no body can hold it |
| Blocks.BoxDistanceIsMinimum | src/vlm/python_compat.rs:1439-1455 | the box distance is attained by two points of the boxes, and no two are nearer |
| Blocks.LiesInIsRatio | src/vlm/python_compat.rs:1426-1437 | the integer overlap test is the comparison of the overlap ratio with four fifths |
| Regroup.RegroupVisualBlocks | src/vlm/python_compat.rs:464-544 | every main block heads one group of its body and the children attached to it, in index order; the other children are returned in order |
| Regroup.MatchChildren | src/vlm/python_compat.rs:474-497 | the map built in the loop holds exactly the children of every parent |
| ListAbsorption.FixListBlocks | src/vlm/python_compat.rs:563-594 | every text or reference block goes to the first list it lies in; a list survives exactly when it holds something |
| ListAbsorption.Absorb | src/vlm/python_compat.rs:573-588 | collecting matching positions and removing them from the last to the first leaves exactly the blocks that do not match, in order |
| PageBuilder.BuildPage | src/vlm/python_compat.rs:249-306 | the page holds every block exactly once; every body heads a group of its visual with exactly the captions and footnotes it is the nearest body of, and every other block is set apart, at the top, or in the first list it lies in; top-level blocks, margins and members are in strictly increasing index order |
| PageOrder.Conservation | src/vlm/python_compat.rs:249-306 | the multiset of pieces of the page is the multiset of final pieces of the input; only lists that absorbed nothing are missing |
| PageGroups.PageHasGroups | src/vlm/python_compat.rs:499-535 | the groups of the page are those of its bodies, of images for a body or image block of images and so on, and nothing else but lists has members |
| PagePlaces.PageHasPlaces | src/vlm/python_compat.rs:262-300 | where each type of block that is in no group is found on the page |
| PageAssembly.AbsorbsFilled | src/vlm/python_compat.rs:563-594 | a list has members exactly when some block's final place is that list |
| ParagraphMerge.MergeParaTextBlocks | src/vlm/python_compat.rs:607-628 | the reverse loop in place equals the declarative grouping: leaders end with their followers' lines, followers end empty, other blocks are untouched |
| ParagraphMerge.MergeKeepsLines | src/vlm/python_compat.rs:607-628 | the concatenation of the lines of all text blocks is unchanged |
| ParagraphMerge.MergeIsIdempotent | src/vlm/python_compat.rs:607-628 | merging again changes nothing |
| ParagraphMerge.MergeMoves | src/vlm/python_compat.rs:607-628 | an unmarked text block keeps its lines in front, a marked one behind another text block ends empty, other blocks are untouched |
| MarkdownEscape.EscapeMarkdown | src/vlm/python_compat.rs:1568-1584 | the loop with its backslash counter gives the escaped text |
| MarkdownEscape.EscapedIsGuarded | src/vlm/python_compat.rs:1568-1584 | in the output every special character follows an odd run of backslashes |
| MarkdownEscape.FiveCharacters | src/vlm/python_compat.rs:1576-1578 | exactly star, underscore, backtick, tilde and dollar sign gain a backslash, and only after an even run of backslashes |
| MarkdownEscape.EscapingIsIdempotent | src/vlm/python_compat.rs:1568-1584 | a text is left alone exactly when it is guarded already; escaping twice is escaping once |
| MarkdownEscape.EscapingShowsTheSame | src/vlm/python_compat.rs:1568-1584 | a reader of the Markdown sees the same text before and after, and no active markup after |
| Utf8.TruncateToUtf8Bytes | src/io/uploads.rs:197-206 | backing up to a character boundary gives the longest prefix within the byte limit |
| Utf8.CharBytesIsLength | src/io/uploads.rs:197-210 | a character takes as many bytes as its UTF-8 encoding (RFC 3629, section 3), from which it reads back |
| UploadStems.Candidate | src/io/uploads.rs:183-195 | a candidate is at most 200 bytes, and for every shorter suffix it is the longest prefix of the stem that leaves room for the suffix, and then the suffix |
| UploadStems.CandidatesDiffer | src/io/uploads.rs:183-195 | candidates with different numbers have different keys even after truncation |
| UploadStems.FindFree | src/io/uploads.rs:146-156 | the unbounded search stops within as many further probes as there are taken keys, at the least free number |
| UploadStems.UniquifyUploadStems | src/io/uploads.rs:118-158 | all keys are pairwise distinct, all stems at most 200 bytes, paths and suffixes unchanged, and every stem is the one prescribed: its own for the first upload with a key, else the candidate with the least free number |
| UploadStems.StemsFit | src/io/uploads.rs:140-144 | the first upload of each key keeps its own truncated stem |
| UploadStems.LaterStemsAreNumbered | src/io/uploads.rs:146-156 | a later upload with a key gets a prefix of its stem, an underscore and a numeral above the number of earlier ones |
| UploadStems.TwoCases | src/io/uploads.rs:118-158 | uploads `a` and `A` get `a` and `A_2` |
| UploadStems.StemsDistinct | src/io/uploads.rs:118-158 | stems chosen that way never share a key |
| Sheet.TrimEmptyEdges | src/office/xlsx.rs:206-242 | the result is the minimal box holding every non-empty cell, each at its shifted position, and empty when there is none |
| Sheet.BlankMeans | src/office/xlsx.rs:213-215 | an empty cell is one that holds only white space |
| Sheet.TrimmedMerges | src/office/xlsx.rs:175-203 | well-formed disjoint merges stay well formed and disjoint, within the box and of more than one cell; a merge is kept exactly when it starts in the box and covers more than one cell of it |
| Sheet.SpreadsMeans | src/office/xlsx.rs:201-201 | the filter keeps merges that hold two different positions |
| Sheet.ClipsAlignAtOrigin | src/office/xlsx.rs:130-203 | with rows counted from a used range and merges from the sheet, kept merges cover their own cells for all merges if and only if the range starts at the sheet's first cell |
| Sheet.ClipCovers | src/office/xlsx.rs:175-203 | within the box a clipped merge covers exactly what the merge covered |
| SheetTable.Tiling | src/office/xlsx.rs:263-281 | every position is covered by exactly one emitted cell |
| SheetTable.CellFits | src/office/xlsx.rs:270-279 | no cell reaches beyond the sheet |
| SheetTable.TableReadsBack | src/office/xlsx.rs:244-261 | a reader that gives each written cell the first free column of its row puts every cell back at its own row and column |
| SheetTable.CellToHtml | src/office/xlsx.rs:263-281 | a covered position gives no cell, any other its text with the spans larger than one |
| TableReader.RowsToHtmlTable | src/office/xlsx.rs:244-261 | the text written reads back as the name of the sheet and, row by row, the spans and the text of every emitted cell, whatever characters they hold |
| TableReader.SheetReadsBack | src/office/xlsx.rs:244-281 | from the text alone a reader gets every emitted cell at its own row and column, with its spans and its text |
| SheetBlocks.BlocksFromSheet | src/office/xlsx.rs:125-157 | no block when no cell shows; the text of the cell when exactly one does; otherwise one table, and for disjoint merges its text gives a reader the sheet's name, every cell of the smallest box that no merge hides, at its row and column less the offsets, with its text and the span of its merge inside the box, and no other cell |
| SheetBlocks.SheetComesBack | src/office/xlsx.rs:154-261 | that holds of the text written for the trimmed rows and the clipped merges |
| SheetBlocks.CoveredMeans | src/office/xlsx.rs:263-269 | a position of the table is covered exactly when its cell in the sheet is inside a merge that starts in the box elsewhere |
| SheetBlocks.SpanMeans | src/office/xlsx.rs:270-279 | a cell spans exactly what the merge that starts at its cell of the sheet holds of the box |
| SheetBlocks.CountIsShown | src/office/xlsx.rs:138-144 | the non-empty texts counted in the trimmed rows are as many as the non-empty cells of the sheet |
| StyleMap.Resolve | src/office/docx.rs:453-482 | ends on every style map, also a cyclic one; level and name are those of the nearest style that has one, it is a list exactly when some style on the chain is, and there is no result exactly when none says anything |
| StyleMap.AnyCase | src/office/docx.rs:453-455 | ids are looked up alike exactly when they differ only in the case of ASCII letters |
| StyleMap.ChainIsAncestry | src/office/docx.rs:453-482 | the styles visited are the ancestors in order, each once, until the next is missing or comes round again, and at most as many as there are styles |

## Left out

- The checksum is any function folded over bytes; the CRC-32 polynomial belongs to the hashing library.
- The file position is unbounded: 64-bit wrap-around of the byte counter is not modelled. The 32-bit tests on it are.
- Choosing which files go into an archive, and reading them from disk (`build_zip_to_writer` arguments, `add_file`, `add_original_file`).
- The reader count of a task is a map entry here; in the code it is an atomic cell shared by the entry and its leases. A lease taken from an entry that is replaced under the same id is not modelled; task ids are taken to be fresh.
- `wait_terminal`: the lock is released before the notification is awaited, so a wake-up in that gap can be missed; no progress is claimed for it.
- The decrease of `queued_ahead` over time, which does not hold when order assignment and insertion interleave.
- A handler dropped between submitting a task and spawning its processor, and panics of workers, processors and parsers.
- Closing the request channel or a semaphore of the scheduler; the request semaphore of a task processor may refuse in the model.
- Wrap-around of atomic counters and of the suffix counter.
- Rendering a page and parsing it are one outcome per page; the order of several errors inside one window is left open.
- Floating point: the overlap ratio is a real number, and the conversion of bounding boxes is not modelled.
- `sub_type` of a list (the most frequent type of its members; ties depend on hash order), and the `angle` and `guess_lang` fields, which are copied.
- Lowercasing is any function on texts that leaves a trailing underscore and digits in place.
- `SheetBlocks` takes the rows and the merges of a sheet in one system of coordinates; where the used range starts is up to the reading library. 32-bit truncation of sheet sizes is not modelled.
- Number formatting, sheet titles, and pictures of a sheet.
- Table markup with span tokens drops some of them and carries no span property.
- XML event loops, which set the level and list mark of a paragraph, style parsing, nested tables, and joining list blocks.
- HTTP routing, uploads on disk, configuration, image work, content lists and Markdown rendering other than escaping.
