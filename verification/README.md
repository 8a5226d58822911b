# Verification of llm-chat's stateful core

This project models the parts of llm-chat whose correctness depends on order, interleaving or
exact arithmetic, and proves what they promise.

* **The /chat queue** (`ChatTable`, `ChatMachine`, `ChatProperties`). Every connection has a reader
  task (insert a `pending` row, send the body frame, send `\r`, mark the row `sent`), a qa loop
  (pop the oldest `sent` row, mark it `answered`, forward the `a` frame) and clients that confirm.
  The tasks of all connections interleave freely. Every database call is one step, and each of the
  pop and the three updates of these tasks may fail. Histories (`mine`, `marked`, `answers`,
  `outcomes`) record what happened and are never read by the tasks.
* **Flushes that overlap** (`Flushes`). On the legacy path timers call flush_answer, so any number of
  pops, updates and frames of one connection interleave.
* **The worker's session and both processes together** (`JsonSession`, `EndToEnd`, `Drift`,
  `EndToEndRuns`). Frames are cut into questions at `\r`; claude's stdin may refuse a question;
  claude answers its inputs in order; a failed result publishes nothing; a lagging subscriber skips
  events. Histories count each of these losses.
* **Usage** (`Usage`). Aggregates over the queue's rows, and what each step adds to them.
* **Sandbox templates** (`Paths`, `Sorting`, `Provision`, `TemplateForest`, `TemplateTree`,
  `TemplateMeaning`, `TemplateRoundTrip`). The editor's tree of a template, flattening it again, and
  the worker that writes entries into a box without ever overwriting. Any total order of names may
  stand for the locale's comparison.
* **The box listing** (`WalkBox`). The walk bounded in depth and in entries, and its flag.
* **Template versions and migrations** (`Migration`, `Decimal`). set-template, provisioning and
  background migrations as steps that interleave at every database call, file access and lock.
* **Scheduling** (`Scheduler`), **debouncing** (`Debounce`), **dates** (`Calendar`, `Decimal`),
  **query parameters** (`Query`), **attachment sizes** (`Attachment`) and the **terminal scraper**
  (`Scrape`).

Code that updates state step by step is a class or a method with loops, tied by its contract to a
function of the old state; the theorems are about those functions and about all runs of the step
systems. Clocks, sockets, failing statements and the claude process appear as parameters or
as steps that may happen at any time with any outcome.

## Where the code does something else than its comments say

* The comment on FIFO pairing (manager/src/main.rs:2615-2617) says that the N-th final answer is
  paired with the N-th queued row. A row is marked `sent` only after `\r` has gone out, so an answer
  can come too early, is dropped, and shifts all later pairs. The reader also goes on when the UPDATE
  to `sent` fails (manager/src/main.rs:3265): that row is never paired and the next question gets its
  answer. `ChatProperties.OwnRowsIff` says exactly when the N-th answer goes to the N-th queued row,
  `TakesOwnRowIff` what each answer takes, `AllOwnIffTimely` which runs pair rightly throughout;
  `FastAnswerShiftsPairing`, `LostRecordRepeatsQuestion` and `LostMarkShifts` are runs that do not.
  Across both processes refused questions, failed results, skipped events and questions with a `\r` in
  them shift the pairs as well: `Drift.ExactDrift` counts all of them, and
  `EndToEndRuns.FailedResultShifts` and `ReturnShifts` are runs that pair wrongly.
* The comment on flush_answer (manager/src/main.rs:2648-2651) names a race of two pops on one row.
  `Flushes.FramesShareIff` and `DistinctIffSerial` say exactly when it happens, and `InlineIsSerial`
  that the inline path is free of it while its statements work. It can even turn a confirmed row back
  to answered (`Flushes.BackwardIff`, `OverlapAnswersTwice`), against the order of states at
  manager/src/main.rs:2605-2607.
* "any → error" (manager/src/main.rs:2607): only a pending row becomes an error
  (`ChatProperties.StatusesOnlyAdvance`, for the inline path).
* `JsonSession::write` submits one question per write: of two questions completed by one chunk the
  first is lost (`JsonSession.ChunkingLosesNothingIff`, `JsonSession.TwoInOneChunk`).
* `isValidPath` says it mirrors the worker's `confine_path` (admin-web/lib/sandbox-template.ts:74-75).
  The worker also drops trailing white space, so a blank name passes the editor only, and two names
  that differ in a trailing space are one file. `Paths.ChecksDifferIff` says exactly on which paths the
  two checks differ, `Provision.OrderFreeIff` which templates may be reordered, and
  `TemplateRoundTrip.NormalFormFirstsIff` when what the editor writes back leaves the same files;
  `TrailingSpaceOrderMatters` and `DroppedFolderLost` are templates for which it does not.
* The comment on `resolve_set` (manager/src/main.rs:294-298) calls the publish flag irrelevant for a
  new app; the code demands instructions there too (`Migration.PublishNeedsInstructions`).
* The worker reads a box's stamp before it takes the migration guard, so a request that waited
  migrates the box back to an older version (`Migration.StaleMigrationLowersStamp`); two first
  provisions may cross in the same way (`StaleProvisionLowersStamp`). `Migration.StampLowersIff` says
  exactly when. set-template loads and saves in two steps, so a version can go down
  (`Migration.SaveLowersIff`, `StaleSaveLowersVersion`).
* An empty repaint that arrives before the debounce ends discards the text before it:
  a text is handed over exactly if nothing overwrites it while it waits
  (`Debounce.SettledMeansHandedOver`, `EmptyRepaintLosesAnswer`).
* "Malformed percent escapes pass through" (manager/src/main.rs:1139): they do, except exactly a percent
  sign followed by a plus sign and a hexadecimal digit, which is one byte; a text decodes as the
  comment says iff no such three characters stand in it
  (`Query.MalformedPassesIff`, `DecodedAsPromisedIff`, `SignedEscape`).
* The attachment limit of 25 MiB (worker/src/lib.rs:206-208) is one byte lower in effect
  (`Attachment.LimitMissesOneByte`).

## Model

| member | source | states |
|---|---|---|
| ChatTable.OldestSent | manager/src/main.rs:503-529 | the result is the smallest key among the connection's `sent` rows, and none exactly when there is no such row |
| ChatTable.ChatDb.InsertPending | manager/src/main.rs:421-479 | a fresh key gets a pending row without an answer in which connection, id, question text, time, user and the three counters stand each in its own column; all other rows stay |
| ChatTable.ChatDb.UpdateStatus | manager/src/main.rs:481-499 | only the status of that row changes, with no guard on what it was; all other rows and columns stay |
| ChatTable.ChatDb.PopSent | manager/src/main.rs:503-529 | reads the oldest `sent` row of the connection and changes nothing |
| ChatTable.ChatDb.RecordAnswer | manager/src/main.rs:561-594 | the row becomes answered with this text and its length, whatever its status was |
| ChatTable.ChatDb.Confirm | manager/src/main.rs:534-558 | an answered row becomes confirmed, any other row stays; the reply says which |
| ChatTable.ChatDb.FlushAnswer | manager/src/main.rs:2659-2729 | the oldest `sent` row gets the answer and the frame names it; the answer is lost, and nothing changes, exactly when there is no such row |
| ChatMachine.StepKeepsInv | manager/src/main.rs:2942-3362 | the queue invariant of all connections survives every step of every task, failed statements included |
| ChatMachine.RunKeepsInv | manager/src/main.rs:2942-3362 | so it holds after every interleaving |
| ChatProperties.QueueShapeHolds | manager/src/main.rs:3185-3265 | if no `sent` update of this connection is lost, whatever befalls the others, its rows in key order read done rows, then sent rows, then at most one pending or failed row, with or without dropped answers |
| ChatProperties.NoOvertaking | manager/src/main.rs:503-529 | even with lost updates no question is done while an older one is still `sent` |
| ChatProperties.StatusesOnlyAdvance | manager/src/main.rs:481-594 | no step of any task moves a status backward or rewrites a question, and rows of other connections change only from answered to confirmed |
| ChatProperties.RowMovesIff | manager/src/main.rs:3227-3265 | a row becomes `sent`, error, answered or confirmed iff the step is that of the task that holds it: the reader's mark, a frame that cannot be sent, the qa loop's record, a client's confirm |
| ChatProperties.DriftLaw | manager/src/main.rs:2682-2692 | the i-th row to leave the queue holds final answer i + d, with d the earlier answers that were recorded on no row |
| ChatProperties.PairingExactIffNoneMissed | manager/src/main.rs:2682-2714 | answer n goes to the n-th row that was marked `sent`, for all n, iff no answer was missed; after a lost `sent` update these are not the n-th questions |
| ChatProperties.OwnRowsIff | manager/src/main.rs:2615-2618 | the promise: answer n goes to the n-th row the connection queued, for all n, iff no answer was missed and each of these rows was marked `sent` |
| ChatProperties.TakesOwnRowIff | manager/src/main.rs:2669-2692 | an answer is dropped iff all rows marked so far are answered; while earlier answers went to their own rows, it takes its own row iff that is marked, is dropped iff neither that nor a later one is, and else takes a later question's |
| ChatProperties.AllOwnIffTimely | manager/src/main.rs:3255-3265 | over any run, whatever befalls other connections: all answers of a connection are recorded on, or held for, their own rows iff each was taken after its own row was marked and its pop and record statements worked |
| ChatProperties.FramesFollowQuestions | manager/src/main.rs:2715-2728 | then the i-th `a` frame carries key and id of the i-th queued question and answer i |
| ChatProperties.FastAnswerShiftsPairing | manager/src/main.rs:3255-3265 | a run in which a fast answer is dropped and the client gets q1's answer under q0 |
| ChatProperties.LostRecordRepeatsQuestion | manager/src/main.rs:2704-2714 | a run in which a failed UPDATE sends two `a` frames for one question and none for the next |
| ChatProperties.LostMarkShifts | manager/src/main.rs:3265 | a run in which the UPDATE to `sent` of q0 fails: nothing is missed, and q1 gets the answer to q0 |
| Flushes.StepKeepsInv | manager/src/main.rs:2652-2729 | while any number of flushes pop, record and forward in any interleaving: rows are popped oldest first, a popped row is done iff some flush recorded on it, and a row holds the text recorded last |
| Flushes.ReaderLeaves | manager/src/main.rs:3238-3265 | meanwhile the reader marks a row iff its UPDATE works, turns it to an error iff that one does, and touches no other row |
| Flushes.FramesShareIff | manager/src/main.rs:2648-2651 | two `a` frames name one row iff, when the later flush popped, no flush had recorded on the row of the earlier: it was under way or its UPDATE had failed |
| Flushes.DistinctIffSerial | manager/src/main.rs:2648-2651 | over a whole run no two flushes take one row iff every pop that found a row came when something was recorded on the row of every earlier flush |
| Flushes.InlineIsSerial | manager/src/main.rs:3343-3361 | so flushes run one at a time, whose statements work, never share a row |
| Flushes.LastRecordedStays | manager/src/main.rs:561-594 | however many flushes recorded on a row, it holds the text of the last |
| Flushes.BackwardIff | manager/src/main.rs:2604-2607 | a step moves a status backward iff a flush records on a confirmed row; another flush has recorded there before |
| Flushes.OverlapAnswersTwice | manager/src/main.rs:3376-3392 | a run in which two flushes overlap: both frames name q0, its confirmation is undone, and q1 waits |
| JsonSession.Session.Drain | worker/src/lib.rs:970-985 | the byte loop leaves the unterminated tail in the buffer and returns the last non-empty segment that was completed |
| JsonSession.Session.WriteBytes | worker/src/lib.rs:970-989 | at most one question is submitted per write; a failed submit has already emptied the buffer |
| JsonSession.Session.Submit | worker/src/lib.rs:991-1005 | a working stdin gets exactly this text appended, a closed one nothing |
| JsonSession.ChunkingLosesNothingIff | worker/src/lib.rs:970-989 | for every stream and every cut the buffer ends as the stream's tail, and all questions are submitted in order iff no chunk completes two; otherwise some are lost |
| JsonSession.OneReturnPerChunk | worker/src/lib.rs:970-989 | at most one `\r` per chunk is enough for that |
| JsonSession.TwoInOneChunk | worker/src/lib.rs:974-983 | of any two questions completed by one chunk the first is lost |
| JsonSession.QuestionWrites | manager/src/main.rs:3238-3255 | what a body frame and its `\r` frame submit, for any text |
| JsonSession.SubmittedVerbatimIff | worker/src/lib.rs:974-983 | a question is submitted once and unchanged iff it is non-empty and has no `\r` |
| EndToEnd.MoveKeepsInv | worker/src/lib.rs:860-912 | the link between what the manager typed and what the session has read survives every step of both processes |
| EndToEnd.RunKeepsSysInv | worker/src/lib.rs:860-1005 | so it holds after every interleaving of both processes |
| Drift.ExactDrift | worker/src/lib.rs:880-1005 | in every run, whatever fails, the i-th row to leave the queue is that of question i + unmarked and holds claude's result for submission i + missed + lost + unsent: questions whose `sent` update was lost, answers recorded on no row, results that failed or were skipped, submissions that claude never got, each counted exactly; the row is right iff that submission falls to that question |
| EndToEnd.OwnerIff | worker/src/lib.rs:974-983 | a submission comes from question q iff the questions before q submit no more than come before it, and with q they submit it |
| EndToEnd.OneEachIffOnce | worker/src/lib.rs:974-983 | inputs and questions have the same numbers iff every question submits exactly once |
| EndToEnd.VerbatimInputs | worker/src/lib.rs:970-1005 | `\r`-free non-empty questions are claude's inputs, one by one and unchanged |
| EndToEnd.FrameCarriesResult | manager/src/main.rs:3343-3361 | if this connection has no refused submission, failed result or lag and its answers go to their own rows, frame n carries question n's id and the result of input n |
| EndToEnd.FrameRightIff | manager/src/main.rs:3343-3361 | then frame n names the question input n comes from iff the questions before n submit at most n inputs, and with question n more than n |
| EndToEnd.EndToEndPairing | manager/src/main.rs:3238-3361 | on a connection without losses, whose answers are taken in time and whose questions are plain, whatever befalls other connections, the n-th `a` frame carries id and key of the n-th accepted question and claude's result for exactly its text |
| EndToEnd.QuestionTyped | manager/src/main.rs:3238-3255 | in any run the n-th accepted question is typed with its text, not its id, as frame 2n, followed by `\r` |
| EndToEnd.QuestionAnswered | manager/src/main.rs:3185-3361 | a question sent with an id and a text: on a connection as before claude is given exactly the text, and the `a` frame with its result carries exactly the id and the key of its row |
| EndToEndRuns.FailedResultShifts | worker/src/lib.rs:880-882 | for any two plain questions a run in which the result of the first fails and its row gets the answer to the second |
| EndToEndRuns.RefusedQuestionShifts | worker/src/lib.rs:991-1005 | for any two plain questions a run in which claude's stdin refuses the first and its row gets the answer to the second |
| EndToEndRuns.LagShifts | worker/src/lib.rs:2975-2994 | for any two plain questions a run in which a lag skips the first result and its row gets the answer to the second |
| EndToEndRuns.ReturnShifts | worker/src/lib.rs:974-983 | for any question with a `\r` inside and any next one a run in which the next row gets the answer to the second part |
| Usage.ComposeUsageReply | manager/src/main.rs:72-88 | the loop passes the rows on and its five accumulators are the sums of the rows' columns |
| Usage.GroupsPartition | manager/src/main.rs:600-609 | GROUP BY: groups with distinct keys that cover all selected rows add up to the whole, for every column |
| Usage.TotalsAreConserved | manager/src/main.rs:72-88 | totals over users are the totals over all attributed answered rows |
| Usage.DailyBucketsAddUp | manager/src/main.rs:641-680 | a user's daily buckets add up to the user's totals when the cutoff precedes the user's rows |
| Usage.SumListed | manager/src/main.rs:599-609 | the request count is the number of counted rows |
| Usage.CutoffIsChronological | manager/src/main.rs:617-640 | comparing `time_in` with a cutoff as text is comparing moments, up to year 9999 |
| Usage.BucketsAreDays | manager/src/main.rs:620-628 | two rows share a daily bucket iff they were asked on one day |
| Usage.StepAdds | manager/src/main.rs:481-594 | recording an answer adds one request and that row's counters to every filter that selects it; all other steps add nothing |
| Usage.RecordAddsEach | manager/src/main.rs:561-594 | column by column: one request, the question's own size, files and bytes, and the length of the answer |
| Usage.RequestsCountRecordings | manager/src/main.rs:597-615 | over any run the request count grows by the number of recorded answers |
| Paths.ConfinePath | worker/src/user_env.rs:50-75 | the loop computes that decision; an accepted path starts with the user's folder and no component is empty, `.`, `..` or holds a separator, a colon or NUL |
| Paths.ConfinedIff | worker/src/user_env.rs:41-75 | a subpath is accepted iff the user id is non-empty and made of letters, digits, `_` and `-`, and the trimmed subpath is empty or not absolute and without an empty, `.` or `..` component, backslash, colon or NUL; the error tells which |
| Paths.ConfinedBelowUser | worker/src/user_env.rs:46-75 | an accepted path is the user's folder followed by the components of the trimmed subpath, none of which climbs or holds a separator of either kind |
| Paths.CheckPath | admin-web/lib/sandbox-template.ts:76-84 | the editor's loop accepts a path iff it is non-empty, not absolute and without such a component |
| Paths.TrimDrops | worker/src/user_env.rs:58 | trimming drops exactly the spaces, tabs and line breaks at both ends |
| Paths.SplitJoin | worker/src/user_env.rs:65-73 | splitting undoes joining for segments without a slash |
| Paths.WorkerTrimsWhatEditorChecks | admin-web/lib/sandbox-template.ts:74-84 | the worker accepts an entry iff the editor accepts its path without trailing white space, and puts it there |
| Paths.ChecksDifferIff | admin-web/lib/sandbox-template.ts:74-84 | the worker accepts a path iff the editor does and its last segment without trailing white space is not empty, `.` or `..` |
| Paths.BlankNamePassesEditorOnly | admin-web/lib/sandbox-template.ts:76-84 | a path made of a space passes the editor and is rejected by the worker |
| Sorting.SortKeepsAll | admin-web/lib/sandbox-template.ts:69-72 | sorting permutes |
| Sorting.SortOrdered | admin-web/lib/sandbox-template.ts:69-72 | and orders, by any total preorder |
| Sorting.SortStable | admin-web/lib/sandbox-template.ts:34 | and keeps the order of elements that compare equal |
| Sorting.OrderedListingUnique | admin-web/lib/sandbox-template.ts:69-72 | a set has one ordered listing |
| Provision.Box.ProvisionEntries | worker/src/user_env.rs:135-172 | disk and reply after the loop, early error exits included, are those of the specification |
| Provision.NeverClobbersAndIdempotent | worker/src/user_env.rs:130-134 | whatever the outcome, nothing on the disk changes; after a success a second run creates nothing |
| Provision.ProvisionedLays | worker/src/user_env.rs:135-172 | for any template: the entries before the first refused one are laid, at every missing place the first one wins, and the reply is an error iff one is refused |
| Provision.CountsCreated | worker/src/user_env.rs:147-171 | the number in a successful reply counts the entries whose place was missing and was not made for an earlier entry |
| Provision.RefusedWhy | worker/src/user_env.rs:149-167 | the error of a refused template is a bad path iff the path of the first entry not dealt with is illegal, else that of the disk |
| Provision.RefusedOutright | worker/src/user_env.rs:135-146 | nothing is written for an illegal user id or application folder |
| Provision.ProvisionedAdds | worker/src/user_env.rs:135-172 | a template without clashes succeeds and adds exactly the missing box folder, items and folders above them |
| Provision.SameDiskIff | worker/src/user_env.rs:135-172 | any two templates leave the same disk iff, before any error, they agree on the first entry at every missing place |
| Provision.UnblockedSameDiskIff | worker/src/user_env.rs:135-172 | two templates that are never refused leave the same disk iff they agree on the first entry at every missing place |
| Provision.SoundSameDiskIff | worker/src/user_env.rs:135-172 | two templates without clashes and with the same files leave the same disk iff they ask for something at the same missing places |
| Provision.OrderFreeIff | worker/src/user_env.rs:154-170 | a template leaves the same disk in every order iff no file entry meets another entry at its trimmed place |
| TemplateTree.Editor.EnsureDir | admin-web/lib/sandbox-template.ts:20-30 | returns the node known at the path, having added exactly the missing folders on the way, each attached once |
| TemplateTree.Editor.EntriesToTree | admin-web/lib/sandbox-template.ts:18-47 | for any template every node is in exactly one array, once, under the node of its parent path, and in every array folders come before files and each kind by name; for a well-formed one the nodes are exactly the paths on the way to an entry |
| TemplateTree.Editor.SortLevel | admin-web/lib/sandbox-template.ts:69-72 | the array and all arrays below are sorted in place, folders first; nothing else changes |
| TemplateTree.Editor.TreeToEntries | admin-web/lib/sandbox-template.ts:52-67 | emits files and empty folders in tree order |
| TemplateMeaning.FlattenKeeps | admin-web/lib/sandbox-template.ts:49-67 | flattening the tree of a well-formed template gives, as a set, its files and its folder entries with nothing below them |
| TemplateMeaning.FlattenWellFormed | admin-web/lib/sandbox-template.ts:49-67 | each once, and the result is well-formed again |
| TemplateRoundTrip.Normalise | admin-web/lib/sandbox-template.ts:18-67 | loading and writing back gives such a normal form |
| TemplateRoundTrip.NormalFormFirstsIff | admin-web/lib/sandbox-template.ts:49-67 | a template that is never refused (legal paths, no file where an item needs a folder) and its normal form both succeed, and leave the same disk iff both lists agree on the first entry at every missing place; that is, iff every dropped folder stands or is made for a kept entry and the same entry wins wherever a file is wanted at a missing place |
| TemplateRoundTrip.NormalFormSameDiskIff | worker/src/user_env.rs:135-172 | for a template that may be reordered that is: iff every dropped folder stands already or is made for a kept entry |
| TemplateRoundTrip.NormalFormSameDisk | admin-web/lib/sandbox-template.ts:49-51 | in particular always, when no path is repeated, no file lies above another entry and no path ends in white space |
| TemplateRoundTrip.TrailingSpaceOrderMatters | worker/src/user_env.rs:155-157 | two files that differ in a trailing space: their order decides what users get, and the other order is a normal form of the template too |
| TemplateRoundTrip.DroppedFolderLost | admin-web/lib/sandbox-template.ts:58-61 | a folder entry ending in a space that is dropped is no longer made: the two disks differ |
| TemplateRoundTrip.TreeUnique | admin-web/lib/sandbox-template.ts:18-47 | a sorted tree is determined by the paths and files of the template it describes |
| TemplateRoundTrip.RebuildGivesSameTree | admin-web/lib/sandbox-template.ts:18-67 | building from the flattened entries gives the same sorted tree |
| WalkBox.Walker.Walk | worker/src/user_env.rs:287-328 | lists the first part of the depth-bounded pre-order that fits, and raises the flag iff some entry at any depth is not listed |
| WalkBox.ListBoxTree | worker/src/user_env.rs:235-253 | the reply holds only entries of the box within the depth (the first level always), with their path, kind and size, sorted by text and no more than the limit; all of them if there is room; the flag is up iff some entry of the box, at any depth, is not in the reply |
| WalkBox.ListedIffInBox | worker/src/user_env.rs:312-326 | the pre-order of that depth lists an entry iff the box has it within the depth |
| WalkBox.FewerIffMissing | worker/src/user_env.rs:299-303 | counting entries tells whether one is missing, at whatever depth |
| WalkBox.OnlyListing | worker/src/user_env.rs:287-328 | the pre-order is the one list, in path order without repetition, of what can be reached within the depth |
| WalkBox.AllListed | worker/src/user_env.rs:318-325 | with enough depth nothing is left out, so the flag speaks of the whole box |
| WalkBox.CutOffKeepsParents | worker/src/user_env.rs:300-303 | however early the walk stops, the folder of every listed entry is listed before it |
| Migration.PublishNeedsInstructions | manager/src/main.rs:299-314 | a publish succeeds iff its instructions are not blank, on a missing row too; it stores the next version with the trimmed text; without the flag version and instructions stay |
| Migration.StampReadsBack | worker/src/user_env.rs:192-218 | a written stamp reads back as its version |
| Migration.SignedStamps | worker/src/user_env.rs:192-194 | any decimal number of 64 bits reads back, with or without a sign; one out of range does not |
| Migration.MalformedStamps | worker/src/user_env.rs:190-194 | a stamp with any other character, or without a digit, counts as version 0 |
| Migration.ResolveGood | manager/src/main.rs:299-314 | a row resolved from a good row is good: beyond version 1 it has trimmed, non-empty instructions |
| Migration.StepKeepsInv | worker/src/lib.rs:2743-2811 | the invariant survives every step of every overlapping request, save and migration |
| Migration.EveryInterleaving | worker/src/lib.rs:2760-2811 | in every interleaving rows beyond version 1 carry instructions, a box is in flight iff exactly one migration holds it, a stamp is a version that was published, and "migrate-skipped" is never the reply |
| Migration.ActAnswers | worker/src/lib.rs:2749-2765 | what a request is answered and starts: provisioned without a stamp, current iff the stamp is not below the version it carries, else migrating or already in flight |
| Migration.LaunchAnswers | worker/src/lib.rs:2768-2803 | a migration frees the box at once iff it has no working directory or no claude, and the reply says which |
| Migration.RequestBringsUpToDate | worker/src/lib.rs:2746-2802 | from every reachable state a request for a box no migration holds, undisturbed and with working steps, ends with the box at the stored version unless it was newer, is answered current iff there was nothing to do, and changes nothing else |
| Migration.FailedMigrationRetries | worker/src/lib.rs:2788-2800 | a failed migration leaves the stamp, and the next such request migrates again |
| Migration.StampAfter | worker/src/lib.rs:2751-2800 | only a request that found no stamp and a migration that succeeded write one, with the version they carry |
| Migration.StampLowersIff | worker/src/lib.rs:2749-2800 | a step lowers a stamp iff it writes, the stamp it was decided on is no longer there, and the one there is above the version it carries |
| Migration.StampsOnlyGrow | worker/src/lib.rs:2749-2765 | between any two moments of a run whose requests act on the current stamp no stamp decreases |
| Migration.StampsBelowVersions | manager/src/main.rs:2255-2289 | when no save replaces a row it did not load, versions never decrease and no stamp is ahead of the current version |
| Migration.SaveLowersIff | manager/src/main.rs:2269-2285 | a save lowers the version iff it is not refused and the loaded version, plus one for a publish, is below the stored one; on an unchanged row a publish adds exactly one |
| Migration.StaleMigrationLowersStamp | worker/src/lib.rs:2749-2802 | a reachable state in which a request that read stamp 1 holds the free guard and writes version 2 over version 3 |
| Migration.StaleProvisionLowersStamp | worker/src/lib.rs:2749-2757 | a reachable state in which two first provisions cross and the older version is written last |
| Migration.StaleSaveLowersVersion | manager/src/main.rs:2269-2285 | a reachable state in which a stale save lowers the version |
| Scheduler.ManagerState.PickLeastLoadedPort | manager/src/main.rs:2384-2391 | returns a backend with the fewest sessions, ties broken in any way, and none only without backends; it is a pick of the step system |
| Scheduler.ManagerState.Record | manager/src/main.rs:2436-2443 | an opened session is recorded on its backend for its opener, and all others stay; that is a commit of the step system |
| Scheduler.ManagerState.CmdClose | manager/src/main.rs:2447-2459 | closing is refused iff the session is unknown; else it is in neither map any more, every other session keeps backend and owner, and its backend alone counts one session less |
| Scheduler.OpenedThenClosed | manager/src/main.rs:2410-2459 | a session that is opened counts until it is closed; then both maps and the choice of the next backend are as before |
| Scheduler.LoadCounts | manager/src/main.rs:2385-2389 | the load of a backend is the number of its sessions |
| Scheduler.StepKeepsBalance | manager/src/main.rs:2410-2445 | recorded plus on-the-way sessions of any backend stay within m of the recorded sessions of any other |
| Scheduler.OnItsWay | manager/src/main.rs:2410-2445 | an open counts for its backend from the pick until it is recorded or fails |
| Scheduler.SkewAtMostConcurrency | manager/src/main.rs:2410-2445 | without closes and with at most m opens at once the busiest and the idlest backend differ by at most m |
| Scheduler.OverlapSkews | manager/src/main.rs:2410-2445 | for every m that bound is reached |
| Scheduler.MapsAgree | manager/src/main.rs:2436-2459 | through any opens and closes a session has a backend iff it has an owner |
| Debounce.SettledMeansHandedOver | manager/src/main.rs:3364-3392 | for any order of timers nothing is handed over twice or made up; once a number's timers are done no text is left, and each non-empty text was handed over iff no arrival overwrote it while it waited |
| Debounce.LastTextHandedOver | manager/src/main.rs:3384-3388 | so the last non-empty text was handed over iff it was not overwritten, and always if no empty one came after it |
| Debounce.EmptyRepaintLosesAnswer | manager/src/main.rs:3384-3388 | a run in which an empty repaint discards the answer before it |
| Debounce.CheckPassesIff | manager/src/main.rs:3379-3386 | the timer of the v-th arrival of a number goes on iff no later arrival has been counted; else it ends and changes nothing |
| Debounce.ArrivalStartsTimer | manager/src/main.rs:3364-3378 | each arrival replaces the waiting text and starts one timer for its place in the order |
| Decimal.ReadsBack | worker/src/lib.rs:2030-2033 | printed numbers of any width read back |
| Calendar.CivilDate | worker/src/lib.rs:1992-2029 | the year and month loops end with a valid Gregorian date whose day number, in closed form, is the input |
| Calendar.DaysOrderDates | worker/src/lib.rs:1992-2029 | dates order as their day numbers, so a day has one date |
| Calendar.DayNumberFormula | worker/src/lib.rs:1992-2029 | the day number is that of the usual formula for the Gregorian calendar, counted from March |
| Calendar.IsoNow | worker/src/lib.rs:1982-2034 | the text names the moment that is the input |
| Calendar.IsoLayout | worker/src/lib.rs:2030-2033 | up to year 9999 the fields and separators stand where RFC 3339 puts them |
| Calendar.TodayYyyymmdd | worker/src/lib.rs:2038-2082 | the text names the day of the input |
| Calendar.QaLogName | worker/src/lib.rs:1612-1662 | the name is that of day and hour of the input |
| Calendar.LogNameLayout | worker/src/lib.rs:1655-1662 | up to year 9999 the name reads `qa_claude_`, eight digits of the day, two of the hour and the suffix, each in its place |
| Calendar.IsoOrder | worker/src/lib.rs:2030-2033 | up to year 9999 texts sort exactly as moments |
| Calendar.FourDigitYears | worker/src/lib.rs:2030-2033 | that is exactly before second 253402300800 |
| Calendar.FiveDigitYearSortsFirst | worker/src/lib.rs:2030-2033 | at year 10000 it fails |
| Calendar.CopiesAgree | worker/src/lib.rs:2038-2082 | any date with the day number of a moment, which is what the contracts of all three texts give, is the date in the stamp of that moment, digit for digit |
| Query.PercentDecode | manager/src/main.rs:1153-1174 | the index loop computes the decoding of the whole text |
| Query.HexDigits | manager/src/main.rs:1159-1160 | the sixteen digits in either case, and nothing else |
| Query.DecodesBack | manager/src/main.rs:1153-1174 | decoding inverts every percent-encoding, byte for byte |
| Query.EveryTextEncodes | manager/src/main.rs:1153-1174 | every byte string has an encoding, two hexadecimal digits a byte, and it decodes back |
| Query.ParseQueryParam | manager/src/main.rs:1140-1151 | the loop finds the first part that carries the key |
| Query.QueryReadsBack | manager/src/main.rs:1137-1151 | any printed list of parameters reads back: the first value of the key, none if missing or empty |
| Query.MalformedPassesIff | manager/src/main.rs:1157-1172 | a percent sign that starts no two hexadecimal digits passes through iff it is not followed by a plus sign and a hexadecimal digit |
| Query.DecodedAsPromisedIff | manager/src/main.rs:1137-1174 | a whole text decodes by two-digit escapes alone, all else passing through, iff it nowhere has a percent sign, a plus sign and a hexadecimal digit in a row |
| Query.SignedEscape | manager/src/main.rs:1158-1164 | such an input |
| Attachment.LengthWithoutDecoding | manager/src/main.rs:2625-2631 | for every byte string the length computed from its padded base64 is its length |
| Attachment.GroupBits | manager/src/main.rs:2625-2631 | the encoding it is about: four letters carry the bits of three bytes, RFC 4648 section 4 |
| Attachment.AcceptedIff | worker/src/lib.rs:236-258 | the two size checks together accept exactly payloads of at most 3 * floor(max / 3) bytes |
| Attachment.LimitMissesOneByte | worker/src/lib.rs:206-208 | so a payload of exactly the limit is rejected |
| Scrape.JoinAnswer | worker/frontend/claude_cli_parser.js:83-108 | the row loop computes the joined answer: soft wraps by spaces, other rows by newlines |
| Scrape.RowBelowRow | worker/frontend/claude_cli_parser.js:95-105 | a row below another goes on after a space iff the one above fills the width and neither is a table or code row, else on a new line |
| Scrape.RowBelowBlank | worker/frontend/claude_cli_parser.js:92-99 | below a blank row a new paragraph starts; blank rows on top count nothing |
| Scrape.RunsOfNewLines | worker/frontend/claude_cli_parser.js:107 | of a run of newlines exactly the first two are kept |
| Scrape.AnswerKeepsText | worker/frontend/claude_cli_parser.js:78-108 | every visible character is kept in order, and there are never three newlines in a row |
| Scrape.Parser.Extract | worker/frontend/claude_cli_parser.js:122-180 | the line loop computes the pairs on the screen |
| Scrape.PairsOfBlocks | worker/frontend/claude_cli_parser.js:122-180 | a screen gives each question with the answer below it, from the first bullet on and without furniture; what stands above the first question, or a question without an answer, gives no pair |
| Scrape.ClosedPairsStay | worker/frontend/claude_cli_parser.js:137-145 | when the screen grows, pairs closed by a later question stay as they are |
| Scrape.Parser.Scan | worker/frontend/claude_cli_parser.js:110-218 | a scan saves and broadcasts new questions and longer answers, and does nothing when disabled |
| Scrape.Parser.Stop | worker/frontend/claude_cli_parser.js:315-318 | stopping scans once more and disables |
| Scrape.RunSavesExtracted | worker/frontend/claude_cli_parser.js:110-318 | the state after any run of starts, scans and stops is that of all pairs found since the last start, saved in order |
| Scrape.LongestAnswerSaved | worker/frontend/claude_cli_parser.js:189-198 | after any run the saved answer of a key is one found since the last start and as long as any, and the count is the number of keys |
| Scrape.BroadcastsTell | worker/frontend/claude_cli_parser.js:187-218 | after any run each broadcast is a pair that was found, marked new iff it is the first of its question and numbered with the questions so far, and the last one of a question holds its saved answer |
| Scrape.SeenScreenIsSilent | worker/frontend/claude_cli_parser.js:189-193 | a screen that was scanned broadcasts and changes nothing when shown again, whatever was shown in between, until the next start |
| Scrape.StoppedIsSilent | worker/frontend/claude_cli_parser.js:291-318 | a stop scans once more; then nothing changes until a start, which begins from nothing |

## Left out

- WebSocket, HTTP and JWT handling, SQL text and the two dialects: a database call is one step on a map from key to row.
- A failed INSERT of a question and a failed UPDATE to confirmed: the reader goes on, which changes nothing in the model.
- Closing sessions, client bookkeeping and the `ack` and `err` frames of a connection.
- The payload's `question` field and the scraper's broadcast number identify no pair reliably, so nothing is claimed about them.
- Timestamps, latencies and `last_used`: no claim that clocks are monotonic.
- Lossy UTF-8: bytes are characters, and decoding is the identity on valid text.
- Unicode white space: trimming drops space, tab, newline and carriage return only.
- Provision.Box.ProvisionEntries: symbolic links, canonicalization, disk faults and races with other writers are not modelled; an entry whose folder is a file fails as it does on disk.
- A template entry at the path of the stamp file would forge the stamp; the migration model assumes there is none.
- TemplateRoundTrip.NormalFormSameDiskIff: speaks of the disk, not of the number of created entries in the reply, which counts dropped folders.
- WalkBox.Walker.Walk: entries that vanish between listing and inspection, and names that are not valid text or hold a backslash, are not modelled.
- The admin web's `buildTree` (admin-web/lib/sandbox-tree.ts) is `entriesToTree` without implied folders; CutOffKeepsParents shows that its input has no orphans.
- Migration.EveryInterleaving: one worker process, which holds for the manager as it always provisions through its first backend; the run of claude itself is a step that succeeds or fails.
- Integer overflow of versions, counters and epoch days.
- Scheduler.SkewAtMostConcurrency: runs with closes are not bounded here; which sessions clients close decides the skew then.
- Debounce: the qa loop stopping in the middle of an arrival, and what flush_answer then does, which is Flushes.
- Flushes.StepKeepsInv: one connection, whose rows others at most confirm, as ChatMachine.OthersOnlyConfirmed shows; a failing SELECT changes nothing and is no step.
- Calendar.CopiesAgree: the three copies of the loops are one method here, so that the loops themselves agree is built in.
- Calendar.CivilDate: one method stands for three textually identical copies of the loops; Calendar.QaLogName takes the cleaned session suffix as given.
- Attachment.AcceptedIff: decoding is that of a foreign library, taken to return the bytes that were encoded; file names and MIME types are left out.
- Scrape.Parser.Scan: the patterns that recognise chrome, bullets, prompts and table rows are parameters; log files and the panel are left out.
- `substitute_vars`, `sanitize_path_component`, `clean_answer`, session spawning and the box of an admin: thin or pure helpers without state.
- All of admin-api, the deployment scripts and the window and PTY code.
