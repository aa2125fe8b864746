# ProofCoder, modelled and proved in Dafny

ProofCoder is a bounded agent runtime: a loop asks a language model for tool calls,
runs them in a workspace, and decides from local evidence alone how the run ended. This
project models the parts of it whose correctness is not visible from one function and
proves what they promise.

| part | files | main result |
|---|---|---|
| Checkpoint and rollback | FileTree, Checkpoint, Rollback, RollbackTheory, RollbackGuarantees, RollbackLinks, RollbackConvergence | when exactly what is not restored is what is reported; two rounds or never |
| Edit engine | EditText, EditEngine, EditApply, EditTheory, EditSeams, EditShift, EditEqual, PatchFile, BoundDiff | an edit is plain replace-all exactly when no carriage return meets a line feed at a seam; a patch is a fold |
| Message history and context | History, Context | every call answered once; every view is itself a legal history |
| Evidence gate | Evidence | verified means fresh, over every run |
| Agent loop | Progress, Host, EventPayload, Turns, AgentLoop | the record is exact and every limit holds for every model, tool and clock; every call is answered unless a step before it raises |
| Trace | Lines, Trace, Emitter | a trace that reads as complete is whole |
| Stream assembly | Stream | the response does not depend on how the stream was cut |
| Bounds and retention | Retention, Carry, Capture | the least removal that meets the bounds |
| Commands and sandbox | Commands, PathOptions, Seccomp | a policy only extends; the filter returns the intended verdict |

Prelude holds shared pieces; `dafny verify dfyconfig.toml` covers every file.

## How the source is modelled

- The workspace is a well-formed map from paths to directories, files with content, mode
  and time, links and special files. A link names a place in the workspace or something
  outside it, and creating directories, writing, deleting and removing follow links as the
  source's calls do. Scan, capture, planning and applying are methods with the loops of
  the source; `RolledBack` is the closed form they are proved to compute.
- The closed form and what is proved of it hold for a workspace in which no link in place
  of a baseline directory leads to a directory, now or once the rollback has made missing
  ones (`PlainLinks`, part of `Ready`; `ReadyForGood` for several rounds).
  `RollbackLinks` proves of the actual runs that this is what the completeness of the
  report takes, and what happens otherwise.
- A file's text is read as units: plain characters and the three newline styles. The
  boundary table, the match list and the splices are proved against units.
- The model service, the tools, the clock and the cancel request are one `Host` whose
  methods answer arbitrarily and only record what was asked and what they answered. An `AgentLoop` object is one
  run. Recording an event, preparing calls, measuring a view and asking the model are
  steps of that host which may raise; announcing a call surely does when its payload
  cannot be encoded (`EventPayload`); a step that raises of its own accord is marked so. Python's floats are `real`.
- Digests are an abstract function; theorems that need it assume it injective. JSON is an
  abstract encoding without raw line feeds that parses back. Sensitivity of a name,
  resolution of a path, case folding and rendering of messages are uninterpreted
  functions.

## Where code and documentation differ

The model follows the code.

- Sensitive paths: docs/DESIGN.md:176 and docs/THREAT_MODEL.md:180 say that rollback never
  writes, deletes or recreates one. The code keeps this for files but creates and removes
  directories with sensitive names; `SensitivePathsExactly` says exactly which.
- Idempotence: docs/THREAT_MODEL.md:120 and README.md:178 of the repository say that
  repeating a rollback is a no-op. It is, except after a file took the place of a directory or
  the reverse; `IdempotentExactly` gives the condition.
- Results: docs/THREAT_MODEL.md:85 and docs/DESIGN.md:96 promise one result for every call of a
  response. An exception while an event is recorded ends the run with calls unanswered, and
  a model can cause one with arguments that hold half of a surrogate pair;
  `AnsweredExactly`, `UnannounceableEndsRun` and `SurrogateCall`.
- Links: docs/THREAT_MODEL.md:182 says that no failed path is omitted from the reported
  result. When a run replaced a baseline directory by a link to another directory, its
  creation counts as completed, files below it are written into the other directory, and
  neither is reported; `CompleteReportExactly` and `LinkedDirectoryOverwritten`.
- Names and dates: docs/DESIGN.md:174 says that a rollback covers changes from any source inside the
  captured scope. A file with a backslash in its name, or one dated before 1970, can be
  captured, and then the checkpoint can never be loaded (`LoadableExactly`,
  `OldFileNeverLoads`); an added file with such a name is never deleted
  (`BackslashNeverCompletes`).
- Freshness: docs/DESIGN.md:180 says any later built-in modification makes a verification
  stale. Only `create_file` and `replace_in_file` do (src/proofcoder/verification.py:10);
  `FreshForEveryWriteExactly` and `PatchKeepsVerification` state the gap.

## Model

| member | source | states |
|---|---|---|
| Checkpoint.ScanWorkspace | src/proofcoder/checkpoint.py:662-724 | The scan lists every file in scope and every directory in scope exactly once, in code-point path order, and counts exactly the ignored directories, links and special files that are not covered |
| Checkpoint.WalkWorkspace | src/proofcoder/checkpoint.py:662-724 | The work-list walk ends, and when the list is empty nothing in scope was missed, whatever order directories are taken in |
| Checkpoint.WalkIsComplete | src/proofcoder/checkpoint.py:662-724 | An empty work list means everything in scope was examined: a set closed under in-scope children that contains the root is all of the scope |
| Checkpoint.WalkReachesScope | src/proofcoder/checkpoint.py:662-724 | Every in-scope directory is reached from the root through in-scope directories |
| Checkpoint.ExamineEntry | src/proofcoder/checkpoint.py:662-724 | Each entry is filed as exactly one of file, directory to walk, or counted gap |
| Checkpoint.CaptureEntries | src/proofcoder/checkpoint.py:727-797 | Every scanned file gets one entry and no other content is stored than that of captured entries; the whole capture is refused if and only if there are too many files, or more bytes than the limit in the files that are not sensitive, not over the size limit and readable |
| Checkpoint.CapturedExactly | src/proofcoder/checkpoint.py:775-797 | The content of a file in scope is kept if and only if its path is not sensitive, its size is within the limit and it is readable; then the blob under its digest is its content if the digest is injective; the other three states have their own conditions, and every entry has the size, mode and time of its file |
| Checkpoint.CaptureIsBaseline | src/proofcoder/checkpoint.py:307-367 | The entries recorded in sequence are the baseline of the tree: each entry describes its file, and each stored blob belongs to a captured entry |
| Checkpoint.CreateCheckpoint | src/proofcoder/checkpoint.py:307-367 | The checkpoint of a tree is its baseline, with what is kept of each file decided by the path, size and readability of that file alone; it is refused if and only if the files in scope are more than the limit or the bytes to capture are, in whatever order they are scanned |
| Checkpoint.LoadableExactly | src/proofcoder/checkpoint.py:1060-1074 | Capture checks neither names nor dates and loading does: a captured checkpoint can be loaded if and only if every file and directory in scope has a name without backslash and NUL and no file in scope is dated before the epoch |
| Checkpoint.OldFileNeverLoads | src/proofcoder/checkpoint.py:155-172 | The counterexample to loading what was captured: a file dated before 1970 is captured like any other, and then no checkpoint of its workspace loads |
| Checkpoint.PlanRollback | src/proofcoder/checkpoint.py:391-450 | The plan holds exactly the differences between the tree and the baseline that rollback acts on, each once with its source, and exactly the covered gaps, each once; it shows baseline files, added files, missing directories and new directories in that order, each part by path and the last one backwards |
| Checkpoint.PlanAgainstOriginal | src/proofcoder/checkpoint.py:391-450 | In terms of the captured tree and the present one: the items of a plan are exactly the files missing, changed or added and the directories missing or added, those at a file a tool wrote marked so, and its skips are exactly the changes to files whose content was not kept, each with its reason |
| Checkpoint.PlanBaseline | src/proofcoder/checkpoint.py:413-429 | Every baseline entry is decided, in path order: restore, recreate, report or leave alone |
| Checkpoint.PlanAddedFiles | src/proofcoder/checkpoint.py:431-438 | Every added file is planned for deletion unless it is sensitive, and then reported |
| Checkpoint.PlanDirectories | src/proofcoder/checkpoint.py:440-444 | Missing baseline directories are planned for creation and new directories for removal, each once |
| FileTree.Workspace.MakeDirectory | src/proofcoder/checkpoint.py:906-913 | Creates a directory with its parents; what is there already will do if it is a directory or a link to one, and any other leaf is a failure that changes nothing |
| FileTree.MadePlain | src/proofcoder/checkpoint.py:906-913 | Without links to directories on the way, a directory is made exactly when no leaf is in the way, and then with all its parents |
| FileTree.Workspace.RemoveFile | src/proofcoder/checkpoint.py:898-903 | Removes a leaf where the path leads, a link itself and not what it names; a missing one is no failure; a directory is one and stays |
| FileTree.Workspace.RemoveDirectory | src/proofcoder/checkpoint.py:916-925 | Removes an empty directory; a missing one is no failure; one with entries is and stays, and so does a link to a directory |
| Rollback.OrderedActions | src/proofcoder/checkpoint.py:833-852 | The actions are a permutation of the plan in phase order, shallow before deep and removals deepest first, ties by path |
| Checkpoint.PathTextAppends | src/proofcoder/checkpoint.py:833-852 | The string paths are ordered by is their components with slashes between them; Prelude.StringLeqExactly: the order is lexicographic by code point |
| Rollback.RestoreFile | src/proofcoder/checkpoint.py:875-895 | Writes back exactly the stored baseline content and mode where the path leads, replacing a link at the end but following links on the way, and refuses missing or corrupt content before touching the tree |
| Rollback.PerformAction | src/proofcoder/checkpoint.py:480-487 | The path is checked again, its name and whether its parent leads out of the workspace; then one action has the outcome of the action on the tree, and its failure code |
| Rollback.ApplyRollback | src/proofcoder/checkpoint.py:453-501 | Applies every action in order; a refused path or a failure is recorded and never stops the rest |
| RollbackTheory.BaselineIsSound | src/proofcoder/checkpoint.py:307-367 | A captured baseline contains the parent directory of every path in it |
| RollbackTheory.BaselineStep | src/proofcoder/checkpoint.py:855-895 | In its place in the schedule, creating a baseline directory or writing a captured file back succeeds or fails as the tree before the rollback predicts, and with the code it predicts |
| RollbackTheory.SameWay | src/proofcoder/checkpoint.py:1085-1096 | Checked again at apply time, a baseline directory path leads where it led before the rollback: outside, to itself, or below a place where nothing is |
| RollbackTheory.DeleteStep | src/proofcoder/checkpoint.py:480-487 | A planned deletion fails exactly when the name does not pass the path check |
| RollbackTheory.RemainderIsStuck | src/proofcoder/checkpoint.py:916-925 | When a new directory is due for removal, what is left in it is exactly what was out of scope, sensitive, or of a refused name before the rollback |
| RollbackTheory.RemoveStep | src/proofcoder/checkpoint.py:855-925 | Removing a new directory fails exactly when such an entry sits inside it or its own name is refused |
| RollbackTheory.ApplyPrefix | src/proofcoder/checkpoint.py:453-501 | After any prefix of the schedule the tree and the result lists are what the starting tree predicts, path by path |
| RollbackTheory.ApplyPlanExactly | src/proofcoder/checkpoint.py:453-501 | Unless a link to a directory stands in place of a baseline directory, applying a plan to the tree it was made for gives the closed-form tree RolledBack, and completed and failed actions with their codes as predicted from the starting tree alone |
| RollbackGuarantees.RollBack | src/proofcoder/checkpoint.py:370-501 | Load, plan, apply: a checkpoint that cannot be loaded changes nothing; otherwise the run of the plan is exact, and without a link to a directory in place of a baseline directory the new tree is RolledBack of the old one, every planned action is in exactly one of the completed and failed lists, with its predicted code, and the round completes exactly when none was predicted to fail |
| RollbackGuarantees.FiledExactly | src/proofcoder/checkpoint.py:453-501 | Completed and failed items together are as many as the plan |
| RollbackGuarantees.ReportedExactly | src/proofcoder/checkpoint.py:391-501 | After such a round a path is away from the baseline if and only if an action on it failed or it is reported as skipped |
| RollbackGuarantees.BaselineMeansOriginal | src/proofcoder/checkpoint.py:307-367 | With an injective digest, being at the baseline means holding the captured directories and files: the same bytes, readable, in every file that was not sensitive, not over the size limit and readable, and the same size and time in every other |
| RollbackGuarantees.BringsBack | src/proofcoder/checkpoint.py:875-895 | Such a file, unless an action on it failed, is left alone if its content was still there and readable, and else written back with the content and the mode of the captured one |
| RollbackGuarantees.RollbackRestoresOrReports | src/proofcoder/checkpoint.py:307-501 | Capture a tree, change the workspace and the stored blobs in any way that leaves no link to a directory in place of a baseline directory, roll back: every path that is neither failed nor skipped holds what the captured tree held; a file that was not sensitive, within the size limit and readable is brought back with its content, and any other has its size and time |
| RollbackGuarantees.UnplannedUntouched | src/proofcoder/checkpoint.py:453-501 | A path no action was planned for is untouched, under the same condition |
| RollbackGuarantees.OutOfScopeUntouched | src/proofcoder/checkpoint.py:662-724 | Links, special files and everything inside ignored directories survive, unless a captured file is written over a leaf, under the same condition |
| RollbackGuarantees.SensitiveFilesUntouched | src/proofcoder/checkpoint.py:413-444 | No sensitive file is written, deleted or recreated, under the same condition |
| RollbackGuarantees.SensitivePathsExactly | src/proofcoder/checkpoint.py:413-444 | Exactly when a sensitive path is changed: only directories are, a missing baseline one that can be made or a new one whose removal does not fail |
| RollbackGuarantees.SensitiveDirectoryRemoved | src/proofcoder/checkpoint.py:440-444 | A counterexample: a new directory with a sensitive name is removed |
| RollbackGuarantees.RoundKeepsTree | src/proofcoder/checkpoint.py:453-501 | A rollback leaves a well-formed tree |
| RollbackGuarantees.RoundKeepsLinks | src/proofcoder/checkpoint.py:906-913 | If no link in place of a baseline directory names a baseline directory either, a rollback keeps it so, and the condition of these results holds for every later round |
| RollbackLinks.CompleteReportExactly | src/proofcoder/checkpoint.py:453-501 | Of the actual run of every plan, when links that name a missing baseline directory that can be made name one nearer to the root: the paths away from the baseline are exactly those filed as failed or skipped if and only if no link in place of a baseline directory leads to a directory, before the run or once that directory is made |
| RollbackLinks.LinkGoesUnreported | src/proofcoder/checkpoint.py:906-913 | A link in place of a baseline directory that leads to a directory by the time of its creation: the creation counts as completed, the link stays, and nothing is filed for it |
| RollbackLinks.RestoreThroughLink | src/proofcoder/checkpoint.py:875-895 | A file written back below such a link lands in the directory the link names |
| RollbackLinks.LinkedDirectoryOverwritten | src/proofcoder/checkpoint.py:453-501 | A counterexample: nothing fails, and a file for which nothing was planned is overwritten through a link |
| RollbackConvergence.CompletesExactly | src/proofcoder/checkpoint.py:453-501 | A round completes if and only if no path was swapped between file and directory, nothing unremovable is in the way, no added name is refused by the path check, and every content still needed is intact |
| RollbackConvergence.StoredExactly | src/proofcoder/checkpoint.py:875-895 | Stored content is written back exactly when it is there and has the recorded digest; missing content is a read error and content with another digest corrupt |
| RollbackConvergence.CleanRoundClears | src/proofcoder/checkpoint.py:453-501 | One round clears every swap of a clean tree |
| RollbackConvergence.UncleanStays | src/proofcoder/checkpoint.py:453-501 | An obstacle rollback may not or cannot remove stays an obstacle |
| RollbackConvergence.TwoRoundsOrNever | src/proofcoder/checkpoint.py:391-501 | Over any number of rounds: a clean tree is restored after at most two, any other never completes |
| RollbackConvergence.BackslashNeverCompletes | src/proofcoder/checkpoint.py:1066-1096 | An added file with a backslash in its name: its deletion is planned and refused in every round, it stays, and no round completes |
| RollbackConvergence.CompleteMeansNothingPlanned | src/proofcoder/checkpoint.py:391-501 | After a complete round a fresh plan has no items |
| RollbackConvergence.IdempotentExactly | src/proofcoder/checkpoint.py:391-501 | Repeating a rollback changes nothing if and only if the first round cleared no swap |
| RollbackConvergence.RepeatingCanChange | src/proofcoder/checkpoint.py:833-925 | A counterexample: a file in place of a baseline directory makes the second round change the tree |
| Retention.PruneCheckpoints | src/proofcoder/checkpoint.py:521-556 | The unprotected checkpoints are listed by date and within one date by identifier, each as often as it is stored; those removed are all older than those left; afterwards both bounds hold, and they held after no fewer removals; freed bytes are the removed ones |
| Retention.OlderExactly | src/proofcoder/checkpoint.py:521-556 | Older means an earlier date, or the same date and an identifier that is not later, both lexicographically |
| Retention.SessionStore.Prune | src/proofcoder/session.py:344-376 | Removes the oldest sessions except the kept one, all of them older than those left; afterwards both bounds hold or nothing removable is left, and no smaller removal meets them |
| Retention.SessionStore.RoomForOne | src/proofcoder/session.py:344-376 | Pruning with one slot reserved leaves fewer than the maximum of other sessions, whether or not the kept one is stored |
| Retention.SessionStore.Create | src/proofcoder/session.py:228-246 | Creating a session never leaves more than sixteen readable sessions, and changes none of those it keeps |
| Carry.BuildSessionCarry | src/proofcoder/session.py:426-477 | The limit is the whole part of the budget times the ratio, at least one; the first trimming stage whose text fits is carried and every less-trimmed stage did not fit; the kept runs are the newest ones, unchanged but for the account of the oldest; carried and dropped add up to all runs; the text fits or is empty |
| Carry.AccountExactly | src/proofcoder/session.py:426-477 | A run has an account exactly when taking it away changes the record; the facts and the verification stay |
| Carry.StagesInOrder | src/proofcoder/session.py:426-477 | Of two trimming stages one comes before the other |
| EditText.TwoPassAgrees | src/proofcoder/tools/edit.py:617-618 | The two replacement passes give the characters of the newline units of a text |
| EditText.ParseRenderCount | src/proofcoder/tools/edit.py:621-636 | Reading a rendered text back loses one unit for every carriage return that ended up before a line feed, so it is the identity exactly without such a place |
| EditText.NormalizeRender | src/proofcoder/tools/edit.py:617-618 | Normalising a rendered text gives the characters of its units exactly when no carriage return ended up before a line feed |
| EditEngine.NormalizeWithBoundaries | src/proofcoder/tools/edit.py:621-636 | The one-pass text equals the two-pass one, and the table is strictly increasing from zero to the length of the text, mapping every normalised position to its source position |
| EditEngine.FindNonOverlapping | src/proofcoder/tools/edit.py:639-648 | The matches are the leftmost non-overlapping ones |
| EditEngine.MatchesReplaceAll | src/proofcoder/tools/edit.py:639-648 | Replacing at these positions is plain replace-all, and their number is its count |
| EditEngine.DominantNewline | src/proofcoder/tools/edit.py:651-678 | The scan computes the dominant style of the text |
| EditEngine.DominantOutranks | src/proofcoder/tools/edit.py:651-678 | The dominant style occurs, and every other style is rarer, or as frequent and first seen later |
| EditApply.ApplyOneEdit | src/proofcoder/tools/edit.py:515-552 | The edit splices in place of every match the replacement in the local newline style, fixes the terminal newline, and rejects no match or a wrong number of matches |
| EditApply.CharsEdited | src/proofcoder/tools/edit.py:515-552 | On characters the splice is replacement at the match positions |
| EditTheory.TerminalOfText | src/proofcoder/tools/edit.py:681-688 | A text ends in a newline style if and only if its normal form ends in a line feed |
| EditTheory.EditIsPlainExactly | src/proofcoder/tools/edit.py:515-552 | For every file, mixed or not: the edit normalises to plain replace-all under the terminal rule if and only if no carriage return lands before a line feed in the spliced units |
| EditSeams.EditIsPlainBySeams | src/proofcoder/tools/edit.py:515-552 | The same decided before the edit, from the units of the file, the match positions, the normalised replacement and its local styles: the edit is plain if and only if no carriage return meets a line feed at a seam that stays in the result, and a final line feed is not put back behind a carriage return |
| EditSeams.WalkSeesSplits | src/proofcoder/tools/edit.py:515-552 | Knowing only the last two units written, the walk over the seams finds every place where two newlines merge |
| EditSeams.PlainEndsArePlain | src/proofcoder/tools/edit.py:515-552 | A replacement that begins and ends with an ordinary character merges nothing, in any file |
| EditTheory.SingleStyleEdit | src/proofcoder/tools/edit.py:515-552 | On a file with one newline style the edit is plain replace-all, and keeps the style and the terminal newline |
| EditTheory.UnmixedEdit | src/proofcoder/tools/edit.py:515-552 | The failing family seen from the input: an edit can differ from plain replace-all only in a file with both lone carriage returns and lone line feeds |
| EditTheory.EqualEditUnchanged | src/proofcoder/tools/edit.py:515-552 | Replacing a text by itself returns a one-style file unchanged |
| EditEqual.EqualEditExactly | src/proofcoder/tools/edit.py:515-552 | Of every file, mixed or not: replacing a text by itself returns it unchanged if and only if every newline in a match has the style that dominates the match, the last unit of the file aside |
| EditTheory.MixedEditIsNotPlain | src/proofcoder/tools/edit.py:515-552 | A counterexample: in a file with both, an edit merges a carriage return with a line feed |
| PatchFile.StoredFile.ReplaceInFile | src/proofcoder/tools/edit.py:310-335 | The file is replaced exactly on success and unchanged on every rejection |
| PatchFile.StoredFile.Patch | src/proofcoder/tools/edit.py:338-419 | All edits are applied in memory first: the file becomes the left fold, or stays as it was |
| PatchFile.ApplyInMemory | src/proofcoder/tools/edit.py:338-419 | The loop computes the left fold of single edits |
| PatchFile.RejectionIsFirst | src/proofcoder/tools/edit.py:338-419 | A rejection names the first edit that rejects the fold of those before it |
| PatchFile.SuccessiveExactly | src/proofcoder/tools/edit.py:310-419 | Successive single calls leave a file if and only if the fold succeeds with its text, every text on the way passes the read checks, and the last is not too large, as long as no edit is about a byte order mark an earlier edit put in front |
| PatchFile.PatchEqualsSuccessive | src/proofcoder/tools/edit.py:310-419 | Under that condition on the mark: successive calls all succeed with a file if and only if the patch succeeds with it and every text on the way passes the read checks |
| PatchFile.SuccessiveFromMark | src/proofcoder/tools/edit.py:310-419 | Without the condition, from the edit that put the mark in front: successive calls leave a file if and only if the texts pass the read checks and a patch of the rest of the edits on the marked file leaves it |
| EditShift.EditShifts | src/proofcoder/tools/edit.py:515-552 | An edit whose target is not at the first character of a text is the edit of the rest: same rejection, same count, same result behind that character |
| PatchFile.SingleStylePatch | src/proofcoder/tools/edit.py:338-419 | On a one-style file a whole patch is the fold of plain replace-alls and keeps style and terminal newline |
| PatchFile.BomBreaksSuccessive | src/proofcoder/tools/edit.py:338-419 | A counterexample where an edit is about the mark: a patch goes on to match it, a second call reads it as the byte order mark and is rejected |
| PatchFile.PlainTextEdit | src/proofcoder/tools/edit.py:515-552 | Without newlines an edit is replace-all with a checked count |
| PatchFile.ChecksExactly | src/proofcoder/tools/edit.py:338-419 | The arguments pass exactly when every edit looks for something, expects 1 to 100 replacements and has two texts of at most 1 MiB; else the first wrong edit decides, its arguments before its sizes |
| PatchFile.PatchOutcomeExactly | src/proofcoder/tools/edit.py:338-419 | Case by case: one to thirty-two edits, the first wrong edit, a file over 1 MiB, one that looks binary, the first rejection, a result over 1 MiB, and else the fold of the text without its byte order mark, published with it |
| PatchFile.ReplaceIsPatchOfOne | src/proofcoder/tools/edit.py:310-335 | A single replacement is a patch of one edit |
| PatchFile.SizeConcat | src/proofcoder/tools/edit.py:310-335 | The size of a text is the sum over its characters, each one to four bytes by its code point (SizeOfOne) |
| BoundDiff.BoundDiff | src/proofcoder/tools/edit.py:750-787 | The result is the diff, or a head and a disjoint tail of it around a marker whose number of omitted characters is exact; head and tail fill the halves of what the marker leaves of 32768 characters, unless the first 99 or last 100 lines of a long diff are shorter; at most 200 lines, and at most 32768 characters for every diff shorter than ten to the 16000th |
| BoundDiff.MarkerSettles | src/proofcoder/tools/edit.py:767-780 | Four rounds always reach a fixed point: the third marker is as long as any later one |
| BoundDiff.LinesOfParts | src/proofcoder/tools/edit.py:750-787 | Head, marker and tail never have more than 200 lines, even when a cut splits a carriage return from its line feed |
| History.MessageHistory.AddSystem | src/proofcoder/context.py:86-91 | One step of the protocol, or an error that changes nothing |
| History.MessageHistory.AddUser | src/proofcoder/context.py:93-101 | One step of the protocol, or an error that changes nothing |
| History.MessageHistory.AddAssistant | src/proofcoder/context.py:103-110 | One step of the protocol, or an error that changes nothing |
| History.MessageHistory.AddTool | src/proofcoder/context.py:112-128 | One step of the protocol, or an error that changes nothing |
| History.ReplayConcat | src/proofcoder/context.py:73-138 | Replaying is compositional: a history replays as its parts one after the other |
| History.EachCallAnsweredOnce | src/proofcoder/context.py:103-138 | In every legal history the results after an assistant message answer exactly its calls, each once |
| History.LegalExactly | src/proofcoder/context.py:73-138 | A history is accepted message by message exactly when every message is in its place: the system message first and only there, a user message after anything but another and an assistant message after a user message or a result, both with nothing unanswered, a result after its calls or other results for a call that waits, and a JSON object; the calls pending are those not answered |
| History.ErrorsExactly | src/proofcoder/context.py:86-128 | Each error has its own condition: place first, then calls that wait, then the form of a result |
| Context.TokenBudget.Observe | src/proofcoder/context.py:64-70 | Any measurement keeps the ratio between 0.5 and 6.0; an unusable one changes nothing |
| Context.TokenBudget.ByteLimit | src/proofcoder/context.py:59-62 | The limit is the whole part of the tokens times the ratio, at least one |
| Context.ContextManager.TargetBytes | src/proofcoder/context.py:203 | The target is the whole part of the effective budget times the target ratio, at least one |
| Context.ContextManager.EffectiveBudget | src/proofcoder/context.py:178-186 | The smaller of the byte budget and the limit of the token budget, if there is one |
| Context.InteractionGroups | src/proofcoder/context.py:291-305 | The loop computes the groups |
| Context.GroupsFlatten | src/proofcoder/context.py:291-305 | Grouping loses and reorders nothing |
| Context.GroupsStartWithAssistant | src/proofcoder/context.py:291-305 | Every group is one assistant message and what follows it up to the next, except that messages before the first assistant message stand alone; if the list starts with an assistant message there are none of those |
| Context.ViewIsLegal | src/proofcoder/context.py:194-243 | Every view of a complete history, whatever number of groups it leaves out, is itself a complete history: the system prompt with the summary after a blank line, the task, and the messages from an assistant message on, with as many assistant messages left out before it as groups |
| Context.ContextManager.Build | src/proofcoder/context.py:194-228 | The view shows the history with the summary, fits the effective budget and leaves out no group if all fit, else the least number meeting the target, else all but the recent ones; it fails only when even that is too big |
| Context.ContextManager.OneCountOrNone | src/proofcoder/context.py:194-228 | These cases exclude each other: one number of groups is right, or none fits |
| Evidence.RunState.RecordChangedFile | src/proofcoder/state.py:80-86 | A change is listed once, dated, and withdraws the standing verification |
| Evidence.RunState.RecordErrorCode | src/proofcoder/state.py:95-99 | The newest sixteen error codes are kept |
| Evidence.NewestCodesKept | src/proofcoder/state.py:95-99 | A new code is added at the end, and the oldest of sixteen dropped for it |
| Evidence.VerificationTracker.RecordExecution | src/proofcoder/verification.py:32-89 | One executed result is exactly one step of the evidence rules and one event |
| Evidence.LatestIsNewestFresh | src/proofcoder/verification.py:32-89 | Over every run the verification kept is the newest accepted one if no tracked modification followed it; otherwise none is kept and every accepted one was followed by one; accepted is a successful run_command result with arguments, exit code zero, no timeout and kind test, build or static check |
| Evidence.ObservedExactly | src/proofcoder/verification.py:52-89 | Every run_command result with arguments is observed once, whatever its outcome, in the order of the events, and marked as accepted exactly when it is such a success |
| Evidence.ChangedExactly | src/proofcoder/state.py:74-86 | A file is listed as changed exactly when a tracked modification named it, with the event of the newest |
| Evidence.StatusExactly | src/proofcoder/tools/finish.py:216-261 | All four statuses: blocked exactly with a named blocker; without one, no changes exactly if no tracked file changed, verified exactly if one did and an accepted verification follows every tracked change, unverified exactly if one did and none does |
| Evidence.FailedTestsVerifyNothing | src/proofcoder/verification.py:73-89 | A run whose only command after its change failed, exited with another code than zero, timed out or is of another kind completes unverified |
| Evidence.BuildFinishOutcome | src/proofcoder/tools/finish.py:216-313 | The decision depends on local evidence and the blocker flag alone; each claim that disagrees is warned about, and no other |
| Evidence.FreshForEveryWriteExactly | src/proofcoder/verification.py:10-11 | The kept verification is newer than every write if and only if no successful patch_file, delete_path, move_path or make_directory followed it, and no tracked call whose path is not recorded |
| Evidence.PatchKeepsVerification | src/proofcoder/verification.py:10-11 | A counterexample: a patch after the tests leaves the run verified |
| Progress.NoProgressTracker.Observe | src/proofcoder/progress.py:44-72 | The repeat count is the one length of the longest suffix of batches equal to this one since the last modifying batch; the second warns and the third ends the run |
| Progress.UpdateConsecutiveFailures | src/proofcoder/agent.py:735-751 | The loop over calls and results computes the counter that the suffix law is about |
| Progress.FailuresCountSuffix | src/proofcoder/agent.py:735-751 | Over every run the counter is the one length of the longest suffix of completely failed batches |
| Host.RetryDelayBounds | src/proofcoder/retry.py:14-34 | Every delay lies between 0.5 and 30 seconds, honours a wish up to 30, stays within 10 without one, and does not shrink from one retry to the next |
| Host.RetryDelayDoubles | src/proofcoder/retry.py:14-34 | Without a wish the first delay is half a second and each further one twice the one before up to eight, lengthened by up to a quarter; a wish can only lengthen it, up to thirty |
| AgentLoop.AgentLoop.BackOff | src/proofcoder/agent.py:467-515 | A retry sleeps for its delay exactly if the delay fits the time left, so all sleeps together stay below the time limit |
| AgentLoop.AgentLoop.RequestModel | src/proofcoder/agent.py:467-515 | Every attempt sends the given view and nothing else; all but the last failed in a way that may pass; a response is the last reply; attempts stay within the limit, a success took one retry less than attempts, and without a success the run ends because the time was up, a delay did not fit what was left of it, the last failure was permanent, or the attempts for this response were used up |
| AgentLoop.AgentLoop.RecordResult | src/proofcoder/agent.py:654-668 | The history accepts the result of the next call before its events are recorded, which may raise, and the error count follows |
| AgentLoop.AgentLoop.RunTools | src/proofcoder/agent.py:587-643 | A prefix of the calls is executed in order with one event each, and each result is what the tool answered; an interrupted call has no event, and every call after it is told it was not started; a step that raises leaves the calls before it with their results |
| Turns.InterruptedIsTold | src/proofcoder/agent.py:950-962 | An interrupted call is told whether it was started or not, each with its code |
| AgentLoop.AgentLoop.RunFinish | src/proofcoder/agent.py:604-614 | A finish request allocates one event and closes the run only if accepted, as it was read, with the status the evidence at that moment decides |
| AgentLoop.AgentLoop.ExecuteBatch | src/proofcoder/agent.py:517-643 | On every path each call gets exactly one result in call order, unless a step raises, and then the calls before that step have theirs; a finish with companions, a duplicate identifier or a refused call keeps the whole batch from executing and allocates no event |
| Turns.DuplicatesExactly | src/proofcoder/agent.py:517-643 | A batch has a duplicate identifier exactly when two of its calls share one, and those are the calls told so |
| AgentLoop.AgentLoop.Judge | src/proofcoder/agent.py:385-461 | After a batch the run ends for the first of interrupt, time, finish, failures or repeats that applies, time only once the limit is reached, or goes on with both counters exact and below their limits and the note that is due |
| AgentLoop.AgentLoop.AnswerCalls | src/proofcoder/agent.py:354-383 | All calls of a response are answered, by executing them or by telling them they were not started, unless a step raises, and then exactly as many as that step says |
| AgentLoop.AgentLoop.Repair | src/proofcoder/agent.py:336-353 | A first response without calls is answered with a prompt, a second one ends the run |
| AgentLoop.AgentLoop.BuildView | src/proofcoder/agent.py:258-275 | The view shows the history with the summary of that moment and the right number of groups left out, and is itself a complete history; without one, no view made with the state of that moment fitted |
| AgentLoop.AgentLoop.AskWith | src/proofcoder/agent.py:276-281 | The view that was built is what every attempt sends, on record as a request for the next turn; the usage reported for it, and only that, calibrates the token budget with the size of the view |
| AgentLoop.AgentLoop.TakeTurn | src/proofcoder/agent.py:280-461 | One turn keeps the whole record: the history is the opening and the turns in order, with every call answered and, if the run goes on, the note that is due; an exception leaves on record the response, the results recorded before it, and the step that raised |
| AgentLoop.AgentLoop.TurnHeard | src/proofcoder/agent.py:280-322 | A turn that is put on record or cut off has the response that was received for it, and leaves every earlier request right |
| AgentLoop.HeardMore | src/proofcoder/agent.py:467-515 | Attempts are repeated only after a failure that may pass, and keep the requests in the order of the turns |
| AgentLoop.AgentLoop.Run | src/proofcoder/agent.py:222-465 | For every model, tool, clock, cancellation and exception of a step the run ends, with the record exact; every request carried the system prompt with a summary of the evidence and the failures at its moment, the task, and the history of the turns before it from a whole interaction on, with no more left out than its budget asks for; every response on record is the reply to the last request made for it and every result what the tool answered; model calls at most the steps, attempts at most steps times attempts per step, retries at most attempts minus calls, sleeps below the time limit, and a reason to end that holds of the turns, the clock, the last reply, the finish request, the views of the history or the step that raised, which did so of its own accord or because a call could not be announced; every call is answered unless a step raised |
| AgentLoop.AgentLoop.AnsweredExactly | src/proofcoder/agent.py:305-322 | After an internal error the result of a call of the last response is in the history, at its place, if and only if no step before that result raised |
| AgentLoop.AgentLoop.EveryCallAnsweredExactly | src/proofcoder/agent.py:222-465 | At the end of every run no call is pending if and only if no step raised before the result of a call |
| AgentLoop.AgentLoop.UnannounceableEndsRun | src/proofcoder/agent.py:305-322 | A response with a call that cannot be announced ends the run as an internal error with none of its calls executed or answered |
| AgentLoop.AgentLoop.OnlyUnannounceableCalls | src/proofcoder/agent.py:305-322 | When no step raises of its own accord, a run ends by an internal error exactly for a response with a call that cannot be announced |
| AgentLoop.AgentLoop.Catch | src/proofcoder/agent.py:229-238 | An exception ends the run as an internal error with its error code and the time measured; what was recorded stands |
| AgentLoop.SurrogateCall | src/proofcoder/events.py:669-717 | The input: a run_command call with half of a surrogate pair in its argument list cannot be announced |
| EventPayload.SanitizeExactly | src/proofcoder/events.py:898-952 | Sanitising a value raises if and only if a text it looks at, within the depth and item limits and not under a key left out, cannot be encoded |
| EventPayload.CallPayloadExactly | src/proofcoder/events.py:669-717 | Announcing a call raises if and only if the arguments or the identifier cannot be encoded, the parser raises, or the arguments are a mapping of which something shown cannot be: of a writing tool the bodies, which are digested, and the rest looked at, of a tool with a rule what is looked at, of any other the first 64 keys |
| EventPayload.BodiesAreDigested | src/proofcoder/events.py:692-703 | No body to be written reaches an event: the arguments of a writing tool are told as they are, except each body by the digest of its text |
| EventPayload.FirstKeysShown | src/proofcoder/events.py:705-717 | The keys shown of a tool without a rule are the first 64 in order |
| EventPayload.EntriesInOrder | src/proofcoder/events.py:898-952 | Entries of a mapping are ordered by key, and the first 64 that are not left out are looked at |
| AgentLoop.VerifiedRunsAreFresh | src/proofcoder/agent.py:391-430 | A finished run has each of the four statuses exactly when its blocker, its tracked changes and its accepted verifications say so; verified exactly if nothing blocked, a tracked file changed, and an accepted verification follows every tracked change of the run |
| Lines.BoundedLines | src/proofcoder/trace.py:381-395 | One item for every physical line of plain newline splitting, whatever its length |
| Lines.NextItem | src/proofcoder/trace.py:381-395 | Consumes exactly one physical line, asking for at most one byte more than the limit at a time |
| Lines.ShownExactly | src/proofcoder/trace.py:381-395 | A line within the limit is shown as it is, with its number and whether it ended; of a longer one only that it is longer |
| Lines.PhysicalRejoins | src/proofcoder/trace.py:381-395 | Splitting into lines loses nothing |
| Trace.WrittenLinesFit | src/proofcoder/events.py:133-146 | A written line is too large to be read if and only if the redacted event is too large and the fixed text, names and three numbers of the short form are too |
| Trace.OrdinaryLinesFit | src/proofcoder/events.py:133-146 | With the run ids and timestamps of the runtime every line fits whose three numbers have together at most 65000 digits |
| Trace.ReadTrace | src/proofcoder/trace.py:167-242 | The reader computes the scan of all lines, with an issue of the right code for every line it refuses, redacts payloads once more, and computes the order, the last termination event and completeness |
| Trace.OnlyRedactedIsWritten | src/proofcoder/events.py:133-146 | The line of an event carries its payload redacted, or the short form if that makes the line longer than 64 KiB, and nothing else of it |
| Trace.DecodeExactly | src/proofcoder/trace.py:398-465 | A line is an event exactly when it parses as a known event of this run with a positive number; each other kind of line has its one code |
| Trace.LineExactly | src/proofcoder/trace.py:174-216 | One line adds an event exactly when it fits and is one, and exactly the issues it has, each with its line number: too large, cut off, its own code, or a number not above the highest before |
| Trace.ReportExactly | src/proofcoder/trace.py:217-242 | The events are those of the lines ordered by number; one more issue is added exactly if none of them ends the run; complete means no issue and a last termination event that does not say otherwise |
| Trace.ScanWritten | src/proofcoder/trace.py:174-216 | Whole lines read back as the events written, their payloads redacted once more, without an issue, exactly when every line fits |
| Trace.CompleteExactly | src/proofcoder/trace.py:167-242 | For the events in the file and whatever a failed write left of the next: when exactly the trace reads as complete, and then exactly these events are returned in order |
| Trace.CompleteMeansWhole | src/proofcoder/trace.py:167-242 | A complete trace holds every event up to and including the termination event |
| Emitter.TraceRecorder.Emit | src/proofcoder/trace.py:117-144 | One whole line per event, redacted once more, until the first failed write, which may leave any part of a line and disables the recorder for good; an event that cannot be encoded is lost and the recorder goes on |
| Emitter.EventEmitter.Deliver | src/proofcoder/events.py:174-191 | Every sink gets the event; the file holds the first events and at most part of the next |
| Emitter.EventEmitter.Emit | src/proofcoder/events.py:238-299 | Events are numbered without gaps; a sink failure adds one warning event with its code if and only if that code is new |
| Emitter.EventEmitter.TraceIsTrustworthy | src/proofcoder/trace.py:117-242 | After any sequence of events and failures a trace that reads as complete is a prefix of the encodable events with a termination event that says so; while no sink has failed that is all events, read as complete exactly when every line fits and the last termination event says so |
| Emitter.EventEmitter.CompleteMeansNothingLost | src/proofcoder/trace.py:117-242 | If a termination event after a lost event admits it, a trace that reads as complete holds every event up to its last termination event |
| Stream.FeedExactly | src/proofcoder/llm/streaming.py:60-132 | Feeding a stream gives exactly its summary if the totals are acceptable and a permanent refusal otherwise: limits fire exactly when totals exceed them |
| Stream.AlikeStreamsAgree | src/proofcoder/llm/streaming.py:60-176 | The outcome depends only on the texts, the order of first appearance and, for each call, its arguments, first identifier and first name |
| Stream.CutFragment | src/proofcoder/llm/streaming.py:60-176 | Cutting any fragment anywhere gives the same response, or a refusal of the same category |
| Stream.DoneSaysEverything | src/proofcoder/llm/streaming.py:134-176 | A response has the whole text, reasoning and usage, one call for every index in the order of first appearance, each with the first name given, the first identifier given or the fallback, and all its arguments or an empty object, and it finished for its calls or else for the last reason given |
| Stream.DoneExactly | src/proofcoder/llm/streaming.py:134-176 | There is a response exactly if the totals are acceptable, something was said, and every call was named and its arguments parse as an object |
| Stream.RefusedExactly | src/proofcoder/llm/streaming.py:134-176 | At the end of an acceptable stream: no data exactly if nothing was said; else the first call that does not build decides, unnamed if it has no name and bad arguments if it has |
| Stream.OrderExactly | src/proofcoder/llm/streaming.py:94-132 | The calls are those with a part, in the order of their first parts |
| Stream.LastOnesCount | src/proofcoder/llm/streaming.py:60-93 | The reason to finish and the usage are the last ones given |
| Stream.StreamAssembler.AddText | src/proofcoder/llm/streaming.py:60-71 | One more fragment fed or its refusal; the callback gets exactly the accepted text |
| Stream.StreamAssembler.AddToolCallFragment | src/proofcoder/llm/streaming.py:94-132 | One more fragment fed or its refusal |
| Stream.StreamAssembler.Finish | src/proofcoder/llm/streaming.py:134-176 | The outcome of everything fed, and the callbacks concatenate to the content |
| Capture.BoundedCapture.Append | src/proofcoder/tools/command.py:67-78 | Head and tail are the longest allowed prefix and the longest allowed suffix of the rest of the whole stream, however it was cut up |
| Capture.BoundedCapture.RetainedExactly | src/proofcoder/tools/command.py:502-511 | Below the limit nothing is lost; above it the reported number of omitted bytes is the length of the one gap |
| Commands.PolicyOnlyExtends | src/proofcoder/safety/commands.py:235-327 | Everything but a missing allowance is decided the same with any policy as without, and a policy decides only what the built-in rules had no allowance for |
| Commands.PolicyAcceptsExactly | src/proofcoder/safety/commands.py:235-327 | A command is accepted on the word of a policy exactly if its executable stands for a program that is no built-in command, the policy lists that program, and the first entry for it permits the arguments; then with the kind and decision of that entry and the arguments unchanged |
| Commands.BuiltinAcceptsExactly | src/proofcoder/safety/commands.py:235-327 | A command is accepted by the built-in rules exactly if its executable stands for one of the five built-in commands and the validator of that command accepts |
| Commands.StandsForExactly | src/proofcoder/safety/commands.py:397-452 | Which program an executable stands for: Python by any of its names, the compiler, or, unless blocked, the program of its own name if it is known or listed, where it was found |
| Commands.NotAllowlistedExactly | src/proofcoder/safety/commands.py:397-452 | The one refusal a policy can lift: named, but neither Python, blocked, the compiler, known nor listed |
| Commands.RefusalsExactly | src/proofcoder/safety/commands.py:235-452 | Every other refusal, by the first check that fails: no arguments, preflight, script or compiler path, name, place, built-in validator, policy entry |
| Commands.PermitsExactly | src/proofcoder/safety/commands.py:825-866 | An entry permits exactly a declared subcommand, declared options up to a separator, and paths inside the workspace wherever an argument looks like one or follows the separator |
| Commands.GitExactly | src/proofcoder/safety/commands.py:789-822 | No git argument sets a scope or names a blocked option, before or after a separator, and every path-like argument and every one after a separator is a path inside the workspace |
| Commands.BlockedStaysBlocked | src/proofcoder/safety/commands.py:397-452 | A blocked executable stays blocked under every policy |
| Commands.ValidatePolicyEntry | src/proofcoder/safety/commands.py:825-866 | Accepts exactly a declared subcommand with declared options and paths inside the workspace |
| Commands.ValidateGit | src/proofcoder/safety/commands.py:789-822 | Reading is allowed and local writing needs confirmation; network and configuration commands, scope options and outside paths are refused |
| PathOptions.ValidatePathOptions | src/proofcoder/safety/commands.py:869-921 | Accepts exactly the arguments in which every option path, inline path and operand is inside the workspace and every option that needs a value has one |
| PathOptions.EveryOperandChecked | src/proofcoder/safety/commands.py:869-921 | Token by token: what is not an option, a separator or the value of an option is a checked path, and after a separator nothing but separators escapes |
| PathOptions.RootBarredExactly | src/proofcoder/safety/commands.py:869-921 | A path inside the workspace is refused for an option exactly when it is the root and the option is barred from it |
| Seccomp.FilterDecides | src/proofcoder/safety/seccomp.py:111-140 | For every architecture, call number and argument the program halts without a fault and returns the intended verdict |
| Seccomp.JumpsInRange | src/proofcoder/safety/seccomp.py:111-140 | Every jump lands inside the program |
| Seccomp.DenyAllIsStricter | src/proofcoder/safety/seccomp.py:111-140 | The deny-all form never allows what the other form denies, and differs exactly on native socket calls of other families |

## Left out

- Real input and output: partial reads, permissions, rename races, and the failures they add to the ones modelled for capture and restore.
- A file that can be read when its entry is captured or planned and not a moment later; a file of the model is readable or not, and an unreadable one is captured and planned as the source does.
- A link is known by where it finally leads, so a link through a second link that the same rollback replaces, and a link outside the workspace that leads back into it, are not modelled.
- RollbackLinks.CompleteReportExactly: leaves open a link on a baseline directory that names a missing baseline directory at the same depth or deeper; its own creation then fails and is reported, or not, by the order of paths, and what is written below it meets what else is written into the directory it names.
- File names that are not valid UTF-8, which the source refuses to capture: names are strings of Unicode characters here.
- File modes: as in the source they are restored but never compared.
- Manifest encoding and decoding, run and session identifiers, and the listing of damaged checkpoints and sessions.
- JSON text, hashing, redaction, UTF-8 decoding and regular expressions, which are abstract functions here; `read_trace` redacts payloads a second time (src/proofcoder/trace.py:461), so what it returns is proved equal to the emitted events up to that abstract redaction.
- Asynchronous interrupts outside the model request and outside preparing or executing a tool, which the source turns into an interrupted or internal-error result of the whole run.
- An interrupted tool may already have changed the workspace; as in the source its effect is not recorded.
- The content of the events of a run: that a step records one, and may raise, is modelled in the loop; what a recorder makes of events in Emitter and Trace; and of payloads only the announcement of a call, in EventPayload.
- An exception while the opening events or the termination event are recorded, which leaves the caller without a result.
- Token statistics, warnings and the texts of reports; the note to the model after a batch is a short constant.
- Approval of commands: only the time a person takes is modelled, as waiting inside a tool.
- Argument schemas, preflight checks and the parsing of finish requests, which are answers of the host.
- The validators for Python, pytest, ruff, unittest, compileall and the C++ compiler, abstract in Commands.Prepare; ValidateGit and ValidatePathOptions are proved on their own.
- Semantic fingerprints of batches: an abstract function of calls and results.
- Commands.ValidateGit: states acceptance and the decision, not which refusal message is given.
- PathOptions.ValidatePathOptions: states acceptance exactly, not which of two refusal codes is given.
- Carry.BuildSessionCarry: rendering and byte size are abstract, so it does not model the wording of the carried text.
- Stream.StreamAssembler.Finish: states the category of a refusal; the message texts are not modelled.
- Installing the seccomp filter, Landlock, subprocess control, the command-line and web interfaces, provider adapters, prompts and the evaluation fixtures.
