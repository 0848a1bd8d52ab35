# Crash-safe recovery of a hash-chained evidence log: a verified model

This project models, in Dafny, how `ops/canonical_*` copies, verifies and records an append-only,
hash-chained log in bounded steps that can be interrupted anywhere, and proves what those steps
guarantee. Five smaller stateful programs of the repository are modelled beside it: the byte
pacer, the loopback health probe, the backup consolidation, the watchdog and the auto-fixer.

The private directory is a map from file names to bytes (`Foundations.Disk`), changed only by
atomic operations: exclusive creation, replacement, removal. JSON decoding, the canonical
encoding, SHA-256, gzip and the file formats are given functions (`Codec`, `Doc`, `Tools`) about
which nothing is assumed except what a lemma asks for by name: that what is written reads back
(`Faithful`), that a digest has no collisions (`CollisionFree`), that the digests of one source's
ranges and of the progress files that occur are hexadecimal (`HexRanges`, `HexPins`), that the
canonical encoding is injective (`CanonicalInjective`), that the text of a row is one line which
reads back as the row (`LedgerWriter.WritesRow`), that expanding undoes compressing
(`Lossless`). A guard, a deadline, an admission check or a failing file operation is a
nondeterministic choice in the methods, which a call is free of when its argument `quiet` holds:
a quiet call must return and leave exactly what is specified, and any other call may also stop at
any of those points. What a quiet call is held to is in turn compared with conditions spelled out
apart from the program's own checks, in the two ledger files and those named after a form or
outcomes: which rows the ledger writes and which of them each verifier takes, which histories,
plans, journals, rollovers, responses, remedies and restarts are accepted, and what each leaves.
Methods that change several files return, as a ghost result, every durable disk they passed
through; the lemmas about whole runs speak of any list of such disks, so an exception or a kill at
any point is covered.

| file | what it holds |
|---|---|
| `Foundations.dfy` | bytes, names, disk, locks, the given functions and their laws |
| `ChainRows.dfy` | one row, the forward scan, and the declarative chain the scan decides |
| `FragmentedRow.dfy` | the verifier over one or two raw fragments |
| `ChainWindow.dfy` | the verifier over one window of the source |
| `LedgerWriter.dfy`, `LedgerSegments.dfy` | the ledger's writer, defined apart from the verifiers, and what each verifier makes of what it wrote |
| `FragmentProgress.dfy` | the pinned history and the compare-and-swap that appends to it |
| `HistoryForm.dfy` | which histories are accepted and what a recording call leaves, by its conditions |
| `HistoryRuns.dfy` | runs of recording calls, and lineages of linked histories |
| `ConcurrentWriters.dfy` | recorders interleaved one file operation at a time |
| `FragmentRollover.dfy` | linking a full history to an empty child |
| `RolloverForm.dfy` | when a rollover happens and what it leaves, by its conditions |
| `Pacing.dfy`, `RawChunk.dfy` | the byte pacer; staging one raw range |
| `RecoveryStep.dfy` | the journaled copy, verify and record step |
| `RetryRefinement.dfy` | interruptions and retries do not change what is recorded |
| `StepOutcomes.dfy` | what an uninterrupted step reports, told from the disk it leaves and from the source |
| `AttemptForm.dfy` | what a step opens and which journals are its own, by their conditions |
| `BoundedRows.dfy` | progress when no row is longer than the window |
| `RecoveryRuns.dfy` | whole runs of steps with changing windows: soundness, progress, rollover |
| `RecoveryCopies.dfy` | what whole runs copy, and when they copy a byte twice |
| `RecoveryLineage.dfy` | runs joined by rollovers |
| `RecoveryTick.dfy` | the bounded tick with its write-ahead journal |
| `TickRuns.dfy` | ticks as parts of recovery runs: soundness and progress |
| `TickChecks.dfy` | why a tick that nothing stops asks for reconciliation |
| `TickOutcomes.dfy` | what the turns of a tick do, told from the steps they make |
| `Segments.dfy`, `SegmentPlan.dfy` | the whole-row path: staging, re-verification, plans, progress |
| `PlanForm.dfy` | which receipts make a plan and what a series of progress calls reports, by their conditions |
| `HealthProbe.dfy` | the incremental HTTP reader |
| `HealthForm.dfy` | which responses are decoded, what they tell, and where the others fail |
| `Consolidation.dfy` | archive, restore check, receipt, removal |
| `RetirementForm.dfy` | when a file may be retired, what is left then, and what receipts say |
| `WindowLog.dfy` | a log of times and the recent tail a program remembers |
| `Watchdog.dfy`, `WatchdogRuns.dfy`, `TokenCap.dfy` | the watchdog's decision, its runs, its token cap |
| `WatchdogForm.dfy` | one decision by its conditions, and stalled signals over a run |
| `AutoFix.dfy`, `AutoFixRuns.dfy` | the supervisor's remedies and their runs |
| `AutoFixForm.dfy` | one pass by its outcome |

Four promises turned out to hold only under a condition, which is proved exact, and failing
inputs are shown for each:

* The verdict of the fragmented verifier depends on where the bytes are split exactly when the
  cursor is inside a row, only one of the two splits shows the byte before it, and the rows after
  it do chain (`FragmentedRow.SplitMattersExactly`). At a row start it never does. Any source
  without a newline is an instance (`FragmentedRow.SplitCanMatter`).
* A staged segment is accepted when it is verified again if and only if a plan may refer to its
  path and every row in it decodes to the same value with and without its newline
  (`Segments.RoundTripExact`): staging keeps any path as it was given, and the first verifier
  decodes each row with its newline, the second without it. Rows of two-byte text are always
  refused (`Segments.WideRowsAreRefused`, with a witness in `Segments.RoundTripCanFail`), and so
  is a path with a part of two dots (`Segments.DottedPathIsRefused`).
* The health probe's outcome depends on how the response is cut up exactly when bytes follow a
  declared body that is short enough to be overrun by the piece that completes the headers
  (`HealthProbe.CutsMatterExactly`, with instances in `HealthProbe.ExcessAfterShortBody` and
  `HealthProbe.OneByteTooMany`).
* No byte is copied twice exactly as long as a window is only ever copied while the attempts with
  other window sizes have staged nothing under the same pin (`RecoveryCopies.NothingCopiedTwice`).
  Runs with one window size always keep to that; a call that changes the window of a pin whose
  first window is already staged copies it again (`RecoveryCopies.ChangedWindowCopiesAgain`), as a
  tick can do whose budget runs low.

## Model

| member | source | states |
|---|---|---|
| ChainRows.ScanReaches | ops/canonical_fragmented_row.py:96-108 | the row loop ends at a cursor if and only if the first min(n, limit) complete lines form a chain of links that leads to it; the sequence number advances by exactly that many |
| ChainRows.ExtensionIsChain | ops/canonical_fragmented_row.py:96-119 | an extension of the source from one cursor to another is exactly a path of linked complete rows, one for each sequence number |
| ChainRows.ScanComposes | ops/canonical_fragmented_row.py:97-108 | taking j rows and then k more gives what taking j + k rows gives |
| ChainRows.ExtensionsCompose | ops/canonical_fragment_progress.py:79-90 | two adjacent verified intervals are one, with the end cursor of a single pass |
| ChainRows.ExtensionIsUnique | ops/canonical_fragmented_row.py:96-108 | a start cursor and a row count determine the end cursor |
| ChainRows.ExtensionSurvivesAppend | ops/canonical_recovery_step.py:75-80 | what was verified stays verified when the source is appended to |
| FragmentedRow.WalkRows | ops/canonical_fragmented_row.py:96-108 | the loop over rows computes the recursive scan, or stops at a guard |
| FragmentedRow.VerifyFragmentedRow | ops/canonical_fragmented_row.py:53-129 | the verdict is the one the bytes determine, whatever the read sizes, or that a guard stopped it, which a quiet call never gives; it raises exactly on a bad policy |
| FragmentedRow.VerdictFromSource | ops/canonical_fragmented_row.py:94-124 | over fragments that hold their source ranges the verdict is a function of the source, the outer ends and the byte before the cursor |
| FragmentedRow.SplitIndependent | ops/canonical_fragmented_row.py:72-96 | at a row start the verdict does not depend on where the bytes are split |
| FragmentedRow.SplitMattersExactly | ops/canonical_fragmented_row.py:94-124 | two splits of the same bytes get the same verdict if and only if the cursor is at a row start, or both or neither show the byte before it, or no chain leads through the first min(n, limit) rows after it |
| FragmentedRow.SplitCanMatter | ops/canonical_fragmented_row.py:94-108 | inside any source without a newline the fragment from the beginning is rejected and the one from the cursor has no complete row |
| FragmentedRow.VerifierExact | ops/canonical_fragmented_row.py:94-124 | it succeeds if and only if at least one row is complete and the first min(n, limit) rows link, and ends at that chain's last cursor; no complete row if and only if there is none |
| FragmentedRow.VerifiedIsExtension | ops/canonical_fragmented_row.py:112-124 | verified rows extend the source chain, are between one and the limit in number, and the digest is that of exactly their bytes |
| LedgerWriter.RecordedIsWritten | src/research/trade_evidence.py:164-186 | whatever events the ledger is asked to record, the rows it appends are written rows: bodies with the next sequence number and the last hash, each beside its digest on a line of its own |
| LedgerWriter.RowAcceptedExactly | ops/canonical_fragmented_row.py:100-107 | a line is accepted with a digest if and only if it decodes to some body with the next sequence number and the previous hash, beside that digest, which is the body's own and 64 lower-case hexadecimal digits; any other fields are free |
| LedgerWriter.WrittenRowsVerify | ops/canonical_fragmented_row.py:53-124 | over one or two intact fragments of any source in which written rows follow the cursor, the first min(n, limit) of them are verified, with the cursor past them and the digest of exactly their bytes; a last incomplete row is left alone |
| LedgerWriter.LedgerFileVerifies | src/research/trade_evidence.py:171-186 | so are the first min(n, limit) rows of the ledger's own file, for any events, from its beginning |
| LedgerWriter.NoRowsNoVerdict | ops/canonical_fragmented_row.py:112-114 | without a newline after the cursor the verdict is that no row is complete |
| LedgerWriter.BadLineRejected | ops/canonical_fragmented_row.py:97-107 | one line among the rows that would be taken that reads as no body which follows gets the whole batch rejected |
| LedgerWriter.ChangedRowRejected | ops/canonical_fragmented_row.py:102-107 | a written row whose body was changed, its sequence number, previous hash and payload included, beside the digest it was written with gets the batch rejected, if digests do not collide and the canonical encoding is injective |
| LedgerWriter.ForeignFileRejected | ops/canonical_fragmented_row.py:72-89 | a fragment that is missing, or has another size or digest than its receipt, gets the call rejected whatever its rows |
| LedgerWriter.BadReceiptsRejected | ops/canonical_fragmented_row.py:54-71 | receipts that are malformed, do not contain the cursor, are not adjacent, name one file twice or differ in their capture get the call rejected |
| LedgerWriter.InsideRowRejected | ops/canonical_fragmented_row.py:94-95 | a fragment that shows that the cursor is inside a row gets the call rejected |
| LedgerWriter.RefusedExactly | ops/canonical_fragmented_row.py:19-29 | the call raises if and only if its cursor, its limit or the number of receipts is not in order |
| ChainWindow.VerifyChainWindow | ops/canonical_chain_window.py:52-93 | unless stopped, the verdict is that of the bytes from the cursor to the window's end; never more than the limit is read, boundary byte included |
| ChainWindow.VerifiersAgree | ops/canonical_chain_window.py:52-93 | from a row start, on the same bytes, the window verifier and the fragmented verifier give the same verdict, cursor and digest |
| ChainWindow.WindowVerifiedIsExtension | ops/canonical_chain_window.py:72-93 | a verified window starts at a row boundary and extends the chain by its rows |
| LedgerSegments.WrittenRowsInWindow | ops/canonical_chain_window.py:52-93 | of the rows written after the cursor those that end within the window, up to the limit, are verified, the byte before the cursor counting against the window |
| LedgerSegments.BadLineInWindowRejected | ops/canonical_chain_window.py:72-88 | a line within the window that reads as no row which follows gets it rejected |
| LedgerSegments.WindowRefusedExactly | ops/canonical_chain_window.py:20-30 | the call raises if and only if its cursor, its window of 128 bytes to a mebibyte or its limit of 256 rows is not in order |
| FragmentProgress.CheckInputs | ops/canonical_fragment_progress.py:40-69 | the loop accepts exactly one or two contiguous, distinct inputs of the extent, the first containing the cursor |
| FragmentProgress.CheckState | ops/canonical_fragment_progress.py:72-91 | the loop returns the end of the step chain exactly when every step starts where the one before ended |
| FragmentProgress.RecordFragmentStep | ops/canonical_fragment_progress.py:94-165 | whatever stops it, the file is untouched or holds exactly the one specified step; a quiet call returns and leaves exactly the specified result and disk; the lock is released |
| FragmentProgress.AppendedIsValid | ops/canonical_fragment_progress.py:146-150 | a verified step always passes the check that is repeated after appending it |
| FragmentProgress.StepsCertify | ops/canonical_fragment_progress.py:72-91 | sound steps in a history add up to one pass over the source from the anchor to the cursor |
| FragmentProgress.RecordedStepSound | ops/canonical_fragment_progress.py:137-162 | a recorded step is a chain extension of the source with the recorded digest, appended to the pinned history, and the returned pin is the new file's |
| HistoryForm.HistoryAcceptedExactly | ops/canonical_fragment_progress.py:40-91 | a history is accepted with a cursor if and only if its anchor, evidence and extent are the call's, it has at most 32 steps, each starts where the one before it ended with bounded rows, bytes and inputs, and the last ends at the cursor |
| HistoryForm.RecordsWhen | ops/canonical_fragment_progress.py:121-162 | below 32 steps, with inputs in order and rows verified, the call records exactly the history and one more step, and returns the new file's digest as pin |
| HistoryForm.RecordedMeans | ops/canonical_fragment_progress.py:121-162 | and it records in no other case; the file before and after decodes to accepted histories with the call's own anchor, evidence and extent |
| HistoryForm.ReportsWhen | ops/canonical_fragment_progress.py:143-145 | when the verifier does not verify, its verdict is reported and the disk is as it was |
| HistoryForm.OtherLedgerFails | ops/canonical_fragment_progress.py:72-77 | a call on a file written under another anchor, evidence or extent fails with the disk untouched, its pin being right or not |
| HistoryForm.RecordedKeepsBinding | ops/canonical_fragment_progress.py:72-77 | a recorded call's file, read back before and after, carries the call's own anchor, evidence and extent |
| HistoryRuns.RunCertifies | ops/canonical_fragment_progress.py:121-162 | after n successful calls the file holds n sound steps and certifies the source from the anchor to its cursor |
| HistoryRuns.RunChainsPins | ops/canonical_fragment_progress.py:129-160 | each successful call's pin is the pin its predecessor returned |
| HistoryRuns.LineageCertifies | ops/canonical_fragment_rollover.py:99-121 | histories of sound steps, each anchored where the one before it ends, certify the source from the first anchor to the last cursor, as a single pass would |
| ConcurrentWriters.SuccessesFormOneChain | ops/canonical_fragment_progress.py:121-165 | in every interleaving, kills and lock removals included, successful calls form one chain of pins and the file holds every one of their steps in order |
| ConcurrentWriters.NoPinRecurs | ops/canonical_fragment_progress.py:129-160 | no pin ever comes back |
| ConcurrentWriters.LeftLockFreezesFile | ops/canonical_fragment_progress.py:121-122 | while the lock of a killed writer is left in place the file does not change |
| FragmentRollover.RolloverFragmentHistory | ops/canonical_fragment_rollover.py:68-130 | every disk it can leave is the first, the one with the link, or the one with link and child, and a quiet call leaves the specified one; both locks are released |
| FragmentRollover.RerunIsIdentical | ops/canonical_fragment_rollover.py:56-65 | from every disk an interrupted rollover can leave, a rerun ends as the first would have, with byte-identical link and child |
| FragmentRollover.RerunsAreIdentical | ops/canonical_fragment_rollover.py:56-65 | so it does after any number of interrupted reruns |
| FragmentRollover.ParentUnchanged | ops/canonical_fragment_rollover.py:99-121 | the parent's file is never changed |
| FragmentRollover.AdvancedChildRefused | ops/canonical_fragment_rollover.py:111-113 | a child that holds any step is refused and nothing is written |
| FragmentRollover.ChildStartsWhereParentEnds | ops/canonical_fragment_rollover.py:22-53 | the child's history starts at the parent's cursor, and loading its link gives exactly the inputs the parent would have kept for one more step |
| RolloverForm.RollsOverExactly | ops/canonical_fragment_rollover.py:77-128 | a rollover happens if and only if the pin opens an accepted parent of exactly 32 steps that ends before the extent, the names differ and the hashes are in order, link and child fit 65536 bytes each, and files already there under their names hold just those bytes |
| RolloverForm.RollsOverWhen | ops/canonical_fragment_rollover.py:105-128 | it then leaves exactly the link and the empty child, returns the child's pin, and changes nothing else |
| RolloverForm.RolledOverMeans | ops/canonical_fragment_rollover.py:77-113 | a request that does not leaves the disk alone |
| RolloverForm.LoadsExactly | ops/canonical_fragment_rollover.py:29-53 | a child loads inputs if and only if its pinned link names it, its anchor and its extent, and a pinned full parent ends at that anchor and kept those inputs |
| Pacing.Pacer.Charge | ops/incremental_backup.py:46-55 | a normal return means the total so far is at most the rate times the elapsed time plus the slack, before the deadline; a refused one has still counted the amount |
| Pacing.PaceGivesDuration | ops/incremental_backup.py:46-55 | a total on pace has taken at least its size over the rate, less the slack |
| RawChunk.StageRawChunk | ops/canonical_raw_chunk.py:38-97 | a quiet call, for which the deadline does not fire either, succeeds exactly when its arguments, the extent, the name and the lock allow it, and any other only when the rate allows three times the size within the deadline; the only file it can add is the exact source range; success has charged exactly three bytes for each byte staged and taken at least that long; an existing file or lock stops it before it reads |
| RecoveryStep.AdoptRetained | ops/canonical_recovery_step.py:42-66 | a file left by an interrupted call is adopted exactly when it equals the source range |
| RecoveryStep.ObtainWindow | ops/canonical_recovery_step.py:170-187 | after it the next window is on disk exactly, copied or adopted, or an existing different file is refused and kept |
| RecoveryStep.AdvanceFragmentStep | ops/canonical_recovery_step.py:69-191 | every durable disk of a call is reached by the four listed actions; a quiet call, and any other that no guard cut short, has exactly the specified result, disk and copied bytes; never more than one window is read |
| AttemptForm.OpensExactly | ops/canonical_recovery_step.py:80-134 | a call opens exactly the history of its own anchor, evidence and extent under its pin, its end, what the last step read past or an empty child's link carries, and an attempt named by the digest of pin, cursor, anchor, evidence, extent, window, source and those inputs |
| AttemptForm.JournalExactly | ops/canonical_recovery_step.py:135-153 | a call continues from a journal if and only if it is bound to this attempt and holds what the attempt starts with, and after it the attempt's own windows in name, offset and size, two inputs at most |
| AttemptForm.OtherJournalFails | ops/canonical_recovery_step.py:135-153 | any other journal under the attempt's name fails the call and is kept |
| StepOutcomes.ReportTellsWhatIsHeld | ops/canonical_recovery_step.py:161-189 | what an uninterrupted call reports is told by the disk it leaves: the journal there holds inputs whose verdict is the one reported, a retained window is exhausted if and only if it holds two, and a recorded step is the last in the progress file |
| StepOutcomes.LongRowExhausts | ops/canonical_recovery_step.py:168-189 | at a row longer than two windows, from any state the attempt can be in, the second of two uninterrupted calls at the latest reports the row window as exhausted |
| StepOutcomes.BrokenRowReported | ops/canonical_recovery_step.py:161-174 | rows that do not link are reported as rejected, with the progress file as it was and nothing copied |
| StepOutcomes.ReachableIsReady | ops/canonical_recovery_step.py:102-153 | every reachable attempt below the tip and the step limit is in such a state when its metadata fits |
| StepOutcomes.BadArgumentsFail | ops/canonical_recovery_step.py:69-94 | arguments that are not in order fail with the disk untouched |
| StepOutcomes.TipIsReported | ops/canonical_recovery_step.py:116-118 | at the end of the extent the tip is reported and nothing is changed |
| StepOutcomes.FullHistoryFails | ops/canonical_recovery_step.py:119-134 | a history of 32 steps short of the tip fails with the disk untouched |
| StepOutcomes.OtherWindowFails | ops/canonical_recovery_step.py:175-180 | a file with other bytes under the next window's name fails the call and is kept |
| RetryRefinement.ActionKeepsPlan | ops/canonical_recovery_step.py:140-188 | each durable action keeps the step that will be recorded, or records it |
| RetryRefinement.RetryRefines | ops/canonical_recovery_step.py:102-189 | over any number of calls on one pin, each interrupted anywhere, the progress file is the pinned one or has exactly the one step uninterrupted work would record |
| RetryRefinement.FreshRetryRefines | ops/canonical_recovery_step.py:102-189 | the same from a pin under which no call has left a file, with nothing else asked of the disk |
| RetryRefinement.RetriesNeverStick | ops/canonical_recovery_step.py:136-188 | where a fresh pin leads to a step, no interruption leaves a journal that is refused: the attempt stays on the way to that step or has recorded it |
| RetryRefinement.InterruptionsDoNotMatter | ops/canonical_recovery_step.py:102-189 | then, after any interrupted calls, the progress file is what two uninterrupted calls from the start leave, or becomes exactly that with two more |
| RetryRefinement.OldPinIsDead | ops/canonical_recovery_step.py:102-105 | once the step is published the old pin opens nothing, so a rerun fails instead of applying it twice |
| RetryRefinement.TwoCallsRecordThePlan | ops/canonical_recovery_step.py:165-188 | from any state of an attempt at most two uninterrupted calls record the planned step; the first may only have kept the first window of a row that needs two |
| BoundedRows.PrefixScansClean | ops/canonical_fragmented_row.py:97-108 | no prefix of a valid source makes the scan break |
| BoundedRows.CoveringInputsVerify | ops/canonical_recovery_step.py:165-188 | inputs that reach one window past the cursor verify at least one row when no row is longer than the window |
| BoundedRows.EveryCallRecords | ops/canonical_recovery_step.py:126-189 | below the tip and the step limit every uninterrupted call records between one row and the limit, so the row window is never exhausted |
| RecoveryRuns.CallIsRecoveryRun | ops/canonical_recovery_step.py:69-191 | the durable disks of any call, whatever its pin, window and record limit, are a recovery run |
| RecoveryCopies.NothingCopiedTwice | ops/canonical_recovery_step.py:126-188 | over any run, each call with its own window and record limit, the newly copied ranges follow one another without gap or overlap if and only if a window is only ever copied while attempts with other windows have staged nothing under that pin; otherwise some byte is copied twice |
| RecoveryCopies.SteadyTotal | ops/canonical_recovery_step.py:175-188 | the bytes such a run copies are the furthest byte held less the start |
| RecoveryCopies.OneWindowIsSteady | ops/canonical_recovery_step.py:126-188 | a run with one window size is such a run |
| RecoveryCopies.ChangedWindowCopiesAgain | ops/canonical_recovery_tick.py:75-82 | from any start with nothing complete held, two calls with different windows on one pin, each stopped once its first window is staged, copy a byte twice |
| RecoveryRuns.CurrentKeyIsNew | ops/canonical_recovery_step.py:120-135 | the key of the current attempt belongs to no earlier state of this history, no ancestor's and no other window size |
| RecoveryRuns.RunCertifiesSource | ops/canonical_recovery_step.py:102-189 | every reachable history certifies the source from the anchor to its cursor, whatever windows and limits its calls chose |
| RecoveryRuns.EveryReachableCallRecords | ops/canonical_recovery_step.py:126-189 | after any run, interrupted anywhere and with whatever windows, over a valid source with rows no longer than the present call's window, that call, uninterrupted, records between one row and its limit |
| RecoveryRuns.ChildRunContinues | ops/canonical_recovery_step.py:106-131 | after a rollover the child's run starts with the parent's cursor and exactly what the parent kept for its next step |
| RecoveryLineage.LineageCertifies | ops/canonical_fragment_rollover.py:68-130 | over any number of histories, each filled by a run interrupted anywhere and rolled over to the next, one pass over the source leads from the first anchor to the last cursor; if no run changes the window of a pin that has staged one, all copied ranges follow one another without gap or overlap |
| RecoveryTick.ActionAddsOneStep | ops/canonical_recovery_tick.py:80-90 | a recovery step leaves the progress file alone or adds exactly one step to the pinned history |
| RecoveryTick.RunStep | ops/canonical_recovery_tick.py:76-107 | an announced step ends checkpointed, or stops with the announcement still accounting for the file it left and for every byte it read |
| RecoveryTick.StepLoop | ops/canonical_recovery_tick.py:70-110 | each status the loop ends with means what it says: tip, full history, spent budget, refused step, exhausted window or spent steps; only the last checkpointed step can have been refused or have exhausted the row window, and then the status is that |
| RecoveryTick.Conclude | ops/canonical_recovery_tick.py:109-116 | the final journal agrees with the progress file; otherwise reconciliation is asked for and nothing is guessed |
| RecoveryTick.RunFragmentTick | ops/canonical_recovery_tick.py:39-117 | the tick goes from disk to disk only by saving its journal or by an action of the very step the journal on disk announces; once the journal exists, on every one of these disks the progress pin is the last checkpointed pin, or exactly one step beyond it while the journal names that step in flight, and checkpointed pins chain from the initial pin; on every one of them the bytes read by then do not exceed confirmed plus unresolved copies, nor those the budget; an existing journal is never touched; in the journal left by a tick that ended by itself only the last entry can be a refused step or an exhausted row window, and the status is `StepRefused` or `RowWindowExhausted` if and only if it is; a quiet tick returns and leaves exactly what its announced steps and checkpoints specify |
| TickRuns.TickIsRecoveryRun | ops/canonical_recovery_tick.py:70-107 | the disks a tick passes through are a recovery run, with the windows its journal announced |
| TickRuns.TickCertifiesSource | ops/canonical_recovery_tick.py:70-107 | after any run, on every disk a tick passes through, wherever it is stopped, the history certifies the source |
| TickRuns.QuietTickRecords | ops/canonical_recovery_tick.py:70-111 | over a valid source with rows no longer than its first window, below the tip and the step limit, a tick that nothing stops checkpoints at least one step and ends at a later cursor |
| TickChecks.StepIsBornOut | ops/canonical_recovery_tick.py:86-99 | whatever a step that did not raise reports, the progress file bears it out: one more step with the reported pin and cursor, between one row and the limit, or the very history it opened |
| TickChecks.OnlyRaisingNeedsReconciliation | ops/canonical_recovery_tick.py:80-116 | a turn that nothing stops ends in reconciliation if and only if its step raised or one of its two journals had no room; otherwise its checkpoint is what the step reported |
| TickOutcomes.TurnTellsStep | ops/canonical_recovery_tick.py:74-106 | a turn that does not ask for reconciliation makes one step on the last checkpointed pin with a window of a mebibyte or what the budget has left, checkpoints exactly what it returned, and ends the tick if and only if the step was refused or exhausted the row window |
| TickOutcomes.ThrownTurnKeeps | ops/canonical_recovery_tick.py:110-115 | a turn that does checkpoints nothing |
| TickOutcomes.TickAddsUp | ops/canonical_recovery_tick.py:91-104 | rows, bytes and copies of all checkpointed steps add up to how far the cursor and the copy count moved |
| TickOutcomes.LoopMakesTurn | ops/canonical_recovery_tick.py:70-107 | below its limits the loop makes a turn, and another after each that does not end it |
| TickOutcomes.LoopEnds | ops/canonical_recovery_tick.py:70-75 | at a limit it makes none, and the status names the first limit it meets |
| TickOutcomes.TickStarts | ops/canonical_recovery_tick.py:42-116 | a tick with its arguments in order starts if and only if its pin opens a history of its own; it then leaves the journal of its last turn with the status it ended with, or asks for reconciliation with whatever was in flight still in it, and reports pin, cursor, steps and copies as they are there |
| TickOutcomes.BadTickRefused | ops/canonical_recovery_tick.py:20-42 | a tick with limits or names out of order, or whose journal exists, is refused with nothing written |
| Segments.StageChainSegment | ops/canonical_segment.py:41-82 | a quiet call returns the receipt of exactly the range the window verdict covers, or refuses exactly when that verdict or the arguments do; the only file it can add is that range, and the bytes charged are those of the verification and three for each byte staged |
| Segments.VerifyStagedSegment | ops/canonical_segment_verify.py:9-70 | a quiet call accepts exactly the segments whose path a plan may refer to and whose bytes, digest, line count and line chain fit the receipt; a stopped one accepts nothing else |
| LedgerSegments.SegmentAcceptedExactly | ops/canonical_segment_verify.py:14-63 | a segment is accepted if and only if its receipt is in order, its file has the receipt's size and digest and ends with a newline, and its lines, as many as the receipt says, read as bodies that follow one another from the receipt's start to its end |
| LedgerSegments.WrittenSegmentAccepted | ops/canonical_segment_verify.py:14-63 | so one to 256 written rows, each of which decodes alike without its newline, staged under a referable path, are accepted |
| LedgerWriter.LineAcceptedExactly | ops/canonical_segment_verify.py:54-63 | this verifier accepts a line if and only if it decodes to a body that follows beside the body's own digest, whose form it never looks at |
| Segments.LinesOfWholeRows | ops/canonical_segment_verify.py:48-53 | splitting whole rows at newlines gives one line for each row |
| Segments.OnlyBlindRowsChain | ops/canonical_segment_verify.py:54-63 | lines without their newlines can chain to the same last hash only if each decodes to the value it has with its newline |
| Segments.RoundTripExact | ops/canonical_segment_verify.py:14-63 | a published segment left as it was is accepted with its receipt's end cursor if and only if a plan may refer to its path and every row decodes to the same value with and without its newline |
| Segments.WideRowsAreRefused | ops/canonical_segment_verify.py:52-57 | with a decoder that refuses text torn in the middle of a two-byte character, every published segment that holds a row of two-byte text is refused, whatever its path |
| Segments.RoundTripCanFail | ops/canonical_segment_verify.py:52-57 | a witness that this is not vacuous: a stand-in decoder of that kind, a digest free of collisions and a published segment that is refused, its row abbreviated to two braces |
| Segments.DottedPathIsRefused | ops/canonical_recovery_plan.py:37-48 | a witness for paths: a published segment of one abbreviated row whose path goes up and down again is refused although the row decodes alike both ways |
| SegmentPlan.ComposeRecoveryPlan | ops/canonical_recovery_plan.py:22-56 | the loop composes exactly the receipts that are contiguous and well formed, with paths that are not too long, have no dot parts and are not equal up to separators and case |
| SegmentPlan.TotalsAreCursorDifferences | ops/canonical_recovery_plan.py:49-56 | the byte and record totals of a plan are the differences of its end cursors |
| PlanForm.PlanExactly | ops/canonical_recovery_plan.py:15-60 | one to 32 receipts make a plan if and only if each is staged, bounded and starts where the one before it ends, and no two name one file; the plan holds them unchanged, from the anchor to the end of the last |
| PlanForm.PathExactly | ops/canonical_recovery_plan.py:37-48 | a path is accepted if and only if it ends in the suffix, has at most 1024 characters and no null, and no part of it between separators of either kind is one dot or two |
| SegmentPlan.VerifyNextSegment | ops/canonical_recovery_progress.py:33-79 | at most one outcome is recorded in a call, the next in plan order, and only for a segment that was accepted; a quiet call records it exactly when it may; a call that returns reports the file it leaves |
| PlanForm.ReportsExactly | ops/canonical_recovery_progress.py:49-79 | a report of so many checked of so many in all, and a cursor, is given of a disk if and only if its file, of at most 65536 bytes and bound to this very plan, holds the outcomes of just the first receipts, and the cursor is the end of the last of them, or the anchor |
| PlanForm.FailsExactly | ops/canonical_recovery_progress.py:49-69 | a call that nothing stops fails if and only if the file is refused, or the next segment is not accepted or its outcome does not fit |
| PlanForm.CallAdvances | ops/canonical_recovery_progress.py:59-79 | otherwise it records exactly the next outcome and reports one more, or reports that all are recorded and changes nothing |
| SegmentPlan.RunRecordsPrefix | ops/canonical_recovery_progress.py:49-72 | in every reachable state the recorded outcomes are a prefix of the plan's and every recorded segment is accepted |
| SegmentPlan.FinishedRunCertifiesPlan | ops/canonical_recovery_progress.py:34-78 | when all is recorded, one pass over the joined segment bytes leads from the anchor to the plan's end, and the plan's totals are the lengths of that pass |
| HealthProbe.RunProbe | ops/loopback_health_probe.py:37-75 | the outcome is the one the cut-up response determines, unless a deadline or the socket stops it, which a quiet peer never does |
| HealthProbe.CutsDoNotMatter | ops/loopback_health_probe.py:37-75 | without bytes beyond the declared length every way of cutting the response gives the outcome of parsing it at once under both budgets |
| HealthProbe.CutsMatterExactly | ops/loopback_health_probe.py:38-75 | two cuts end differently if and only if excess bytes follow a declared body the completing piece can overrun |
| HealthProbe.ExcessAfterShortBody | ops/loopback_health_probe.py:38-75 | every response that declares a short body and sends more than that is one whose outcome depends on the cuts |
| HealthProbe.OneByteTooMany | ops/loopback_health_probe.py:38-75 | the bytes of an ordinary response that declares two bytes and sends three are one |
| HealthForm.ResponseIsDecoded | ops/loopback_health_probe.py:37-93 | every response whose headers end within 16384 bytes and are accepted, with an object as a body of the declared length, or of any length within the budget when none is declared, is decoded however it is cut; the result tells each of the four fields when it has the form asked of it, and nothing else |
| HealthForm.DecodedIsResponse | ops/loopback_health_probe.py:37-93 | whatever is decoded came as such a response, after which only bytes past the declared length may follow |
| HealthForm.FailsWhere | ops/loopback_health_probe.py:37-82 | without excess bytes it fails in the headers, the body or the decoding if and only if that is the first part not in order |
| HealthForm.CutsMatterWhen | ops/loopback_health_probe.py:38-75 | the outcome depends on the cuts if and only if more than the declared body follows the headers, and that body is shorter than 4095 bytes and ends before byte 16384 |
| Consolidation.ExpandBounded | tools/restore_backup.py:30-45 | expansion never produces more than one byte past the expected size, and succeeds only on the archive's content within it |
| Consolidation.CompressBackup | tools/compress_backup.py:35-71 | it publishes a new archive of the source only when the source has the trusted digest, always when nothing stops it, and never replaces one |
| Consolidation.RestoreArchive | tools/restore_backup.py:17-66 | it succeeds only when the archive expands to the trusted bytes and they pass the database check, and always then when nothing stops it |
| Consolidation.Consolidate | tools/consolidate_backup.py:81-116 | every durable state is reached by the listed actions; success means the file is gone and a good archive and a final receipt are there, and a quiet request that may retire the file succeeds; an existing receipt stops it |
| Consolidation.NothingIsLost | tools/consolidate_backup.py:85-116 | in every state any number of interrupted and retried calls can reach, the file is there with its bytes, or an archive expands to exactly those and a durable receipt names it |
| Consolidation.WrongArchiveNeverDeletes | tools/consolidate_backup.py:81-90 | a wrong archive that was there before never leads to deletion and is kept as it was |
| Consolidation.OwnArchiveIsGood | tools/compress_backup.py:46-65 | the program's own archive of a trusted source that passes the check is always good |
| RetirementForm.RetiresExactly | tools/consolidate_backup.py:50-104 | a request that nothing stops retires the file if and only if it has the trusted digest and size, what the archive there, or the one compressing it makes, expands to has them too and passes the database check, and receipt and scratch file are new |
| RetirementForm.FreshRetires | tools/compress_backup.py:46-65 | with lossless compression and no earlier archive it takes no more than a trusted file that passes the check |
| RetirementForm.GoneMeansRestorable | tools/consolidate_backup.py:83-112 | over any interrupted and retried calls the file is gone only when the archive expands to it, it passes the database check, and a receipt with its digest and size is there |
| RetirementForm.DamagedIsKept | tools/restore_backup.py:38-56 | a file of another digest or size, or one that fails the database check, is never removed |
| RetirementForm.ReceiptsTellTruth | tools/consolidate_backup.py:98-112 | every receipt written gives the archive, digest and size of the request, and says that the file is retired only when it is gone |
| WindowLog.RecentIsTail | ops/watchdog.py:489-491 | of times in order, those inside the window are a tail, and all before it are outside |
| Watchdog.Watch.Decide | ops/watchdog.py:291-517 | the plan and the whole remembered state are the specified functions of the state before and what was read |
| Watchdog.Watch.Pass | ops/watchdog.py:736-831 | a pass records the baseline once and remembers a restart only when it succeeded |
| WatchdogRuns.RestartsAreBounded | ops/watchdog.py:487-502 | over any run with a nondecreasing clock, successful restarts are at least the cooldown apart and one more than the budget never fits in a window |
| WatchdogRuns.LiveRestartsAreBounded | ops/watchdog.py:487-502 | with the program's own values, restarts are five minutes apart and no hour holds more than three |
| WatchdogRuns.CountsAreStreaks | ops/watchdog.py:477-483 | the remembered count of a reason is the number of consecutive passes, up to the last, that saw it |
| WatchdogRuns.OnlyPersistentFaultsRepaired | ops/watchdog.py:485-502 | a permitted restart names a waiting fault as a reason if and only if each of the last required number of passes saw it |
| WatchdogForm.RestartsExactly | ops/watchdog.py:475-502 | a pass restarts the desk if and only if it has a reason, the cooldown is over and fewer restarts than the budget lie in the window; its reasons are exactly the service being down, the report missing or too old, or each fault of a fresh report seen in enough passes in a row; with a reason but not the rest it is suppressed |
| WatchdogForm.LiveDeskDown | ops/watchdog.py:475-502 | with the program's own values a desk that is inactive or has not reported for three minutes is restarted when the last restart is five minutes back and fewer than three are remembered |
| WatchdogForm.LiveFaultWaits | ops/watchdog.py:446-488 | with the program's own values a fault in a fresh report is a reason from its second sighting in a row, and the signals count as stalled after half an hour |
| WatchdogForm.StallExactly | ops/watchdog.py:446-463 | over any run the signals count as stalled if and only if some pass longer ago than the stall time read the number of mentions this one reads and no pass since has read another |
| WatchdogForm.CapExactly | ops/watchdog.py:321-354 | a pass sets the cap to a number if and only if enough kills lie in the window and after the last change and it is the largest within three fifths of the cap, or the floor, and below the cap; or none does, the recovery time is over, and it is the largest within five thirds, or the baseline |
| WatchdogForm.LiveCapChange | ops/watchdog.py:321-354 | with the program's own values two kills in an hour cut the cap to three fifths but not below 1000, and six hours without one give back up to five thirds, up to the baseline |
| TokenCap.CapStaysInBounds | ops/watchdog.py:321-354 | the cap stays between the smaller of baseline and floor, and the baseline |
| TokenCap.ShrinksHaveTheirOwnKills | ops/watchdog.py:326-338 | any two shrinks rest on at least the required number of kills each, all of the later one's after all of the earlier one's |
| TokenCap.CapReturnsToBaseline | ops/watchdog.py:321-354 | after any history, once the last kill is out of the window, whatever passes follow the cap never falls, and each pass more than a recovery period after the last change brings it at least half the cap they started from closer to the baseline |
| TokenCap.CapReturnsInTime | ops/watchdog.py:344-354 | when such passes come at most a gap apart for longer than n times the recovery period and the gap, and one period more, and n + 1 halves make up for what was missing, the cap is the baseline |
| AutoFix.AutoFixer.Register | ops/autofix.py:120-121 | the remedy is added after those a pass tries before it |
| AutoFix.AutoFixer.TryRemedy | ops/autofix.py:146-173 | a remedy is held back exactly by its cooldown or its spent budget, and a spent budget is escalated once for each count |
| AutoFix.AutoFixer.Run | ops/autofix.py:121-144 | a pass keeps the unexpired attempts and adds those of the remedies in order, up to the first that acted; no escalation is repeated |
| AutoFixForm.PassExactly | ops/autofix.py:121-173 | a pass records one attempt for each remedy that applies, in order, up to the first that acted or to the end, and nothing else; a remedy is cooling if and only if a success of its own lies less than its cooldown back, and its budget is spent if and only if it then has that many |
| AutoFixForm.ExpiryFilters | ops/autofix.py:175-177 | expiry keeps an attempt if and only if it is inside the window, whatever is before and after it, in the order they were made |
| AutoFixRuns.OneActionPerPass | ops/autofix.py:130-142 | only the last attempt of a pass can have acted |
| AutoFixRuns.ExpiryPrunes | ops/autofix.py:175-177 | expiry forgets exactly the successes outside the window, and with them the cooldown |
| AutoFixRuns.RemediesAreBounded | ops/autofix.py:121-177 | over any run with a nondecreasing clock, a remedy's successes are at least the smaller of cooldown and window apart and one more than the budget never fits in a window |

## Left out

- Windows calls, file attributes, symbolic links, directory checks, the CPU and resource proofs and the identity and modification-time checks around each read: they are taken as met. A file does not change under a call except through the modelled operations.
- The exclusive temporary `.partial` files behind each publication: the publication itself is the atomic operation.
- Locks: the sequential methods take and release them, and an exception always releases them. Recorders interleaved operation by operation, kills and lock removal are modelled for the progress file only, in `ConcurrentWriters.dfy`.
- File names: a name stands for the file name the program builds, and two names are the same file exactly when they are equal; what a path resolves to is not modelled. Case folding of segment paths is a given function, taken to change neither dots nor separators.
- JSON text: decoding and encoding are given functions. Checks of field sets, types and version numbers in metadata files are part of decoding.
- RecoveryStep.AdvanceFragmentStep: the source file's path and identity are one given string of the binding, and the source is represented by its first target-extent bytes, which never change.
- Pacing inside the verifiers and inside the adoption of a retained window: reading loops may stop at any block, their waiting times are not modelled. The pacer itself is modelled for raw staging.
- BoundedRows.EveryCallRecords: it asks that the metadata of the attempt, and the history with any step the attempt could record, fit their 65536-byte budgets, which the program checks and refuses otherwise; so does RecoveryRuns.EveryReachableCallRecords.
- RecoveryTick.RunFragmentTick: no other writer of the progress file is modelled during a tick, and limits are not repeated in the journal. All a step reads is counted from its start.
- Segments.StageChainSegment: waiting times of its pacing are not modelled, only what is charged.
- RawChunk.StageRawChunk: whether a rate and deadline leave enough time depends on the clock, so a call for which nothing fires is taken to be in time.
- HealthProbe.RunProbe: interpreting the status line and the header lines is a given function of the header block; stage timings are not modelled.
- Consolidation.Consolidate: checking the protected backups, the free space and the paths before anything is written is one nondeterministic refusal; files are taken not to change between the final re-read and the removal.
- Watchdog.Watch.Decide: alerts, the memory ceiling, the disk, backfill, trainer and unit repairs, and the wording of reasons; the repairable faults of a readiness report are an input. The factor 0.6 is the rational 3/5, and times are reals.
- AutoFix.AutoFixer.Run: saving and loading the attempts; whether an action works is a nondeterministic choice.
- TokenCap.CapReturnsToBaseline: the clock counts from an epoch that is past, since a change at time zero would be taken for none.
- Command-line entry points: they parse arguments and call the programs modelled here.
- `ops/health.py` and `ops/audit_pack.py`: they compare one set of readings with thresholds and report; there is no protocol to keep an invariant of.
- `ops/alert.py`, `ops/supervisor.py` and `ops/autodeploy.py`: delivery of messages, network reads and commands given to other programs, whose effects lie outside the repository.
- `ops/backup_set.py`, `ops/backup_set_integrity.py` and `ops/bounded_release.py`: checks of receipt fields, which the model takes as part of decoding a file.
- `src/main.py` and the trading engines: another program, with no part in recovery or operations.
