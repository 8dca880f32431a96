# Verification of the carter_omp orchestrator

A Dafny model of the parts of the GitHub agent orchestrator that carry protocol state or real algorithms, and
proofs of what they promise. `dafny verify dfyconfig.toml` checks everything.

| File | What it models |
|---|---|
| `EventQueue.dfy` | the event table, the dispatcher, runs, cancellation, slots, redispatch sweeps, shutdown and restart as one transition system |
| `EventQueueSafety.dfy`, `EventQueueRuns.dfy` | the invariant and its preservation; properties of whole runs |
| `EventQueueRetries.dfy`, `EventQueueProgress.dfy` | the retry budget; bounds on executions and redispatches by a measure |
| `EventQueueContinuations.dfy`, `EventQueueExactness.dfy` | what can always still be executed, and when not; exactly when a budget is escaped |
| `Dispatcher.dfy` | `Database`, `SlotPool` and `WorkerPool` as classes whose methods take steps of the transition system |
| `EventQueueSweeps.dfy` | how retries, the redispatch sweep and cancels fit together |
| `CommitMessages.dfy`, `CommitRepairs.dfy` | repair of literal escapes outside code spans, and the co-author trailer; what text a repair leaves |
| `Rewriter.dfy`, `RewriterProofs.dfy` | the commit rewriter over a content-addressed store, and what it does to the commit graph |
| `Publication.dfy` | phases, receipts, the guarded push, the lease |
| `DiffAnchors.dfy` | the unified-diff parser (format: POSIX.1-2017, `diff`, "Diff -u or -U Output Format") and the comment filter |
| `CacheFiles.dfy`, `NativesCache.dfy` | paths, inodes and bytes of the build cache; look-up, populate, capture, eviction |
| `CommentLedger.dfy` | posting a comment at most once, with crash points |
| `IssueIndex.dfy` | the watermark sync with overlap and page budget |
| `DerKeys.dfy`, `DerKeysExactly.dfy` | DER keys (ITU-T X.690, section 8.1.3; RFC 8017, appendix A.1.2; RFC 5208, section 5) and EMSA padding (RFC 8017, section 9.2) |
| `Pragmas.dfy`, `PragmaForms.dfy` | slash commands, and exactly which words and lines are commands |
| `Admission.dfy` | the rolling cap |
| `Basics.dfy`, `Text.dfy`, `Decimals.dfy` | shared vocabulary: options, the string operations of Python, decimal numerals |

How it is done:

- A transition system has `State`, `Step`, `Enabled` and `Do`. One step is code that nothing else can divide: one
  SQL statement or transaction, or the code between two awaits. Every interleaving is a sequence of enabled steps.
- Objects that the program updates in place are classes. Their methods are proved to do what a function or a step
  says, and the properties are proved about that function or those steps.
- What git, the network and other processes do is a parameter: which command fails, when HEAD is moved by someone
  else, where a process dies, whether a post lands.

Where code, documentation and expectation part:

- `attempts` counts claims, not executions: a bounced claim keeps its increment, so the bounds on retries and
  executions are upper bounds.
- A replay can be lost to a handler that is still inside when the row is replayed (`EventQueueRuns.ReplayKeptIff`).
- `_arm_cancel` says no signal is lost, but a cancel between its test and its store leaves the hook unfired; that
  is the only way (`EventQueueRuns.HooksSeeCancels`).
- The retry bound needs that no row is really inserted under a delivery that can still be retried, and a replacement
  keeps it exactly then (`EventQueueExactness.ReplacementKeepsBudgetIff`).
- Retention that deletes the last, skipped redispatch row of an issue reopens its budget. If it deletes an earlier one,
  the id derived from the count is taken, so the issue is neither queued again nor abandoned
  (`EventQueueExactness.PruneReopens`, `EventQueueExactness.PruneReopensIff`).
- An exception or a cancellation in the clean-up of a run leaves its key in `_inflight`. Until the next restart its
  issue is not executed any more, and neither is any row received later than one of its queued rows, because that row
  is claimed and put back for ever (`EventQueueContinuations.StuckIff`).
- The thread of a handler goes on after `stop` has cancelled its task, so its row can still be marked and its hook
  stored (`HasThread` and `OfThread` in `EventQueue.dfy`).
- A required phase together with the skip-checks capability always refuses to open a pull request
  (`Publication.GateGivesEvidence`).
- The head check of a push does not see a commit that lands between the check and `git push`
  (`Publication.Checkout.Push`, `Publication.LateDriftBlocks`).
- The rewriter makes one commit of two that differ only in what the repair removes (`RewriterProofs.DistinctIff`).
- Line breaks other than newline inside a diff line are misread, unless a backslash follows or the break is the
  carriage return of a CRLF (`DiffAnchors.ReadAsItselfIff`, `DiffAnchors.InnerBreakMisread`).
- A push of what the remote has already succeeds without a look at the lease (`Publication.Checkout.Push`).
- The cap of `Admission` needs no clock that is monotone between calls.
- A window of the overlap with 3000 items stops the sync for good (`IssueIndex.CompletesIffSparse`).
- Keys of 54 to 61 octets get a padding that is shorter than RFC 8017 asks for (`DerKeys.PaddingIff`).

## Model

| member | source | states |
|---|---|---|
| EventQueueRuns.Exclusion | src/carter_omp/queue.py:566-691 | In every interleaving of all steps: at most one running row per issue, at most one live run per key, `_inflight` holds the live keys, and nothing else as long as every clean-up succeeds, every slot UID has at most one holder, and free plus checked-out UIDs are the full set |
| EventQueueSafety.InvStep | src/carter_omp/queue.py:545-747 | Every step of dispatcher, runs, worker threads (also those whose task `stop` has cancelled), cancellation, sweeps, operators, failing clean-ups, shutdown and restart keeps the whole invariant |
| EventQueueSafety.InvAlways | src/carter_omp/queue.py:545-747 | The invariant holds after every run of steps |
| EventQueueSafety.InvInit | src/carter_omp/queue.py:262-272 | It holds for a new pool over any table with unique ids and no running row; `Dispatcher.WorkerPool.constructor` covers rows left running |
| EventQueueRuns.AcceptedUntilTerminal | src/carter_omp/db.py:1076-1114 | A queued or running row stays in the table until it has been terminal, whatever happens |
| EventQueueRuns.ActiveRowStays | src/carter_omp/db.py:1094-1097 | No single step deletes or replaces an active row |
| EventQueueRuns.FinishedNotRunning | src/carter_omp/queue.py:642-679 | A run that ends without a shutdown interrupt does not leave its row running |
| EventQueueRuns.NeverWedged | src/carter_omp/queue.py:566-582 | In every reachable state outside shutdown a running row has a claim or an unfinished run behind it |
| EventQueueContinuations.NeverBlocked | src/carter_omp/queue.py:545-587 | From every reachable state outside shutdown, every accepted row that is not stuck and has no handler inside can be executed by the dispatcher and the runs alone |
| EventQueueContinuations.StuckIff | src/carter_omp/queue.py:566-587 | Such a row can be executed before the next restart if and only if it is not stuck: its key was never released by a failed clean-up, nor is that so for a queued row that is always claimed before it |
| EventQueueContinuations.Drain | src/carter_omp/queue.py:628-691 | All runs can be brought to their end; those that wait get their slot on the way |
| EventQueueRuns.RestartMakesClaimable | src/carter_omp/db.py:1036-1042 | After crash and `start`, every row that was running is eligible for a claim at once |
| EventQueueRuns.ReplayKeptIff | src/carter_omp/queue.py:733-746 | A queued row survives every continuation until its own execution if and only if no handler for that delivery is still inside `_dispatch_and_mark`, or goes on in its thread after `stop` cancelled it |
| EventQueueRuns.LostToHandler | src/carter_omp/queue.py:733-746 | The continuation that loses a replay to the handler that is still inside |
| EventQueueRuns.CancelWins | src/carter_omp/queue.py:656-658 | A cancel that precedes the end of a non-control handler leaves the row failed with the cancel reason, by return or exception, in every interleaving without a shutdown interrupt |
| EventQueueRuns.CancelReachesHook | src/carter_omp/queue.py:607-626 | A stored hook is fired by the cancel; the cancel misses a hook exactly when its thread is between the test and the store of `_arm_cancel` |
| EventQueueRuns.HooksSeeCancels | src/carter_omp/queue.py:589-626 | Every hook is fired at most once; a cancelled delivery has an armed, unfired hook exactly when the request fell between test and store |
| EventQueueRetries.RetriesBounded | src/carter_omp/queue.py:660-679 | No row is retried more than `event_max_retries` times across claims, bounces, crashes, replays and repeated deliveries or sweeps, as long as no row is really inserted under a delivery that a claim or a run can still retry |
| EventQueueExactness.RefreshEscapesBudget | src/carter_omp/db.py:1094-1113 | Otherwise there is a continuation, without another insert, in which the row is retried more than `event_max_retries` times |
| EventQueueExactness.ReplacementKeepsBudgetIff | src/carter_omp/db.py:1094-1113 | After a replacement every continuation without another such insert keeps the budget if and only if, at the replacement, no claim and no unfinished run of the delivery could retry it |
| EventQueueProgress.ExecutionsBounded | src/carter_omp/queue.py:493-543 | Without new triggers, replays, restarts or retention of redispatch rows the number of handler executions of every run, with sweeps interleaved in any way, is at most a measure of its first state |
| EventQueueProgress.RedispatchCap | src/carter_omp/queue.py:508-531 | However sweeps interleave, an issue never has more than `redispatch_max_per_issue` redispatch rows |
| EventQueueExactness.PruneReopens | src/carter_omp/db.py:2042-2057 | When retention deletes the last, skipped redispatch row of a stranded issue, the next sweep inserts it again and it is executed once more, although the budget was spent |
| EventQueueExactness.PruneReopensIff | src/carter_omp/db.py:2042-2057 | The id a sweep derives from the count is free again if and only if the deleted row had the last id |
| EventQueueSweeps.RetriedOrSwept | src/carter_omp/queue.py:660-679 | A failing handler whose row is the last of its issue: with attempts left the row is queued until the given time and the issue is not stranded; after that it is failed, and the sweep finds the issue if and only if the error does not mention a cancel and the issue is in flight, or has no row and the error is transient |
| EventQueueSweeps.CancelledNotSwept | src/carter_omp/db.py:915-937 | A run that ends as cancelled does not strand its issue, so no sweep runs it again |
| Dispatcher.Database.RecordEvent | src/carter_omp/db.py:720-755 | Inserts unless the delivery id exists, and says which |
| Dispatcher.Database.ClaimNextEvent | src/carter_omp/db.py:757-799 | Takes the queued row received first among those whose backoff is over and whose issue has no running row, if there is one, and makes it running with one more attempt; no other row changes |
| Dispatcher.Database.RequeueEvent | src/carter_omp/db.py:1307-1334 | A row in one of the allowed states becomes queued without a backoff and keeps attempts and error; every other row stays as it is; true exactly when there was one |
| Dispatcher.Database.ScheduleRetry | src/carter_omp/db.py:1336-1352 | A running or failed row becomes queued until the given time, with the error and the same attempts; every other row stays as it is; true exactly when there was one |
| Dispatcher.Database.ReplaceEventIfInactive | src/carter_omp/db.py:1076-1114 | Replaces the row of a delivery, at the end of the table, only if it is not active; the other rows stay |
| Dispatcher.Database.GetEvent | src/carter_omp/db.py:1263-1286 | The row of a delivery, if there is one |
| Dispatcher.Database.MarkEvent | src/carter_omp/db.py:801-806 | The row has the state and the error, and its schedule, attempts and issue as before; every other row stays as it is |
| Dispatcher.Database.ResetStuckRunning | src/carter_omp/db.py:1036-1042 | No row is running any more: each that was is queued without a backoff, and every other row stays as it is |
| Dispatcher.Database.SetIssueState | src/carter_omp/db.py:1487-1492 | Changes the state of an issue that has a row; there is no insert |
| Dispatcher.Database.LatestEventForIssue | src/carter_omp/db.py:1116-1149 | The row of an issue that was received last and not skipped; of two at one time the one inserted last |
| Dispatcher.SlotPool.Create | src/carter_omp/slot_pool.py:8-16 | A pool exists exactly for distinct UIDs, and starts with all of them free |
| Dispatcher.SlotPool.Acquire | src/carter_omp/slot_pool.py:22-28 | Gives the UID that has been free longest, none for an empty pool, or waits |
| Dispatcher.SlotPool.Release | src/carter_omp/slot_pool.py:30-37 | Puts back a checked-out UID at the end of the queue; anything else is an error that changes nothing |
| Dispatcher.WorkerPool.constructor | src/carter_omp/queue.py:262-272 | A new pool over a table with running rows requeues them and satisfies the invariant |
| Dispatcher.WorkerPool.ClaimFromDatabase | src/carter_omp/queue.py:566-573 | The claimed row is held with one more attempt and nothing else changes, or no row is eligible |
| Dispatcher.WorkerPool.AdmitOrBounce | src/carter_omp/queue.py:574-582 | A row whose key is in flight is queued again without a backoff, its attempt spent; any other becomes a waiting run, and its key is in flight |
| Dispatcher.WorkerPool.AcquireSlot | src/carter_omp/queue.py:628-641 | A run starts its handler exactly when a slot is free or the pool has none, and takes the one that has been free longest |
| Dispatcher.WorkerPool.RecordReturn | src/carter_omp/queue.py:724-747 | After a handler returns: done for a control event; failed as cancelled for a cancelled one; a terminal row stays; any other is done without an error; no other row changes |
| Dispatcher.WorkerPool.HandleException | src/carter_omp/queue.py:642-679 | After an exception: nothing for a shutdown interrupt; failed as cancelled; queued until the given time, with the error, while attempts are left and the row can move; else failed with the error; no other row changes |
| Dispatcher.WorkerPool.FinishRun | src/carter_omp/queue.py:680-688 | Forgets the cancellation and the hook of the delivery and puts the slot at the end of the queue |
| Dispatcher.WorkerPool.ReleaseKey | src/carter_omp/queue.py:584-587 | Takes the key of the run out of `_inflight` |
| Dispatcher.WorkerPool.ArmCancelTest | src/carter_omp/queue.py:589-600 | A hook armed after the cancel is fired on the spot |
| Dispatcher.WorkerPool.ArmCancelStore | src/carter_omp/queue.py:601-601 | The store of the hook, a step of its own |
| Dispatcher.WorkerPool.CancelEvent | src/carter_omp/queue.py:607-626 | Records the request and fires the stored hook, once; the answer says whether there was one |
| Dispatcher.WorkerPool.BeginStop | src/carter_omp/queue.py:301-318 | The dispatcher and the sweep are cancelled wherever they are; a claim between database and admission is dropped with its row running |
| Dispatcher.WorkerPool.InterruptForShutdown | src/carter_omp/queue.py:336-349 | A shutdown interrupt records the delivery and fires the stored hook |
| Dispatcher.WorkerPool.Redispatch | src/carter_omp/queue.py:521-531 | Inserts a fresh queued row under the id made from the spent count, with the payload of the latest row; a second sweep with the same count does nothing |
| Dispatcher.WorkerPool.CheckCandidate | src/carter_omp/queue.py:507-520 | An issue whose budget is spent is abandoned; any other goes on exactly when its latest row has failed |
| CommitMessages.RepairOutsideSpans | src/carter_omp/host_tools.py:1599-1606 | The loop repairs exactly the parts outside backticks and reports a change exactly when one is made |
| CommitMessages.RepairMessageEscapes | src/carter_omp/host_tools.py:1587-1607 | The method with its shortcut computes the repair of all parts; what text that is: `CommitRepairs.RepairedAt` and `CommitRepairs.FirstOutside` |
| CommitRepairs.RepairPartAt | src/carter_omp/host_tools.py:1603-1603 | Behind text without an escape, an escape of either kind becomes one newline and what follows is repaired by itself; a part without an escape stays |
| CommitRepairs.RepairedAt | src/carter_omp/host_tools.py:1587-1607 | For a whole message: text without an escape outside the code spans stays, the first such escape becomes one newline, and the text behind it is repaired as a message of its own |
| CommitRepairs.FirstOutside | src/carter_omp/host_tools.py:1587-1607 | Every message that needs a repair has such a first escape, so the law above gives the text of every repair |
| CommitRepairs.StrippedName | src/carter_omp/sandbox.py:156-169 | What is cut off a name or a message is white space, and none is left there |
| CommitRepairs.TrailerAdded | src/carter_omp/sandbox.py:156-169 | The candidate is the repaired message if it has the co-author line, else that message, stripped at its end, a blank line and the co-author line |
| CommitMessages.RepairIff | src/carter_omp/host_tools.py:1587-1607 | A message is repaired if and only if an escape stands behind an even number of backticks, and afterwards none does |
| CommitMessages.RepairKeepsSpans | src/carter_omp/host_tools.py:1599-1607 | A repair keeps the number of parts and every code span |
| CommitMessages.NeedsFixIff | src/carter_omp/host_tools.py:1709-1718 | A commit is rewritten for its message exactly when an escape is outside the spans or the trailer is missing |
| CommitMessages.FixChangesMessage | src/carter_omp/host_tools.py:1709-1747 | What is rebuilt for such a commit is never the message it had, not even up to trailing newlines |
| CommitMessages.UnfixedMessageKept | src/carter_omp/host_tools.py:1746-1747 | A commit rebuilt only for its parents keeps its message up to trailing newlines |
| CommitMessages.RebuiltIsNormal | src/carter_omp/host_tools.py:1709-1747 | After one pass: no escape outside spans, the trailer is there, and a second pass does nothing, for every message and every trailer without an escape |
| CommitMessages.IdempotentIff | src/carter_omp/sandbox.py:156-175 | Normalizing is idempotent on all messages if and only if the trailer line holds no escape |
| CommitMessages.CandidateKeepsSpans | src/carter_omp/sandbox.py:156-169 | Every closed code span survives the repair and the trailer |
| Rewriter.Repo.Inspect | src/carter_omp/host_tools.py:1699-1720 | The first loop: the candidate of every message and the commits to repair, or the failing command; detection before a failure decides between silence and refusal |
| Rewriter.Repo.RebuildOne | src/carter_omp/host_tools.py:1723-1757 | One commit: kept, or written with the images of its parents and the candidate message |
| Rewriter.Repo.Rebuild | src/carter_omp/host_tools.py:1721-1757 | The second loop computes the images of all commits and stops at the first command that fails |
| Rewriter.Repo.CompareAndSwapHead | src/carter_omp/host_tools.py:1759-1765 | HEAD moves exactly when it still is the old head and `git update-ref` does not fail for another reason |
| Rewriter.Repo.Normalize | src/carter_omp/host_tools.py:1654-1770 | Skipped, refused or moved, each if and only if its condition holds, a failing `git update-ref` included; HEAD moves only at the end and only by compare-and-swap, so every failure leaves it where others put it |
| Rewriter.NewStoreGrows | src/carter_omp/host_tools.py:1743-1757 | Writing commits keeps the store content-addressed and changes no commit in it |
| RewriterProofs.RecordRewritten | src/carter_omp/host_tools.py:1724-1757 | For a range listed parents-first every commit keeps tree, identities and dates, and its parents are the images of its old parents |
| RewriterProofs.NameIsFixpoint | src/carter_omp/host_tools.py:1735-1757 | The names given one by one are those of the records under the final map |
| RewriterProofs.KeptIff | src/carter_omp/host_tools.py:1737-1739 | A commit keeps its id if and only if neither it nor an ancestor in the range needs a repair |
| RewriterProofs.DistinctIff | src/carter_omp/host_tools.py:1722-1757 | The rewrite is injective on the history if and only if no two commits differ only in what the repair removes |
| RewriterProofs.SecondPassSkips | src/carter_omp/host_tools.py:1719-1720 | No commit of the rewritten range needs a repair |
| RewriterProofs.NormalizeTwice | src/carter_omp/host_tools.py:1654-1770 | A first run moves HEAD to a commit with the same tree; a second run on the new range is skipped |
| Publication.RunPolicyPhases | src/carter_omp/host_tools.py:721-759 | Passes exactly when no required phase that runs is without commands and every command of such a phase ends with 0, unless checks are skipped; then the record has one entry for every command, or one for every skipped phase, and no other |
| Publication.CheckEvidence | src/carter_omp/host_tools.py:794-811 | Accepts a receipt exactly when every required phase has an entry and all its entries ended with 0 |
| Publication.GateGivesEvidence | src/carter_omp/host_tools.py:721-811 | What the full gate records satisfies its own policy if and only if checks were not skipped or nothing is required |
| Publication.Checkout.Push | src/carter_omp/git_ops.py:870-975 | Aborts exactly on a moved HEAD; succeeds exactly when the remote is what the tracking ref says, or has the pushed commit already; replaces the remote only in the first case; what the tracking ref becomes; a commit that lands after the head check is pushed |
| Publication.Checkout.CheckAuthors | src/carter_omp/host_tools.py:1800-1818 | Gives exactly the listed commits by another name or e-mail |
| Publication.Checkout.Prepare | src/carter_omp/host_tools.py:1791-1797 | Refuses exactly when a message needs a repair and a command fails or HEAD moves meanwhile; else the head snapshot has the tree of the old HEAD if nobody moved HEAD up to it |
| Publication.Checkout.GuardedPush | src/carter_omp/host_tools.py:1774-1880 | Pushes if and only if the rewrite does not refuse, all listed commits are by the author, the tree is clean, the snapshot is still HEAD, the server accepts, and the remote is as last seen or has the commit already; the snapshot has the tree of the old HEAD if nobody moved HEAD before it; replaces the remote only if it equals the tracking ref |
| Publication.Checkout.OpenPr | src/carter_omp/host_tools.py:2261-2267 | Pushes if and only if the gates pass, the receipt of the verified HEAD satisfies the policy, and the guarded push goes through; the pushed snapshot has the tree of that HEAD, if nobody moved HEAD between receipt and snapshot |
| Publication.GateIgnoresRewrite | src/carter_omp/host_tools.py:1800-1818 | The author gate gives the same verdict before and after a rewrite |
| Publication.UnseenSurvives | src/carter_omp/git_ops.py:915-947 | A remote value that was not fetched stays, and stays unseen, through any number of pushes of other commits |
| Publication.ReplacesOnlySeen | src/carter_omp/git_ops.py:915-947 | A push changes the remote only if the tracking ref shows what is there, and gets through exactly then or when the remote has the commit already |
| Publication.LateDriftBlocks | src/carter_omp/git_ops.py:958-974 | The push after one that got through is refused if and only if the tracking ref does not show what was sent (the URL was explicit, and HEAD moved late or the ref was not refreshed) and the next push sends something else |
| DiffAnchors.DiffAnchorableLines | src/carter_omp/host_tools.py:3274-3312 | The loop with its counters and sets computes the fold over the tokens of the lines |
| DiffAnchors.AnchorsExact | src/carter_omp/host_tools.py:3274-3312 | For every edit script, context and heading, and lines that begin with anything and hold no harmful line break, RIGHT and LEFT are exactly the numbers of the new and old lines that hunks show, with or without the last newline |
| DiffAnchors.ReadAsItselfIff | src/carter_omp/host_tools.py:3287-3309 | A shown line counts as itself at every place in a hunk if and only if each piece behind an inner line break begins with a backslash |
| DiffAnchors.CrLfIsHarmless | src/carter_omp/host_tools.py:3287-3287 | A carriage return at the end of a line does no harm |
| DiffAnchors.InnerBreakMisread | src/carter_omp/host_tools.py:3287-3287 | With another line break inside, such as a form feed, the removal of the only line of a file shows a line of the new file, which is empty |
| DiffAnchors.MatchHeader | src/carter_omp/host_tools.py:161-161 | The header pattern reads back the start of both ranges, for every count and heading |
| DiffAnchors.AnchorCache.AnchorRejection | src/carter_omp/host_tools.py:3316-3363 | None exactly when the line, and the first line if given, are shown on the same side; else which of the reasons, each exactly when it applies; the cache stays correct |
| DiffAnchors.FilterAnchorable | src/carter_omp/host_tools.py:3366-3379 | Keeps, each once and in order, exactly the staged comments whose lines can be named on the side that `side` and `start_side` say, and drops the others in order |
| DiffAnchors.FilterPartitions | src/carter_omp/host_tools.py:3366-3379 | No comment is lost, doubled or on the wrong side of the split |
| DiffAnchors.AnchorsToShownLines | src/carter_omp/host_tools.py:3316-3379 | On a printed diff a comment is posted exactly when every line it names is shown: in the new file if its `side` is RIGHT, in any case, or missing, else in the old file; a `start_side` must say the same side |
| CacheFiles.StepInv | src/carter_omp/natives_cache.py:183-225 | Every file operation keeps the sharing discipline: an inode has two names only if all are `.node` files, and at most one is in the cache |
| CacheFiles.StepLocal | src/carter_omp/natives_cache.py:183-225 | A disciplined step changes only the paths it is about, although inodes are shared |
| CacheFiles.LiveBytesNeverChange | src/carter_omp/natives_cache.py:295-395 | Over every run of populate, capture, eviction, rebuilds and in-place rewrites of companions, the bytes of a live entry stay as they are |
| CacheFiles.PopulateGivesCaptured | src/carter_omp/natives_cache.py:295-395 | A workspace gets the bytes that were staged when the entry was published, at any later time |
| CacheFiles.WriteInPlaceLeaksIff | src/carter_omp/natives_cache.py:306-312 | A write in place changes the cache if and only if it hits a `.node` file still linked to an entry, with other bytes |
| CacheFiles.LinkedCompanionLeaks | src/carter_omp/natives_cache.py:306-312 | Linking companions instead of copying them would leak the next rewrite |
| NativesCache.Cache.constructor | src/carter_omp/natives_cache.py:258-269 | At least one entry per repository; a negative byte cap is none |
| NativesCache.Cache.Lookup | src/carter_omp/natives_cache.py:281-293 | A hit exactly for a complete entry |
| NativesCache.Cache.AtomicLink | src/carter_omp/natives_cache.py:183-205 | A link, or a copy across file systems, as one step of the file protocol |
| NativesCache.Cache.AtomicCopy | src/carter_omp/natives_cache.py:208-225 | A copy to a fresh inode, as one step of the file protocol |
| NativesCache.Cache.PopulateWorkspace | src/carter_omp/natives_cache.py:295-328 | On a hit the workspace has every `.node` file and companion of the entry, byte for byte, and nothing else has changed |
| NativesCache.Cache.FillStaging | src/carter_omp/natives_cache.py:369-391 | The staging directory holds exactly the build and the manifest, and nothing of an earlier crash |
| NativesCache.Cache.Capture | src/carter_omp/natives_cache.py:331-395 | Stores exactly the build of the workspace when there is a build and no entry, and then evicts; otherwise which of the three other outcomes, and what stays untouched; an entry captured later than all others is there afterwards, byte for byte |
| NativesCache.Cache.StoreBuild | src/carter_omp/natives_cache.py:331-393 | The part before the eviction, for any existing entries |
| NativesCache.Evict | src/carter_omp/natives_cache.py:451-467 | The two loops keep the longest run of newest entries within both caps, or the newest entry alone, and evict all others |
| NativesCache.Cache.GcLocked | src/carter_omp/natives_cache.py:424-467 | Of the entries with a manifest, oldest first, keeps the longest run of newest ones within both caps, or the newest alone; every workspace and kept entry stays as it is, and nothing else is left |
| NativesCache.CutIsLongest | src/carter_omp/natives_cache.py:451-467 | The kept entries meet both caps or are the newest alone, no longer run of newest entries meets them, and only one cut is like that |
| NativesCache.LatestSurvives | src/carter_omp/natives_cache.py:356-395 | An entry captured strictly later than all others survives its own eviction |
| NativesCache.SortedByTime | src/carter_omp/natives_cache.py:449-449 | The entries are ordered oldest first |
| NativesCache.SortedStable | src/carter_omp/natives_cache.py:451-453 | Entries of the same time stay in the order of the directory |
| CommentLedger.Ledger.BeginSideEffect | src/carter_omp/db.py:1988-2000 | The intent row is pending with one more attempt |
| CommentLedger.Ledger.FinishSideEffect | src/carter_omp/db.py:2001-2008 | The row is done with the remote id; without a row nothing happens |
| CommentLedger.Ledger.PostCommentIdempotent | src/carter_omp/host_tools.py:1482-1521 | Each outcome exactly when it applies: a done row is reported; a comment with the text is taken over, the first one; otherwise posted if the post lands and is answered and the process lives, raised if not, and what row and thread hold wherever it dies |
| CommentLedger.AtMostOnce | src/carter_omp/host_tools.py:1482-1521 | Over any crashes and retries: at most one copy more than retries without a listing; a copy has a row; a done row names a comment with the text |
| CommentLedger.BoundIsReached | src/carter_omp/host_tools.py:1502-1505 | n retries without a listing can leave n + 1 copies |
| CommentLedger.DoneIsFinal | src/carter_omp/host_tools.py:1494-1496 | Once done, the row stays and no copy is added |
| IssueIndex.IssueIndexSync.SyncRepo | src/carter_omp/issue_index.py:273-304 | Which request fails it and how much was read then; else the first 3000 entries are ingested, the last entry of each number wins, other items stay, and the watermark is the start if there were fewer, else the time of the last one read; no other outcome moves it |
| IssueIndex.AlwaysCurrent | src/carter_omp/issue_index.py:273-304 | After every run of ticks, updates, deletions, deliveries and clock steps with skew at most the overlap, every remote item older than watermark less overlap is indexed at its current version |
| IssueIndex.SkewLosesUpdate | src/carter_omp/issue_index.py:37-39 | With more skew an update is neither indexed nor ever listed again |
| IssueIndex.StuckIff | src/carter_omp/issue_index.py:295-298 | A cut tick makes no progress if and only if a closed window of the overlap holds a whole budget of items |
| IssueIndex.CutTickProgress | src/carter_omp/issue_index.py:295-298 | On a sparse remote a cut tick leaves strictly fewer items due |
| IssueIndex.CompleteSoon | src/carter_omp/issue_index.py:273-298 | On a sparse stable remote at most as many ticks are cut as items are due |
| IssueIndex.StuckForever | src/carter_omp/issue_index.py:295-298 | Once a tick makes no progress, the next one is cut too and makes none |
| IssueIndex.CompletesIffSparse | src/carter_omp/issue_index.py:273-298 | Ticks come to a complete one from every watermark if and only if every closed window holds fewer than 3000 items |
| DerKeys.ParseRsaPrivateKey | src/carter_omp/app_auth.py:56-84 | The loop ends, and reads the integers the recursive reader reads |
| DerKeys.Pkcs1RoundTrip | src/carter_omp/app_auth.py:41-84 | Every version 0 key encoded as RFC 8017 appendix A.1.2 says is read back |
| DerKeys.Pkcs8RoundTrip | src/carter_omp/app_auth.py:41-84 | The same inside PKCS#8, for every algorithm identifier and attributes |
| DerKeys.IntsNotUnwrapped | src/carter_omp/app_auth.py:63-75 | The integers of a PKCS#1 key are never taken for a PKCS#8 wrapper |
| DerKeysExactly.IntsParse | src/carter_omp/app_auth.py:76-84 | A sequence of integers is a key exactly when it has at least four and begins with version 0, and then the second, third and fourth are the key |
| DerKeysExactly.OtherElementFails | src/carter_omp/app_auth.py:78-81 | An element that is no integer behind them makes it an error |
| DerKeys.KeyLengthIs | src/carter_omp/app_auth.py:96-96 | The key length is the number of octets of the modulus |
| DerKeys.PaddingIff | src/carter_omp/app_auth.py:97-98 | The padding conforms to section 9.2 of RFC 8017 if and only if the key has at least 62 octets, and has the length of the key if and only if it has at least 54 |
| DerKeys.PaddedBelowModulus | src/carter_omp/app_auth.py:97-99 | From 54 octets on the padded message is below the modulus |
| DerKeys.Sign | src/carter_omp/app_auth.py:92-100 | The signature is the modular power of the padded message and always fits the length of the key; only a zero modulus fails |
| DerKeysExactly.PowModIs | src/carter_omp/app_auth.py:99-99 | The modular power is the power, reduced by the modulus |
| Pragmas.ParseCommandLine | src/carter_omp/pragmas.py:59-92 | The loop over the words reads what the recursive reader reads, and is all or nothing |
| Pragmas.ParsePragmas | src/carter_omp/pragmas.py:95-118 | The loop splits the lines into commands and body as specified |
| Pragmas.ParseTwice | src/carter_omp/pragmas.py:95-118 | Parsing a cleaned body finds no pragma and changes nothing, even where two line breaks have become one |
| Pragmas.PrintParse | src/carter_omp/pragmas.py:59-118 | Pragmas printed as lines above a body without commands are read back in order, with the body |
| PragmaForms.PairsIff | src/carter_omp/pragmas.py:70-92 | Words are read exactly when they are commands of the two forms and nothing else, and as the pairs those say, keys in lower case |
| PragmaForms.CommandIff | src/carter_omp/pragmas.py:59-92 | A line is read exactly when its words are such commands, at least one |
| PragmaForms.WordsBack | src/carter_omp/pragmas.py:68-68 | Words with any white space around them are read back |
| PragmaForms.StrippedText | src/carter_omp/pragmas.py:117-117 | What is cut off the body is line ends at both ends, and none is left there |
| PragmaForms.LowerIs | src/carter_omp/pragmas.py:78-90 | Keys that differ in case only are one key, and nothing but capital letters changes |
| PragmaForms.SaidParse | src/carter_omp/pragmas.py:95-118 | Lines of commands in either form, any number on a line, between text without commands: read in order, and the body is the text without them |
| Admission.Submissions.AdmitSubmission | src/carter_omp/db.py:2252-2297 | Rejects exactly a new delivery of a user who has as many rows from `since` on as the cap; a duplicate is accepted and changes nothing; reports the number of such rows |
| Admission.AtMostCap | src/carter_omp/db.py:2252-2297 | In every closed span of the length of the window a user has at most the cap, also if the clock jumps between calls, as long as each call takes its start of the window at least a window before the time it inserts |
| Admission.DuplicateIsNoop | src/carter_omp/db.py:2268-2282 | A repeated delivery changes nothing, also at the cap |
| Admission.DeliveriesDistinct | src/carter_omp/db.py:2268-2296 | No delivery is counted twice |

## Left out

- EventQueueProgress.ExecutionsBounded: does not cover retention of redispatch rows, because pruning one reopens the budget.
- EventQueueSweeps.RetriedOrSwept: speaks of a row that is still the one its run was claimed for, with the same attempts.
- EventQueueContinuations.StuckIff: speaks of states between two claims, and of issues with a key that is not empty.
- DiffAnchors.AnchorsExact: one direction for whole scripts; a harmful line can do no damage where its misread pieces happen to give numbers that are shown anyway.
- Publication.Checkout.Push: HEAD is taken to be on the workspace branch; a detached HEAD would push the branch instead when no URL is given.
- Rewriter.Repo.Normalize: `git commit-tree` drops a parent that comes twice and headers such as signatures; the model keeps parents as listed and has no such headers.
- CacheFiles.PopulateGivesCaptured: speaks of one file at a time; populate takes no lock, so an entry evicted and captured again between two of its files can mix two captures.
- NativesCache.Cache.Capture: ownership, modes and the lock file are not modelled.
- IssueIndex.AlwaysCurrent: deliveries bring the current state of an item; out-of-order deliveries, and pages that shift while the remote changes within a tick, are not modelled.
- CommentLedger.AtMostOnce: the listing shows the whole thread (the code reads the first 100 comments), a post lands zero or one time, and nobody deletes a copy.
- The semaphore variant of the pool, the age window and the limit of `stranded_issues`, backoff jitter, recorded outcomes, and errors of the database itself.
- Case folding and digits outside ASCII: `\d`, `str.upper`, `str.lower` and the key pattern are modelled on ASCII.
- Base64 and PEM armour, the number theory of RSA, SHA-256, JSON, and how `git rev-list` finds the range: the range is a parameter, and "parents before children" is a stated precondition where a proof needs it.
- The built-in gates without a policy pass or fail as a whole.
- Pending closures, deletion sweeps of the index beyond their effect, search queries, authorization, HTTP clients, the server, the dashboard and the command line: input and output, or single-branch facts.
