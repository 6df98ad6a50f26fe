# Internship Pilot: verified models

Dafny models of the parts of Internship Pilot whose behaviour depends on interleavings, crashes, re-runs or list
algebra, with the properties the code is meant to have proved for every input and every run. `dafny verify
dfyconfig.toml` checks all of it.

| Files | What they model |
|---|---|
| `Prelude.dfy` | options, filtered lists, subsequences |
| `RunTable.dfy`, `DuplicateRepair.dfy`, `DuplicateRepairProofs.dfy` | the shared application-run table and the worker's startup repair |
| `ApplicationWorker.dfy` | recovery, polling, claiming, requeueing as methods over the table |
| `WorkerProtocol.dfy`, `WorkerOneActive.dfy`, `WorkerKeys.dfy`, `WorkerFinished.dfy`, `WorkerRefinement.dfy` | the worker as a state machine: one step per database call, crashes and outside writers anywhere |
| `SupersedeScript.dfy`, `NotTailoredRepair.dfy` | the two maintenance scripts that write the same table |
| `Grounding.dfy`, `GroundingText.dfy`, `GroundingProofs.dfy`, `Matching.dfy` | rewriting a model answer to what approved facts support, and saving it |
| `SamplePool.dfy`, `BoardMemo.dfy` | the shared-cursor worker pool, the promise caches and the headless budget of the resolution benchmark |
| `HealthCache.dfy`, `SchemaFingerprint.dfy`, `ClientCache.dfy` | the coalescing health cache and the fingerprint-keyed Prisma client |
| `Supervisor.dfy` | the local supervisor of three child processes |
| `LegacyClaim.dfy`, `TableCopy.dfy` | the ownership claim and the copy into PostgreSQL |
| `FreshnessSlo.dfy` | the discovery-latency report |

Code that changes state step by step is a method or a class, tied by its `ensures` to a specification function of the
old state; the theorems are about those functions and about all runs of them. Code between two awaits is one step.

## What the proofs show about the code

Where the code does not do what its comments or the neighbouring code suggest, the model follows the code, and a
theorem says exactly when the expected property holds:

- The poll query takes 50 rows before the worker scope is applied. Whatever order the database gives equal times, an
  oldest run the worker may process is picked if and only if fewer than fifty queued runs of the other scope are not
  younger; and whatever that order, nothing is picked if and only if fifty are older (`PollFindsOldestIff`).
- The recovery write is not conditional on the status. It is the only worker step that can bring a finished run back,
  and does so exactly when somebody else finished the run between the recovery read and the write (`RevivalIff`,
  `RecoveryRaceRevives`). The two repair writes, the stage records and the processor's own writes do not look at the
  status either and can change a finished run (`FinishedRunRewrittenIff`); at startup that happens only to runs an
  outsider wrote after the repair's read (`StartupSparesFinishedRuns`).
- A repair is refused only after an outside write of one of three kinds: one that leaves a bare job id as key on a run
  that is finished or of another job, one that finishes or deletes a survivor while its repair is under way, or one
  that takes the survivor's key (`StartRefusedOnlyAfterABreakingWrite`). Enqueueing can only do the second
  (`QualifiedWriteBreaksIff`); the supersede script does the first whenever it retires a run keyed with its job's id
  (`ScriptWriteBreaksKeys`).
- The duplicate repair groups by job id alone, across users, and writes the bare job id as key, while enqueueing is
  scoped to the owner (src/lib/applications/queue.ts:104-152). Everyone with an active run for a job still has one
  after the repair exactly when no job has active runs of two owners (`EveryOwnerIsServedIff`); two people who queue
  the same job are enough to break it (`TwoOwnersOneJob`).
- "One active run per job" is not an invariant of the table: a second person's enqueue breaks it
  (`SecondOwnerClashes`). What holds of every run, with arbitrary outside writes at any moment, is that the worker
  never makes a clash: once a repair has gone through, any two active runs of one job include one that an outsider
  created or wrote since (`EveryClashWasMadeOutside`), so the property holds exactly when none of those has an active
  sibling (`OneActiveAfterRepair`).
- The supersede script does not look at queued runs, so it establishes "one active run per job" exactly when no queued
  run clashes (`ScriptEstablishesOneActiveIff`). It also leaves `activeKey` on the runs it retires. Where only active
  runs of a job held its id as key, the next worker start goes through exactly when the script retired no in-scope
  holder (`StartAfterScriptIff`); a run the processor paused on a field, beside an older one stopped for a security
  review, is such a holder (`PausedHolderStopsTheWorker`).
- After an exception the stage record says QUEUED even when the requeue did not apply (`ThrowRecordsQueuedStep`): a run
  marked failed whose processor then throws stays failed at step QUEUED (`FailedRunSaysQueued`).
- A local model whose JSON stays malformed on every attempt is reported as unavailable, or as timed out; only the cloud
  model, or an answer off the schema, is reported as an invalid response (`MalformedToTheEnd`).
- The comment above `enforceGrounding` (src/lib/validation.ts:141-145) says an unsupported claim is downgraded to
  "needs confirmation". The code sends it to the never-add list and never into confirmation
  (`UnsupportedClaimIsNeverAdd`).
- With more than one worker the headless budget can be overspent, by at most the number of workers minus one, and for
  every positive budget and number of workers by as much as that (`BudgetOvershootIsBounded`, `OvershootBoundIsReached`,
  `BudgetNeverOverspentIff`).
- If rebuilding the Prisma client throws, the disconnected client stays cached: the cache behaves over a sequence of
  calls exactly when no failed rebuild is followed by another call (`CacheBehavesIff`).
- The legacy claim calls itself idempotent and safe to retry. It is idempotent, but a unique constraint over owner and
  value refuses it, in every run, exactly when two rows would collide under one owner (`ClaimSucceedsIff`). The schema
  comment that legacy rows "remain unique among themselves" (prisma/schema.prisma:479) does not hold in PostgreSQL,
  where null owners never collide.
- The copy into PostgreSQL orders parents before children, which is enough for an empty destination. With earlier rows
  there, it goes through exactly when no row it would write refers to a row kept out by a secondary unique value
  (`CopySucceedsIff`).

## Model

| member | source | states |
|---|---|---|
| RunTable.FindManyOldestFirst | scripts/application-worker.ts:29-33 | the rows asked for, each once, oldest first; equal times in any order |
| RunTable.ActivatesNothingKeepsOneActive | scripts/application-worker.ts:54-66 | a write that activates no run and moves none to another job keeps "at most one active run per in-scope job" |
| DuplicateRepair.Canonical | scripts/application-worker.ts:40-42 | the survivor is in the group, nothing in the group sorts before it, and it is the first of those that tie, as a stable sort leaves it |
| DuplicateRepair.CanonicalIsFirstStoppedElseOldest | scripts/application-worker.ts:40-42 | on a list fetched oldest first the survivor is the first run with a stopped field, or the first run when none has one |
| DuplicateRepair.GroupByJob | scripts/application-worker.ts:34-38 | the group map holds exactly the in-scope jobs in first-seen order, and under each the runs of that job in fetched order |
| DuplicateRepair.KeyTakenIffNotFree | scripts/application-worker.ts:50 | the unique index refuses a survivor its key exactly when some run that is not an active run of the job or of an earlier repaired job holds it |
| DuplicateRepair.RepairJob | scripts/application-worker.ts:39-51 | one job: duplicates superseded with their key cleared, then the survivor keyed, or a refusal that leaves the table between the two writes |
| DuplicateRepair.RepairDuplicateRuns | scripts/application-worker.ts:28-52 | the whole repair ends in the specified table exactly when every key is free in its turn; otherwise it stops at the first refused job with that job nulled and nothing later touched |
| DuplicateRepairProofs.RepairVerdict | scripts/application-worker.ts:39-51 | an active in-scope run ends as the keyed survivor of its job or as superseded; every other run is untouched |
| DuplicateRepairProofs.RepairLeavesOneActive | scripts/application-worker.ts:28-52 | after the repair every in-scope job has at most one active run |
| DuplicateRepairProofs.RepairKeepsTheLeast | scripts/application-worker.ts:39-51 | the survivor of a job is an active run of it that no other active run precedes under "stopped field first, then older" |
| DuplicateRepairProofs.RepairInColumns | scripts/application-worker.ts:28-52 | of the queued, running and paused runs of a job the worker serves one stays, keyed with the job's id: one with a non-empty label if any has one, and among those alike in this the oldest; the others end superseded, without key, finished now; all else is untouched |
| DuplicateRepairProofs.PausedRunIsKept | scripts/application-worker.ts:40-50 | of an older queued run and a later one paused at a field the paused one is kept and the queued one superseded |
| DuplicateRepairProofs.KeysDistinctThroughout | scripts/application-worker.ts:43-50 | non-null keys stay distinct after each single write of the loop, because duplicates are nulled before the survivor is keyed |
| DuplicateRepairProofs.OwnKeysSuffice | scripts/application-worker.ts:43-50 | if only active runs of a job hold its id as key, for jobs with active in-scope runs, no write is ever refused |
| DuplicateRepairProofs.InterruptedRepairKeepsSurvivors | scripts/application-worker.ts:39-51 | killed after any of its writes and started again, the repair deals with the same jobs and keeps the same run of each, or one that ties with it |
| DuplicateRepairProofs.EveryOwnerIsServedIff | scripts/application-worker.ts:34-38 | everyone with an active in-scope run for a job still has one for it after the repair exactly when no job has active runs of two owners |
| DuplicateRepairProofs.TwoOwnersOneJob | src/lib/applications/queue.ts:104-152 | two people queue one job; the repair at the next start leaves the later one without an active run for it |
| DuplicateRepairProofs.RepairTwiceIsRepairOnce | scripts/application-worker.ts:28-52 | repairing a repaired table changes nothing |
| DuplicateRepairProofs.RepairedTableIsNotRefused | scripts/application-worker.ts:28-52 | after a repair that went through, the next one is not refused |
| ApplicationWorker.RecoverInterruptedRuns | scripts/application-worker.ts:54-66 | one bulk requeue and one stage record per run leave every interrupted in-scope run queued with a QUEUED stage and every other run as it was |
| ApplicationWorker.RecoveryLeavesNoneRunning | scripts/application-worker.ts:54-66 | afterwards no in-scope run is running, a second recovery changes nothing, and one-active-per-job is kept |
| ApplicationWorker.RecoveredInColumns | scripts/application-worker.ts:54-66 | a running run the worker serves is queued, not finished, with QUEUED as step and newest stage and all else as it was; every other run is untouched |
| ApplicationWorker.ScopeIndex | scripts/application-worker.ts:75 | everything before the index is out of scope, and the run at the index is in scope |
| ApplicationWorker.NextQueuedRunId | scripts/application-worker.ts:68-76 | picks the first in-scope run among the first fifty queued rows, oldest first; what it picks is an oldest in-scope queued run, and with at most fifty queued runs it misses none |
| ApplicationWorker.PickedRunIsOldest | scripts/application-worker.ts:68-76 | whatever is picked is queued, in scope and not younger than any other in-scope queued run |
| ApplicationWorker.PollFindsOldest | scripts/application-worker.ts:69-75 | for the order the database gave: fewer than fifty foreign runs not younger than the oldest in-scope one, and an oldest in-scope run is picked; fifty older ones, and nothing is; without ties between the two scopes, exactly that |
| ApplicationWorker.PollFindsOldestIff | scripts/application-worker.ts:69-75 | over all orders the database may give equal times: always something picked exactly when fewer than fifty foreign runs are not younger, never anything exactly when fifty are older |
| ApplicationWorker.PollInColumns | scripts/application-worker.ts:24-75 | the same in columns: among queued runs a test worker takes those whose job's source is the test source and any other worker the rest; counted over the others, fewer than fifty or at least fifty decide, and what is picked is as old as any of its own |
| ApplicationWorker.FiftyForeignRunsStarveTheQueue | scripts/application-worker.ts:69-75 | with fifty or more older out-of-scope runs, the only processable run of the table is never found |
| ApplicationWorker.ClaimRun | scripts/application-worker.ts:78-85 | compare-and-set: a queued run becomes running with its stage recorded, anything else changes nothing and reports failure |
| ApplicationWorker.ClaimMakesRunning | scripts/application-worker.ts:78-85 | a queued run that is claimed is running, at step and newest stage STARTING_BROWSER, started now and not finished, with job, owner, key, label and the last 99 earlier stages as they were; no other run changes, and nothing that is not queued is claimed |
| ApplicationWorker.AtMostOneClaimWins | scripts/application-worker.ts:78-85 | of two claims of one run, one right after the other, the second never wins and changes nothing |
| ApplicationWorker.TurnTouchesOnlyItsRun | scripts/application-worker.ts:208-237 | a full turn of the loop creates and deletes no run and writes none but the one it picked |
| ApplicationWorker.TurnInColumns | scripts/application-worker.ts:208-237 | the processor gets the claimed row and what it writes stays; after a throw a run it left running is queued, and step and newest stage read QUEUED |
| ApplicationWorker.UntouchedRunIsRequeued | scripts/application-worker.ts:219-229 | a claimed run whose processor throws before writing is queued again, with its key, label and owner |
| ApplicationWorker.ThrowRecordsQueuedStep | scripts/application-worker.ts:219-229 | after a throw the step reads QUEUED whatever happened; it agrees with the status exactly when the processor left the run running or queued |
| ApplicationWorker.FailedRunSaysQueued | src/lib/applications/worker.ts:353-368 | a run the processor marks failed before it throws, as when the job update after that write is refused, ends failed with a step that says QUEUED |
| ApplicationWorker.Worker.Start | scripts/application-worker.ts:169-170 | startup is repair then recovery; when a key is refused it ends there, with earlier jobs repaired, that job's duplicates nulled and nothing else changed |
| ApplicationWorker.Worker.PollOnce | scripts/application-worker.ts:208-237 | one turn picks, claims, processes and on a throw requeues, exactly as the turn function says |
| ApplicationWorker.StartLeavesCleanQueue | scripts/application-worker.ts:169-170 | after a successful start nothing in scope is running, no in-scope job has two active runs, and out-of-scope and finished runs are untouched |
| ApplicationWorker.ClaimedRunIsQueuedAfterRestart | scripts/application-worker.ts:28-85 | a run is claimed and the worker crashes: after the next start it is queued under its job's id, or superseded beside another active run of its job that was kept |
| WorkerProtocol.StepAccountsForRunning | scripts/application-worker.ts:54-85 | every single database call keeps: an in-scope running run was claimed by the present lock holder, or is on its recovery list |
| WorkerProtocol.RunningRunsWereClaimedByHolder | scripts/application-worker.ts:151-237 | over every interleaving of start, crash, poll, claim, finish, exception and outside write, a worker past its recovery pass claimed every in-scope running run itself |
| WorkerProtocol.RunningRunsFromAnyTable | scripts/application-worker.ts:151-237 | the same from any table with no live worker |
| WorkerProtocol.HoldersAreStarts | scripts/application-worker.ts:151-170 | the number that tells lock holders apart counts the starts, so no two tenures share it |
| WorkerProtocol.RunningRunsWereClaimedSinceTheStart | scripts/application-worker.ts:54-85 | the same read off the events alone: since its start, the worker has itself made the conditional write that found the running run queued |
| WorkerProtocol.NoSecondClaimWithoutRequeue | scripts/application-worker.ts:78-85 | over every run, restarts included, a run that is not queued cannot be claimed until the worker requeues it or an outsider creates or writes it |
| WorkerProtocol.WorkerStepKeepsRuns | scripts/application-worker.ts:28-85 | no worker step creates or deletes a run or moves it to another job |
| WorkerProtocol.WorkerKeepsRuns | scripts/application-worker.ts:28-237 | the same over whole runs |
| WorkerProtocol.RevivalIff | scripts/application-worker.ts:54-66 | a worker step takes a finished run back to queued or running exactly when it is the recovery write and the run was finished after the recovery read |
| WorkerProtocol.FinishedRunsStayFinished | scripts/application-worker.ts:54-85 | if nobody else writes between recovery read and write, no worker step of any run revives a finished run |
| WorkerProtocol.RecoveryRaceRevives | scripts/application-worker.ts:55-64 | in any scope, a run superseded between the recovery read and write is queued again |
| WorkerProtocol.FinishedRunRewrittenIff | scripts/application-worker.ts:43-85 | a worker step changes the row of a finished run exactly when it is a repair write, the recovery requeue, a stage record or a processor's write that names the run, the key is free where one is set, and the row would differ; a claim and the exception handler's requeue never do |
| WorkerOneActive.PlanCovers | scripts/application-worker.ts:29-38 | the list of groups read at startup covers every in-scope job with several active runs and names all of them |
| WorkerOneActive.StepKeepsClashesOutside | scripts/application-worker.ts:28-85 | each step, the worker's or anybody's, keeps: among runs no outsider has touched since the repair read, only jobs still on the repair list clash, and none once it is done |
| WorkerOneActive.EveryClashWasMadeOutside | scripts/application-worker.ts:28-237 | over every run, with arbitrary outside writes: past a repair, any two active runs of one in-scope job include one that an outsider created or wrote since that repair read the table |
| WorkerOneActive.OneActiveAfterRepair | scripts/application-worker.ts:28-237 | from any table, at every moment past a repair, no in-scope job has two active runs exactly when no run that outsiders touched has an active sibling; without outside writes it always holds |
| WorkerOneActive.SecondOwnerClashes | src/lib/applications/queue.ts:145-152 | a second person's enqueue of a job with an active run is a legal write and makes a clash at once |
| WorkerOneActive.UninterruptedRepairRefinesMethod | scripts/application-worker.ts:28-52 | the repair steps, undisturbed, leave exactly the table the repair method leaves |
| WorkerKeys.SoundKeysSuffice | scripts/application-worker.ts:43-50 | if every bare job id held as key is held by an active run of that job, a repair nobody disturbs meets no refusal |
| WorkerKeys.KeysStayDistinct | prisma/schema.prisma:850 | over every run, outside writes included, a table in which no two runs hold one key stays so |
| WorkerKeys.WorkerStaysOrderly | scripts/application-worker.ts:28-85 | every worker step keeps: bare keys are held by active runs of their own job, and each survivor still to be keyed is active with its key free |
| WorkerKeys.OutsideOrderlyIff | src/lib/applications/queue.ts:111-152 | an outside write breaks that order exactly when it leaves an unsound key, finishes or deletes a survivor still to be keyed, or takes its key |
| WorkerKeys.OrderLasts | scripts/application-worker.ts:28-237 | over every run the order lasts until an outside write of a breaking kind |
| WorkerKeys.StartRefusedOnlyAfterABreakingWrite | scripts/application-worker.ts:28-52 | from any table with sound keys, over every run, a start is refused only after an outside write of a breaking kind |
| WorkerKeys.QualifiedWriteBreaksIff | src/lib/applications/queue.ts:111-152 | a write whose key carries the owner, as enqueueing writes, breaks the order exactly when it finishes a run about to be keyed |
| WorkerKeys.ScriptWriteBreaksKeys | scripts/supersede-duplicate-application-runs.ts:15 | retiring a run that holds its job's id as key always breaks the order |
| WorkerFinished.StepKeepsListed | scripts/application-worker.ts:28-52 | each step, the worker's or anybody's, keeps: a run the repair is still to write is active unless an outsider wrote it since the read |
| WorkerFinished.StartupSparesFinishedRuns | scripts/application-worker.ts:28-66 | over every run, a repair or recovery write changes a finished run only if an outsider created or wrote that run since the repair read the table |
| WorkerRefinement.UninterruptedRecoveryRefinesMethod | scripts/application-worker.ts:54-66 | the recovery steps, undisturbed and in any order of the stage records, leave exactly the table the recovery method leaves |
| WorkerRefinement.UninterruptedTurnRefinesMethod | scripts/application-worker.ts:208-237 | poll, claim, record, write and finish or requeue, undisturbed, leave exactly the table one turn of the loop leaves, with the run claimed by the holder |
| SupersedeScript.SupersedeDuplicates | scripts/supersede-duplicate-application-runs.ts:3-19 | grouping, survivor choice and writes leave the specified table, and the printed count is the number of runs marked |
| SupersedeScript.ThinJob | scripts/supersede-duplicate-application-runs.ts:11-17 | a group of one is skipped; otherwise all but the survivor are marked and counted |
| SupersedeScript.LiveVerdict | scripts/supersede-duplicate-application-runs.ts:11-17 | a running or paused run is its job's untouched survivor or superseded; every other run is untouched |
| SupersedeScript.ScriptKeepsTheLeast | scripts/supersede-duplicate-application-runs.ts:11-17 | each job keeps one running or paused run, least under "stopped field first, then older" |
| SupersedeScript.ScriptInColumns | scripts/supersede-duplicate-application-runs.ts:3-17 | of the running and paused runs of a job one is left as it is, by the same rule; the others get the status superseded and a finishing time and keep all else, their key included; every other run is untouched |
| SupersedeScript.MarkedAreCounted | scripts/supersede-duplicate-application-runs.ts:15-19 | the printed count is the number of running and paused runs that are superseded afterwards |
| SupersedeScript.ScriptKeepsOneActive | scripts/supersede-duplicate-application-runs.ts:3-17 | the script keeps one-active-per-job in every scope |
| SupersedeScript.ScriptEstablishesOneActiveIff | scripts/supersede-duplicate-application-runs.ts:4-7 | the script establishes one-active-per-job exactly when no queued run shares a job with another active run |
| SupersedeScript.LeftoverKeyBlocksWorkerStart | scripts/supersede-duplicate-application-runs.ts:15 | a run the script retires keeps its key, and if that is the id of its in-scope job the next worker start is refused |
| SupersedeScript.StartAfterScriptIff | scripts/supersede-duplicate-application-runs.ts:11-17 | where only active runs of a job held its id as key, the start after the script goes through exactly when the script retired no in-scope run holding its job's id |
| SupersedeScript.PausedHolderStopsTheWorker | src/lib/applications/worker.ts:275-278 | a run the processor paused on a field and keyed with the bare job id, beside an older one stopped for a security review under its owner's key: the script retires the later one and the next start is refused |
| NotTailoredRepair.Tally | scripts/repair-not-tailored-runs.ts:26-45 | examined equals repaired plus already repaired plus skipped, and no more locks are cleared than runs repaired |
| NotTailoredRepair.HandleRun | scripts/repair-not-tailored-runs.ts:32-74 | one candidate: already repaired, skipped for a submission, or rewritten to a retryable failure with one new audit entry |
| NotTailoredRepair.RepairRuns | scripts/repair-not-tailored-runs.ts:20-82 | the pass leaves the specified table, appends exactly the entries of the repaired runs to the audit log, and counts each candidate once |
| NotTailoredRepair.PassInColumns | scripts/repair-not-tailored-runs.ts:33-62 | a run whose error log names the retired blocker and is not marked, of a job without a submitted run, becomes a failed run without key, reason and label, finished now, its old log behind the explanation; every other run is untouched |
| NotTailoredRepair.CountersInColumns | scripts/repair-not-tailored-runs.ts:26-82 | each printed counter is the number of runs with its property: looked at, rewritten, marked before, left to a submission, rewritten while holding a key and not failed |
| NotTailoredRepair.EntriesInColumns | scripts/repair-not-tailored-runs.ts:64-72 | one audit entry for each rewritten run, in order, with its job and id |
| NotTailoredRepair.RetryableRowIsRecognised | scripts/repair-not-tailored-runs.ts:34-52 | the rewritten error log still contains the marker and starts with the prefix, so the row is recognised next time |
| NotTailoredRepair.SubmissionsUntouched | scripts/repair-not-tailored-runs.ts:38-42 | which jobs have a submitted run does not change, and no run of such a job is written |
| NotTailoredRepair.SecondPassWritesNothing | scripts/repair-not-tailored-runs.ts:20-74 | a second pass finds the same candidates and writes no row |
| NotTailoredRepair.SecondPassCounts | scripts/repair-not-tailored-runs.ts:26-73 | a second pass adds no audit entry and counts the first pass's repairs as already repaired |
| NotTailoredRepair.RepairKeepsOneActive | scripts/repair-not-tailored-runs.ts:47-62 | the repair keeps one-active-per-job |
| Grounding.SortSupported | src/lib/validation.ts:155-176 | the loop over claimed-supported items splits them, in order, into the supported list and the rejected list of the specification |
| Grounding.SortConfirmation | src/lib/validation.ts:178-199 | likewise for the items that need confirmation |
| Grounding.EnforceGrounding | src/lib/validation.ts:146-242 | the whole function computes the specified answer |
| GroundingText.MatchesAreWords | src/lib/validation.ts:83-88 | the tokenizer's matches are the words of the text: a maximal stretch of word characters from its first letter or digit on |
| GroundingText.TokensAreTellingWords | src/lib/validation.ts:78-88 | the tokens are the words longer than one character that are not among the fifteen stop words, each once |
| GroundingText.SupportsIffEvidence | src/lib/validation.ts:109-134 | the branch order computes exactly: type rule, years rule, some token, and the related-engineering-degree exception, the only token, or two different tokens |
| GroundingProofs.SupportedIsGrounded | src/lib/validation.ts:155-169 | each supported item cites at least one id, only valid ids, and one single cited fact that is direct evidence |
| GroundingProofs.EvidencedClaimIsKept | src/lib/validation.ts:155-169 | and a claim with such a fact is always kept, citing its valid ids |
| GroundingProofs.UnsupportedClaimIsNeverAdd | src/lib/validation.ts:169-209 | a claim of support without such a fact goes to the never-add list, citing nothing, and the confirmation list does not depend on what was claimed as supported |
| GroundingProofs.ConfirmationIsGrounded | src/lib/validation.ts:178-199 | confirmation items cite only valid ids, and have direct evidence where exact evidence is required |
| GroundingProofs.ConfirmationIsDecided | src/lib/validation.ts:178-209 | a confirmation item that cites a valid fact, and either needs no exact evidence or has it, is offered with exactly its valid ids; any other is on the never-add list |
| GroundingProofs.ListsSpelledOut | src/lib/validation.ts:152-209 | the four lists item by item and in order: which items each keeps, their ids, and the fixed sentence of each |
| GroundingProofs.AuthorizationIsNeverClaimed | src/lib/validation.ts:90-97 | a work-authorization, visa or clearance item is never supported nor offered for confirmation, whatever the facts |
| GroundingProofs.GroundingIsIdempotent | src/lib/validation.ts:146-242 | grounding a grounded answer gives the same lists, reasons, explanation, preview and recommendation |
| GroundingProofs.GroundingIsMonotone | src/lib/validation.ts:155-209 | with more facts the supported and confirmation lists only gain and the never-add list only loses, order kept |
| GroundingProofs.GroundingConservesSkills | src/lib/validation.ts:152-209 | the multiset of skills over the four lists is unchanged |
| GroundingProofs.ReasonCountsEveryClaim | src/lib/validation.ts:210-219 | the two counts in the eligibility reason add up to the number of claims made |
| GroundingProofs.GroundingKeepsOrder | src/lib/validation.ts:152-209 | items move only from supported or confirmation into never-add, ahead of what was there, and every list keeps its order |
| GroundingProofs.PreviewAndRecommendation | src/lib/validation.ts:210-241 | score and eligibility are kept, Fail yields Skip and nothing else changes the recommendation; the reason has the two counts, the explanation names the supported skills in order, and the preview has one line for each of the first four |
| GroundingProofs.NoModelWordsSurvive | src/lib/validation.ts:163-227 | every sentence of the result is one of the fixed templates for its list, and unsupported items cite nothing |
| Matching.ConfiguredInteger | src/lib/matching.ts:35-38 | a configured number always lies within its bounds: an integer within them is taken as it is, one outside gives the nearer bound, and anything else the default |
| Matching.MalformedRetries | src/lib/matching.ts:48 | one retry by default, a configured number between none and two as it is, any other cut to that |
| Matching.AskModel | src/lib/matching.ts:190-258 | at most retries+1 calls; it succeeds exactly when some attempt parses and every earlier one was retryable, returns that answer, and otherwise reports the last attempt's failure |
| Matching.AnswerIsFirstParsed | src/lib/matching.ts:194-250 | the specified answer is the first attempt that parses after only retryable ones |
| Matching.FailureIsToldAs | src/lib/matching.ts:71-105 | every failed attempt is reported with its status and code, and retried exactly for an answer off the schema or one of three malformed-answer codes |
| Matching.MalformedToTheEnd | src/lib/matching.ts:217-258 | when every attempt comes back malformed the caller is told of an invalid response exactly when the last was not the local model's |
| Matching.RefusalsInColumns | src/lib/matching.ts:123-172 | no job, no usable description, no approved fact, in this order and with these codes, and no other refusal |
| Matching.CommittedInColumns | src/lib/matching.ts:123-297 | a row is committed exactly when the three checks pass, an attempt within the limit parses after only retryable ones, and the transaction goes through; it is the caller's own and holds the grounded form of that answer |
| Matching.FactsInColumns | src/lib/matching.ts:262-264 | the text of a fact id is content, a blank and the detail of the last selected fact with that id, and its type that fact's |
| Matching.Score | src/lib/matching.ts:123-272 | everything before the transaction: a refusal without asking the model, the failure of the last attempt, or the row made from the first answer that parses |
| Matching.MatchStore.RunMatchForJob | src/lib/matching.ts:116-320 | a run either commits one result row and its state row together or changes neither table; refusals before the model, in order, call it zero times |
| Matching.HistoryIsAppendOnly | src/lib/matching.ts:274-297 | over any sequence of runs the results table only grows, by the committed rows in order |
| Matching.CommitMirrors | src/lib/matching.ts:278-313 | one commit keeps: each state row shows score, eligibility and time of the last result committed for its person and job |
| Matching.StatesMirrorFromTheStart | src/lib/matching.ts:274-320 | after any sequence of runs by any users each state row shows score, eligibility and time of the last committed result for that pair and keeps its tracker status; pairs without one are untouched |
| Matching.CommittedRowCitesSelectedFacts | src/lib/matching.ts:261-272 | a committed row is its own user's and job's, and its fact ids are distinct, exactly those its two lists cite, and among that run's selected facts |
| Matching.FactsUsedInOrder | src/lib/matching.ts:266-272 | the stored fact ids stand in the order in which the supported and then the confirmation items first cite them |
| SamplePool.Pool.TakeTurn | scripts/measure-fresh-resolution.ts:456-478 | from the loop test to the next await: take the cursor's index, and record it at once when the catalog has it |
| SamplePool.Pool.ResumeWith | scripts/measure-fresh-resolution.ts:479-531 | after the await: classify, count and record one row |
| SamplePool.StepKeepsInv | scripts/measure-fresh-resolution.ts:454-533 | each step keeps: every index below the cursor is on exactly one row or with one worker, and the counters match the rows |
| SamplePool.PoolHandlesEachIndexOnce | scripts/measure-fresh-resolution.ts:454-551 | for any number of workers and any schedule, when no step is left every index has exactly one row, the classes partition the sample, and the reported `unresolved` is the number of UNRESOLVED rows |
| SamplePool.RowsSayWhatHappened | scripts/measure-fresh-resolution.ts:456-531 | under every schedule a row is "already found" if the catalog has its signal, and otherwise has the class of the outcome with which the worker holding the signal came back; the pool has at most three workers |
| SamplePool.SchedulesAreBounded | scripts/measure-fresh-resolution.ts:455-534 | no schedule is longer than three steps per entry plus what the workers hold, so the pool always finishes |
| BoardMemo.Boards.BoardConfigFor | scripts/measure-fresh-resolution.ts:235-243 | a key is looked up, or its discovery started and its promise stored, without yielding |
| BoardMemo.Boards.BoardJobsFor | scripts/measure-fresh-resolution.ts:281-289 | likewise for board reads |
| BoardMemo.Boards.TryRender | scripts/measure-fresh-resolution.ts:199-201 | the budget is tested before the await and not charged |
| BoardMemo.Boards.Rendered | scripts/measure-fresh-resolution.ts:202 | one is charged after the await, and only for a page that came back |
| BoardMemo.Boards.TryHeadlessRead | scripts/measure-fresh-resolution.ts:267-268 | a headless read tests and charges in one go |
| BoardMemo.EachKeyOnceForEverybody | scripts/measure-fresh-resolution.ts:235-289 | under every schedule each company is discovered and each board read at most once, and all callers of a key get the same result |
| BoardMemo.CallersGetTheResult | scripts/measure-fresh-resolution.ts:235-289 | under every schedule, what a caller gets for a company or a board is what a discovery or a read of it in that schedule ended with, value or exception |
| BoardMemo.OnlyDiscoveredBoardsAreRead | scripts/measure-fresh-resolution.ts:235-289 | a board is read only if a discovery in the schedule ended with it |
| BoardMemo.BudgetPaysForBrowserUse | scripts/measure-fresh-resolution.ts:199-268 | under every schedule the budget falls by exactly the renders that came back with a page and the headless reads |
| BoardMemo.BudgetOvershootIsBounded | scripts/measure-fresh-resolution.ts:199-268 | with W workers the budget never falls below 1-W, so renders plus headless reads never exceed it by more than W-1 |
| BoardMemo.OvershootBoundIsReached | scripts/measure-fresh-resolution.ts:199-268 | for every positive budget and every number of workers some schedule takes the budget to exactly 1-W |
| BoardMemo.BudgetNeverOverspentIff | scripts/measure-fresh-resolution.ts:199-268 | a budget is never overspent exactly when there is a single worker or nothing to spend |
| HealthCache.Client.GetCachedHealth | src/lib/ollamaHealthClient.ts:32-41 | returns an unexpired cached value, or leaves a probe in flight to wait for |
| HealthCache.Client.ProbeAnswered | src/lib/ollamaHealthClient.ts:42-52 | a malformed answer counts as unreachable, and the value is cached for fifteen seconds from then |
| HealthCache.Client.ProbeForgotten | src/lib/ollamaHealthClient.ts:53-54 | the finished probe is forgotten, and its cached value stays |
| HealthCache.StepKeepsInv | src/lib/ollamaHealthClient.ts:32-64 | each step keeps the cache, the probe in flight and the log of starts consistent |
| HealthCache.ProbesAreCoalesced | src/lib/ollamaHealthClient.ts:32-64 | for every interleaving under a clock that never goes back, probes start at least 15,000 ms apart, only the newest can be unanswered, and every call got an unexpired value or joined or started a probe |
| HealthCache.ServedValuesAreFresh | src/lib/ollamaHealthClient.ts:32-64 | a cached value is served only within fifteen seconds of the answer it came from, and is that answer, or "unreachable" where there was no proper one |
| HealthCache.AnswersNeverChange | src/lib/ollamaHealthClient.ts:37-53 | what a probe answered is what every caller that joined it gets, for good |
| SchemaFingerprint.SortIsAscending | src/lib/db.ts:38-41 | sorting distinct names gives the strictly ascending list of them |
| SchemaFingerprint.JoinIsInjective | src/lib/db.ts:42-44 | a joined list of non-empty parts free of the separator determines the parts |
| SchemaFingerprint.FingerprintIdentifiesSchema | src/lib/db.ts:34-45 | fingerprints are equal exactly when the enums and the field set of each are the same, in whatever order they are enumerated |
| SchemaFingerprint.CommaInAFieldBreaksIt | src/lib/db.ts:42 | with a comma inside a field name two different schemas share a fingerprint, so the identifier rule is needed |
| ClientCache.Globals.ResolveClient | src/lib/db.ts:109-134 | returns the cached client when current; otherwise disconnects it, builds a new one and caches it under the fingerprint, or throws with the stale one still cached |
| ClientCache.ResolvedClientIsCurrent | src/lib/db.ts:109-134 | with creation succeeding, over any calls, the client returned knows the current schema and is not disconnected, a rebuild happens exactly when the schema changed, and each replaced client is disconnected once |
| ClientCache.AfterFailedRebuild | src/lib/db.ts:115-133 | after a failed rebuild the next call hands out the disconnected client or disconnects it again |
| ClientCache.CacheBehavesIff | src/lib/db.ts:109-134 | over any sequence of calls all goes well exactly when no failed rebuild is followed by another call |
| Supervisor.Local.ChildExited | scripts/local.ts:141-143 | an exit outside shutdown schedules a restart while any are left; then a web exit shuts down and any other role is dropped from the lock |
| Supervisor.Local.RestartTimer | scripts/local.ts:330-334 | a restart timer spawns one child and rewrites the lock, or does nothing once shutdown has begun |
| Supervisor.Local.Shutdown | scripts/local.ts:147-161 | shutdown begins once, and keeps the code of the first caller |
| Supervisor.StepKeepsInv | scripts/local.ts:323-381 | each event keeps, role by role: at most one live child or pending restart, bounded spawns, and a lock that names the newest child |
| Supervisor.RolesStayBounded | scripts/local.ts:130-145 | for every sequence of exits, timers and signals each role has at most one live child and three spawns; with no restart pending the lock names its newest child, or none once its restarts are used up |
| Supervisor.RolesInColumns | scripts/local.ts:130-145 | until shutdown each role is running with its last child named in the lock, or waiting for its one restart, or, except for the web server, given up after exactly three spawns; never more than one child lives |
| Supervisor.SpawnedByTimers | scripts/local.ts:330-334 | every child spawned later comes from a restart timer of its own role, under the pid it was given |
| Supervisor.ShutdownBeginsOnlyWhen | scripts/local.ts:147-164 | shutdown begins only on a signal, with code 0, or when a web child exits with its restarts used up, with its code or 1 |
| Supervisor.NothingSpawnedAfterShutdown | scripts/local.ts:147-161 | once it has begun nothing is spawned, the lock is only ever cleared, and the process exits with the code shutdown began with |
| LegacyClaim.Store.UpdateMany | scripts/claim-legacy-user-data.ts:395-398 | gives every unowned row of the table to the target and counts them, or is refused by the table's unique constraint |
| LegacyClaim.Store.ClaimTables | scripts/claim-legacy-user-data.ts:393-403 | the loop stops at the first refused table and otherwise counts all rows that had no owner |
| LegacyClaim.Store.ClaimJobState | scripts/claim-legacy-user-data.ts:162-196 | writes a state for each job that carries personal state and has none, and returns how many it wrote |
| LegacyClaim.Store.ClaimApplicationProfile | scripts/claim-legacy-user-data.ts:205-333 | three upserts and at most one education row, as the steps specify |
| LegacyClaim.Store.Apply | scripts/claim-legacy-user-data.ts:393-406 | the sequence behind `--apply` is the specified run of steps, with its two counts |
| LegacyClaim.Store.Claim | scripts/claim-legacy-user-data.ts:357-422 | no target, somebody else owning a row, or no `--apply`: nothing changes, and exactly these refuse |
| LegacyClaim.StepIsDone | scripts/claim-legacy-user-data.ts:178-196 | after any step that was not refused, the same step again is not refused and changes nothing |
| LegacyClaim.DoneStays | scripts/claim-legacy-user-data.ts:393-406 | no later step undoes that |
| LegacyClaim.ClaimTwiceIsClaimOnce | scripts/claim-legacy-user-data.ts:393-406 | applying twice gives the data and the verdict of applying once |
| LegacyClaim.ClaimSurvivesACrash | scripts/claim-legacy-user-data.ts:393-419 | killed after any number of statements and run again, the script ends exactly where an undisturbed run ends |
| LegacyClaim.ClaimSucceedsIff | scripts/claim-legacy-user-data.ts:393-403 | the claim goes through exactly when no table holds an unowned row whose unique value another unowned row or a row of the target shares |
| LegacyClaim.TwoUnownedAnswersAreNeverClaimed | prisma/schema.prisma:468-482 | two unowned answers to one question are legal rows, yet no run ever claims them |
| LegacyClaim.NothingIsLost | scripts/claim-legacy-user-data.ts:13-29 | after any number of steps, refused or killed: no row vanishes, at most one is new, nobody else's data changes, and no filled-in field or existing state is overwritten |
| LegacyClaim.KeptMeans | scripts/claim-legacy-user-data.ts:211-254 | a value that is there stays; a missing one is filled from the first legacy column that has one, and stays missing only if none has |
| LegacyClaim.FinishedTables | scripts/claim-legacy-user-data.ts:309-327 | after a finished claim every row has an owner, and one education entry is added exactly when the singleton names a school and the target neither had one nor claimed one |
| LegacyClaim.TablesInColumns | scripts/claim-legacy-user-data.ts:309-398 | after a finished claim the unowned rows of the fifteen tables are the target's and nothing else about a row has changed; the only new row is an education entry with each legacy value in its own column, added exactly when a school is named and the target had and claimed none |
| LegacyClaim.FinishedStatesAndSections | scripts/claim-legacy-user-data.ts:174-306 | after a finished claim every job carrying personal state has a tracker state, and the three per-account rows are the old ones with the gaps filled |
| LegacyClaim.TrackerInColumns | scripts/claim-legacy-user-data.ts:162-196 | after a finished claim every job with a status other than DISCOVERED, a score or an eligibility has a state of the target with that job's own three values, unless there was one, which stays; no other state is added |
| LegacyClaim.SectionsInColumns | scripts/claim-legacy-user-data.ts:214-306 | after a finished claim each column of the profile, the preferences and the sensitive answers holds what it held, or else the value of its own legacy column; no other column changes |
| LegacyClaim.SecondPassClaimsNothing | scripts/claim-legacy-user-data.ts:393-403 | after a finished claim nothing is left to claim |
| LegacyClaim.SoleOwnerStays | scripts/claim-legacy-user-data.ts:366-376 | the ambiguity check still passes after a run, finished or not, so a retry is not refused by it |
| TableCopy.InsertOnlyAdds | scripts/migrate-sqlite-to-postgres.ts:163 | `skipDuplicates`: a copy never changes or removes a row that is there, and adds only source rows under their own id |
| TableCopy.Destination.CreateMany | scripts/migrate-sqlite-to-postgres.ts:163 | one statement: all or nothing, refused exactly when a foreign key would dangle, and its count is the growth |
| TableCopy.Destination.CopyTable | scripts/migrate-sqlite-to-postgres.ts:157-166 | chunks of 500 give exactly one pass over the table; a refused copy leaves exactly the rows of the chunks before the first refused one; `written` is the growth |
| TableCopy.Destination.Migrate | scripts/migrate-sqlite-to-postgres.ts:134-169 | the whole copy succeeds exactly when one pass over all tables would leave no dangling reference; a refused copy leaves every earlier table and the chunks before the refused one; either way nothing dangles and total written is the growth |
| TableCopy.EarlierStatesWereClosed | scripts/migrate-sqlite-to-postgres.ts:134-166 | whatever point the copy has come to without a dangling reference, every state before it was free of them too, for finished and refused copies alike |
| TableCopy.ResumedCopyIsOneCopy | scripts/migrate-sqlite-to-postgres.ts:134-166 | stopped after any chunk, or any row, and run again, the copy ends where one undisturbed copy ends |
| TableCopy.RerunWritesNothing | scripts/migrate-sqlite-to-postgres.ts:134-166 | copying the same source again writes no row and changes none |
| TableCopy.CopiedIff | scripts/migrate-sqlite-to-postgres.ts:163 | a source row is in the destination afterwards exactly when its id was there or none of its unique values was; rows that go in are unchanged |
| TableCopy.CopyInColumns | scripts/migrate-sqlite-to-postgres.ts:134-166 | the destination afterwards has what it had, unchanged, and exactly the source rows whose id and unique values were not taken, as they are in the source |
| TableCopy.CopySucceedsIff | scripts/migrate-sqlite-to-postgres.ts:134-166 | the copy goes through exactly when no row it would write refers to a row kept out by a secondary unique value |
| TableCopy.CopySucceedsInColumns | scripts/migrate-sqlite-to-postgres.ts:134-166 | the same in columns: no row that goes in refers to a source row that is missing because a row of the destination has one of its unique values |
| TableCopy.EveryPrefixIsClosed | scripts/migrate-sqlite-to-postgres.ts:25-59 | when it goes through, no state between two chunks has a dangling reference |
| TableCopy.FreshCopyIsExact | scripts/migrate-sqlite-to-postgres.ts:134-166 | into an empty database the copy always goes through and reproduces the source exactly |
| TableCopy.AddressUnderAnotherIdStopsTheCopy | scripts/migrate-sqlite-to-postgres.ts:25-59 | an e-mail address that already exists under another id stops the copy at the first row referring to the old user |
| TableCopy.ListedParentsFirst | scripts/migrate-sqlite-to-postgres.ts:25-59 | the table list puts every parent of the schema's foreign keys before its children |
| FreshnessSlo.RankIsCeiling | scripts/measure-freshness-slo.ts:44 | the rank is between 1 and n and is the least whole number of elements making up the fraction |
| FreshnessSlo.PercentileBelowIff | scripts/measure-freshness-slo.ts:42-46 | the percentile is below a limit exactly when at least the rank's number of delays are |
| FreshnessSlo.PercentileIsNearestRank | scripts/measure-freshness-slo.ts:42-46 | at least the rank's number of delays are at most the percentile, and fewer are strictly below it |
| FreshnessSlo.PercentileIsMonotone | scripts/measure-freshness-slo.ts:142-143 | a larger fraction gives a percentile at least as large, so p50 is at most p90 |
| FreshnessSlo.SortSorts | scripts/measure-freshness-slo.ts:141 | sorting gives an ascending list with as many delays below every limit as before |
| FreshnessSlo.Measure | scripts/measure-freshness-slo.ts:104-157 | every posting is usable or negative; too few usable ones give no verdict; the verdict is "meets target" exactly when half the delays are under 15 minutes and nine tenths under an hour, rounded up |
| FreshnessSlo.SharesMetIff | scripts/measure-freshness-slo.ts:141-157 | the verdict's condition is the two shares over the postings: of those seen no earlier than posted, at least half within 15 minutes and at least nine tenths within an hour |
| FreshnessSlo.PercentileCutsOff | scripts/measure-freshness-slo.ts:42-46 | at least the fraction of the usable postings has a delay up to the percentile, and less than the fraction a shorter one |
| FreshnessSlo.MeetsTargetMeansTheShares | scripts/measure-freshness-slo.ts:144-156 | "meets target" implies the printed shares within 15 and 60 minutes are at least a half and nine tenths |

## Left out

- RepairRuns: takes the order in which the database lists the candidates as a parameter, because the query has none.
- RepairDuplicateRuns: one clock reading stands for the one taken per group; only `finishedAt` depends on it.
- PollOnce: does not model a database error or a crash between two calls; `WorkerProtocol` does.
- EveryClashWasMadeOutside: assumes of outsiders only that they move no run to another job, set none running and write
  no key the unique index refuses, and that at most one live worker holds the lock.
- StartRefusedOnlyAfterABreakingWrite: assumes that job ids have no colon, as generated ids have none; a breaking write
  need not lead to a refusal, since the job may have no active run left at the next start.
- InterruptedRepairKeepsSurvivors: where two runs of a job tie in stopped field and age, which of them is kept depends
  on the order the database lists them in.
- StartAfterScriptIff: assumes that before the script only active runs of a job held its id as key; with other holders
  the start may be refused with or without the script.
- RunningRunsWereClaimedByHolder: assumes that only a claim makes a run running and that at most one live worker holds
  the lock; the lock's own files, the heartbeat and the window between releasing the lock and exiting are not modelled.
- FinishedRunsStayFinished: assumes no outside write between the recovery read and write; `RevivalIff` is the statement
  without it.
- StatesMirrorFromTheStart: one clock reading stands for the result's creation time and the state row's `matchedAt`; a
  failed audit entry after the commit is not modelled, since the code ignores it.
- EachKeyOnceForEverybody: the first caller's domain and careers URL decide what a key gets; equality with an uncached
  call is not claimed.
- BudgetOvershootIsBounded: counts renders that returned a page and headless reads; launches that returned nothing are
  not charged by the code and not bounded here.
- ProbesAreCoalesced: assumes a clock that never goes back and excludes the test reset.
- FingerprintIdentifiesSchema: assumes distinct, non-empty names free of `:`, `,` and `|`, which generated names are.
- RolesStayBounded: process ids are whatever the system hands out; failed spawns and a lock file rewritten by somebody
  else are not modelled.
- Measure: fractions are rationals; the rounding of 0.9 times n in floating point is not modelled.
- ClaimSurvivesACrash: assumes nobody else writes these tables between the crash and the retry.
- What `processApplicationRun` does to its own row in the protocol: any number of writes that keep the job and either
  leave status and key alone, pause the run (keeping its key or setting the job's id), or end it as filled or failed
  without a key. In the methods of `ApplicationWorker` it is an arbitrary write.
- RecordStage: a read and then an update in the code (src/lib/applications/validation.ts:135-143), one step here, so
  two interleaved records that lose one of the two stages are not modelled.
- Liveness of the worker: an error after a successful claim strands the run until the next start, and a run that always
  throws stays at the head of the queue.
- The text of stage details, the stage history's JSON form, and the stopped-field columns besides the label.
- The wording of the fixed sentences of grounding: each is a template with its parameters.
- The regular expressions and case folding of grounding: named predicates over strings, over which every theorem
  quantifies; stop words, tokenizer, branch order and token counting are concrete.
- The content of network probes, crawls, renders and model calls: arbitrary results or failures.
- Value conversion while copying (`coerce`), reading the schema file, and dry runs of the copy: easy cases only.
- Argument parsing, account lookup, console output, the user interface, and the diagnostic scripts.
