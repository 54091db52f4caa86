# Verified model of the Common Build back end

A Dafny model of the logic by which the build system serialises builds per target branch, drives
jobs on an external executor, numbers releases, rewrites dependency files and names sprints, with
proofs of what every run of that logic keeps. `dafny verify dfyconfig.toml` checks all of it.

## How it is built

**Build queue.** `QueueScripts.QueueRedis` has the five Redis structures as fields and the three
Lua scripts as methods, command by command. Each method extends a ghost history of events and
keeps `Valid()`: the structures stand for the state in which a much simpler machine (`BuildQueue`:
which job waits in which slot, which job is active on which queue) is after that history. What is
promised of whole runs — conservation of jobs, service order, one build per queue, how many jobs
`start` hands out — is proved once, for all runs of the simple machine. `QueueStatus` adds the
status keys of `QueueImpl` and proves that, as long as pushed keys are new, statuses tell the truth
and follow the transition table, although `start` and `push` write them unchecked.

**Task queue and executor.** `TaskQueue` is a machine over traces in which any number of poppers
interleave their read and commit phases with upserts; `TaskQueueImplementation.TaskQueueImpl`
refines it. `JobRounds` is one job: rounds recover a state from the accumulated data, ask the
connector (arbitrary answers) and store at most one new state; `JobOutcomes` says what each round
answers, by what it found. `JobExecutor` and `JobDeliveries` join the two: in every interleaving,
what the task queue holds for a key is what that job's own run leads to. `JobReports` joins executor
and queue: reports arrive legally, the slot is freed when the job ends, and the status is its outcome.

**Release model.** `ReleaseModel` turns tags and branches into the sorted tree, `ModelReader` is
the reader, `ReleaseRuns` the runs of releases, new majors, patch branches and pushes, with the
model rebuilt before every step. `VersionTrie` is the independent trie of `VersionContainer`, and
the two answers to "highest version" are proved equal.

**Dependencies.** `DependencyFile` rewrites a dependencies file for any way of choosing revisions;
`DependencyScan` puts in the selectors, the version container and `parse`/`asString`.
`DependencyIndex` is the two-way index kept by set differences.

**Sprints.** `SprintCalendar` compares the sprint number with ISO 8601:2004 week dates (sections
2.2.10 and 4.1.4).

## Where the code differs from what it says

- `push` with a key that is still waiting or active cancels or aborts the job it has just queued
  (`QueueStatus.RepushCancelsItself`). Statuses stay true exactly when the key is not live
  (`PushKeepsCoupling`), histories stay legal exactly when it is new (`PushKeepsPaths`).
- A pop can deliver a uid before it is due (`TaskQueue.EarlyDelivery`). A delivered uid is due by the
  time of the pop's read exactly when it was not upserted between the two phases or the last such
  upsert set a time no later than that (`DeliveredOnTimeIff`).
- `getHighest` is not the maximum under `compare` for versions of mixed lengths
  (`VersionTrie.MixedLengthsCanMiss`). It finds that maximum exactly when no version within the bound
  is longer and shares all but its last segment (`HighestUnderCompare`).
- The condition at raw-data-to-model-converter.ts:24 assigns. It is modelled as written: every patch
  branch counts for its major and no minor ever has a branch (`ModelReader.MinorBranchesAreLost`).
- A selector that is to keep the major does so exactly when the container has it and otherwise falls
  to a lower one (`DependencyScan.KeepsMajorIff`, `KeepMajorCanFall`). The `INSTANCE` of
  `HighestMinorKeepMajorDependencySelector` is an object of another class; the claims here are about
  the classes.
- `update` of the dependency index reads outside its transaction, so of two updates of one source the
  second can leave it listed under a ref it does not want (`DependencyIndex.StaleReadCanMiss`), and an
  uninterrupted update need not repair that (`WrongUntilWanted`). In every run a source is listed under
  a ref exactly if the last commit that changed that added it (`ListedIffAdded`), which is right exactly
  when that agrees with the source's last commit (`RightIff`, `WrongIff`). The index is right throughout
  exactly when every commit is harmless (`AlwaysRightIff`), and it is for every source whose own updates
  do not overlap (`ApartIsRight`).
- A release is computed before it is published and tagged, on a model that may be cached, so two
  releases can get one version (`ReleaseRuns.StaleReleasesCollide`). `StaleReleaseIff` and
  `StaleMainReleaseIff` say exactly when the version still exceeds the others at the tag.
- The sprint number is not always increasing: it falls from 20 to 27 December 1999
  (`SprintCalendar.CalculateCanFall`). From one date to a later one it does not fall exactly when the
  first is not before 3 January 2000, both are in one week, or an ISO year ends between them
  (`CalculateIncreases`).
- Week 1 does not always start in January: 30 December 2024 is in sprint 2501
  (`SprintCalendar.WeekOneCanStartInDecember`). It does exactly when the year does not begin on a
  Tuesday, Wednesday or Thursday (`WeekOneStartsInJanuaryIff`).

## Model

| member | source | states |
|---|---|---|
| QueueScripts.QueueRedis.Enter | backend/lua/push.lua:13-18 | The ref joins its local queue or keeps its place; the superseded waiting job is the one reported; ready counts queue sizes afterwards |
| QueueScripts.QueueRedis.Interrupt | backend/lua/push.lua:19-26 | The active job is reported and its slot freed exactly when it is a job of the same ref |
| QueueScripts.QueueRedis.Push | backend/lua/push.lua:13-26 | All five structures stand for the machine's state after the push, with the reported cancel and abort, and the size is that of the local queue |
| QueueScripts.QueueRedis.PopFirst | backend/lua/start.lua:11-22 | Always finds a job: the latest of the first ref in (score, bytes) order; removes exactly that ref |
| QueueScripts.QueueRedis.TakeQueue | backend/lua/start.lua:10-23 | One take of the simple machine; the queue becomes active |
| QueueScripts.QueueRedis.TakeQueues | backend/lua/start.lua:25-27 | One job per queue listed, in that order, each an enabled take |
| QueueScripts.QueueRedis.Start | backend/lua/start.lua:6-32 | The call serves min(n, startable) queues, the least ones by (waiting refs, key), one job each; empty ready entries are gone |
| QueueScripts.QueueRedis.Complete | backend/lua/complete.lua:9-16 | The slot is freed exactly when the active job is the one given |
| QueueScripts.StructuresAgree | backend/lua/push.lua:13-26 | In every run: latest-job keys are the members of the local queues, ready scores their sizes, ready members the non-empty ones, active set and hashes agree, the active ref does not wait |
| QueueScripts.DiffIsStartable | backend/lua/start.lua:6-7 | ZDIFF lists exactly the non-empty inactive queues, scored by size |
| QueueScripts.PicksAreAStart | backend/lua/start.lua:6-27 | Serving the first of that list is serving the least startable queues, in order |
| BuildQueue.RunKeepsInvariant | backend/lua/push.lua:13-26 | In every run jobs sit in their own slot and queue, and the active ref is never also waiting |
| BuildQueue.PushReportsOne | backend/lua/push.lua:15-26 | No push in any run returns both a cancel and an abort; what it returns is a job of the pushed ref |
| BuildQueue.Conservation | backend/lua/push.lua:13-26 | After any run the pushes of every job equal waiting + active + cancelled + aborted + completed, and it is held at most once |
| BuildQueue.WaitingHistory | backend/lua/push.lua:13-15 | A waiting ref has the score of its first push and the job of its last push since it was last taken |
| BuildQueue.WaitsIffUnserved | backend/lua/start.lua:14-20 | A ref waits exactly when some push of it has not been followed by a take |
| BuildQueue.ServedIsLatest | backend/lua/start.lua:14-20 | The job handed out is the last one pushed for its ref |
| BuildQueue.ServedInOrder | backend/lua/start.lua:14-20 | The ref served has the least (first-push score, bytes) among all refs waiting on its queue |
| BuildQueue.OneAtATime | backend/lua/complete.lua:9-13 | Between two takes on one queue the earlier job was completed or reported aborted |
| BuildQueue.TakesAreARun | backend/lua/start.lua:25-27 | The takes of one start call extend the run they happen in |
| BuildQueue.TakesUseUpQueues | backend/lua/start.lua:10-27 | A start call takes from as many different startable queues as it hands out jobs and leaves exactly the others startable |
| BuildQueue.RepeatedStarts | backend/src/system/queue/queue-redis-impl.ts:39-51 | k calls of start(n) leave exactly max(0, startable - n*k) startable queues |
| SortedSets.PopMin | backend/lua/start.lua:14 | ZPOPMIN removes the member before all others in (score, bytes) order |
| SortedSets.Diff | backend/lua/start.lua:6 | ZDIFF lists every remaining member once, by score and then bytes |
| QueueStatus.PushKeepsCoupling | backend/src/system/queue/queue-impl.ts:64-71 | A push keeps "waiting is QUEUED, active is STARTING or STARTED, gone is terminal" if and only if its key is not live |
| QueueStatus.RepushCancelsItself | backend/src/system/queue/queue-impl.ts:64-71 | A waiting key pushed again ends CANCELLED while it waits |
| QueueStatus.PushKeepsPaths | backend/src/system/queue/queue-impl.ts:64-71 | A push keeps all status histories paths of the table if and only if its key is new |
| QueueStatus.StartsKeepAll | backend/src/system/queue/queue-impl.ts:57-63 | The unchecked STARTING writes of start keep statuses true and histories legal |
| QueueStatus.AddStateKeepsCoupling | backend/src/system/queue/queue-impl.ts:72-97 | addState keeps statuses true unless, and only unless, it moves a QUEUED job |
| QueueStatus.AddStateKeepsPaths | backend/src/system/queue/queue-impl.ts:72-97 | addState keeps every history a path of the table |
| QueueStatus.ReportedState | backend/src/system/queue/queue-impl.ts:72-97 | A state the build system reports is accepted only for the active job; a terminal one frees its queue and nothing else; a stale one changes nothing |
| QueueStatus.ActiveAccepts | backend/src/system/queue/queue-impl.ts:72-97 | In every run a job in STARTING accepts STARTED, ERROR, FAILURE, ABORTED, REBASED, CONFLICT, TIMEOUT and DEPENDENCY, one in STARTED exactly ERROR, FAILURE, ABORTED, SUCCESS and TIMEOUT; an accepted outcome is written and frees the slot, anything else changes nothing |
| QueueStatus.EndedJobFreesQueue | backend/src/system/queue/queue-impl.ts:72-86 | In every run a started job that is rebased, in conflict or ended otherwise leaves its queue startable if another ref waits there |
| QueueStatus.PushWrites | backend/src/system/queue/queue-impl.ts:64-71 | A push writes QUEUED to its new key, CANCELLED to the job it supersedes, ABORTED to the active job of its ref, and nothing else |
| QueueStatus.StateCallMeans | backend/src/system/queue/queue-impl.ts:72-97 | For every status before and every new state, whether addState accepts it, and what it leaves |
| QueueStatus.EveryRunIsCoupled | backend/src/system/queue/queue.ts:34-55 | In every run of push, start and addState with new keys, statuses are true and all histories are paths |
| QueueStatus.PathsIffNewKeys | backend/src/system/queue/queue-impl.ts:57-97 | In every run in which keys may repeat, all histories are paths of the table if and only if none did |
| QueueStatus.HeardIsLegal | backend/src/system/queue/queue-impl.ts:37-43 | In every such run each transition the listener hears of is QUEUED for a new job or a move of the table |
| QueueStatus.HeardIsWritten | backend/src/system/queue/queue-impl.ts:37-43 | Of each job the listener hears exactly the statuses that are written, in their order |
| QueueStatus.QueueImpl.StatusesAreTrue | backend/src/system/queue/queue-impl.ts:57-97 | The status keys of the implementation are true, and all histories paths, after any such calls |
| QueueStatus.QueueImpl.SetState | backend/src/system/queue/queue-impl.ts:30-48 | Writes the status to each key given, in order, and to no other; the listener hears of each with the status before |
| QueueStatus.QueueImpl.GetState | backend/src/system/queue/queue-impl.ts:49-55 | The last status written, if any |
| QueueStatus.QueueImpl.Start | backend/src/system/queue/queue-impl.ts:57-63 | One start call on the queue, STARTING written to exactly its jobs, and what the listener hears |
| QueueStatus.QueueImpl.Push | backend/src/system/queue/queue-impl.ts:64-71 | One push, QUEUED written to the job, ABORTED and CANCELLED to what the script reported, and what the listener hears |
| QueueStatus.QueueImpl.AddState | backend/src/system/queue/queue-impl.ts:72-97 | Rejected without effect for unknown jobs and illegal moves; resolves with whether the state is terminal |
| TaskQueue.RunKeepsInvariant | backend/src/task-queue/task-queue-impl.ts:32-78 | In every interleaving a uid is never both scheduled and handled, and everything read is one of the two |
| TaskQueue.ClaimedUids | backend/src/task-queue/task-queue-impl.ts:54-69 | A commit hands out exactly the uids it read that nobody had handled, with their data |
| TaskQueue.ClaimedOnce | backend/src/task-queue/task-queue-impl.ts:54-69 | No commit hands out a uid twice |
| TaskQueue.ClaimedInOrder | backend/src/task-queue/task-queue-impl.ts:60-69 | It hands them out in the order they were read |
| TaskQueue.OldestItems | backend/src/task-queue/task-queue-impl.ts:56 | The data of a uid are its oldest 1001 items |
| TaskQueue.EveryReadIsFirst | backend/src/task-queue/task-queue-impl.ts:52 | In every run a read finds min(maxCount, due) uids scheduled from 0 to until, in order of time and bytes, and none left out ranks before one of them |
| TaskQueue.DueIsDelivered | backend/src/task-queue/task-queue-impl.ts:47-78 | A due uid with fewer than maxCount due ones before it is read by the next pop, which delivers it unless another pop has in the meantime |
| TaskQueue.UidView | backend/src/task-queue/task-queue-impl.ts:32-78 | Upserts schedule a uid and make its item newest; a delivery needs it scheduled and unschedules it; other steps leave it alone |
| TaskQueue.ScheduledIffAwaiting | backend/src/task-queue/task-queue-impl.ts:32-78 | A uid is in the schedule exactly when some upsert of it has not been followed by a delivery |
| TaskQueue.DeliveredOncePerUpsert | backend/src/task-queue/task-queue-impl.ts:47-78 | Every delivery is preceded by an upsert with no delivery in between, whatever the poppers do |
| TaskQueue.PopDeliversIff | backend/src/task-queue/task-queue-impl.ts:47-78 | A pop delivers a uid if and only if it read it and, at the commit, some upsert of it is not yet followed by a delivery |
| TaskQueue.DeliveredOnTimeIff | backend/src/task-queue/task-queue-impl.ts:47-78 | A delivered uid is due by the time of the read if and only if it was not upserted between the phases, or last with a time no later |
| TaskQueue.PutOffTooLate | backend/src/task-queue/task-queue-impl.ts:36-58 | Whatever time an upsert sets for a uid a popper has read, that popper's commit can follow and deliver it |
| TaskQueue.EarlyDelivery | backend/src/task-queue/task-queue-impl.ts:36-58 | A run in which a uid put off to 100 is delivered by a pop that read at 5 |
| TaskQueueImplementation.AddNewest | backend/src/task-queue/task-queue-impl.ts:38 | ZADD with an increasing time makes the item the newest of the distinct items |
| TaskQueueImplementation.TaskQueueImpl.Upsert | backend/src/task-queue/task-queue-impl.ts:32-45 | The three structures follow one upsert of the machine |
| TaskQueueImplementation.TaskQueueImpl.ReadExpired | backend/src/task-queue/task-queue-impl.ts:52 | The read phase: as many uids due as maxCount allows, first by time and then bytes, and a read event |
| TaskQueueImplementation.TaskQueueImpl.Claim | backend/src/task-queue/task-queue-impl.ts:54-69 | Claims exactly the unhandled uids read, with their stored items |
| TaskQueueImplementation.TaskQueueImpl.CommitExpired | backend/src/task-queue/task-queue-impl.ts:53-74 | The commit phase as one event of the machine, and when more is to be expected |
| JobRounds.ItemsAreFew | backend/src/cynosure/job-executor/cynosure-job-executor.ts:20-43 | A job has at most 31+101+21+1 = 154 distinct data items, so the range read takes all |
| JobRounds.RecoversLastStored | backend/src/cynosure/job-executor/cynosure-job-executor.ts:121-133 | In every run the state a round recovers is the last one stored |
| JobRounds.RoundFollows | backend/src/cynosure/job-executor/cynosure-job-executor.ts:135-222 | A round stores only the same state with another failure count, or the next phase |
| JobRounds.RoundProgress | backend/src/cynosure/job-executor/cynosure-job-executor.ts:100-222 | An unaborted round makes one terminal call and stores nothing, or makes none and lowers the measure unless it polled a running activity |
| JobRounds.JobTerminates | backend/src/cynosure/job-executor/cynosure-job-executor.ts:100-222 | Without an abort, rounds that are not such polls number at most 153 + 20 per poll, and exactly one terminal call has been made once the job is no longer scheduled, none before |
| JobRounds.PhasesAdvance | backend/src/cynosure/job-executor/cynosure-job-executor.ts:135-222 | No step moves a job back to an earlier phase |
| JobRounds.AbortStays | backend/src/cynosure/job-executor/cynosure-job-executor.ts:247-251 | A stored abort stays in the job's data |
| JobRounds.AbortIsSticky | backend/src/cynosure/job-executor/cynosure-job-executor.ts:121-222 | After an abort, even one before startJob, no round calls startActivity, onJobStarted, onJobSuccess, onJobFailure or onJobAborted |
| JobRounds.AbortedRoundsAreFew | backend/src/cynosure/job-executor/cynosure-job-executor.ts:135-222 | After an abort at most 101 rounds follow, plus one per further abort and 31 if startJob is still to come |
| JobOutcomes.EveryRoundAnswers | backend/src/cynosure/job-executor/cynosure-job-executor.ts:115-227 | Each round of each run, by the state stored last, whether an abort was stored, and what the connector answered: which of the nine calls are made, which state is stored (starting exactly if startActivity answered true, started with the activity found, one more failure, or none), and in how many seconds it is looked at |
| JobOutcomes.CallsExactly | backend/src/cynosure/job-executor/cynosure-job-executor.ts:143-176 | A round calls onJobSuccess if and only if the job is started and not aborted and its activity finished with PASSED, onJobFailure for FAILED, onJobAborted for ABORTED or SKIPPED, onJobError for ERRORED, another verdict, no connector, or no retries left |
| JobOutcomes.ReportedExactly | backend/src/cynosure/job-executor/cynosure-job-executor.ts:143-176 | The same over whole runs: a run reports success if and only if some round of it found that, and so on |
| JobExecutor.StepView | backend/src/cynosure/job-executor/cynosure-job-executor.ts:115-230 | Each step of the executors is, for each key, one step of its job or none |
| JobExecutor.EveryJobRuns | backend/src/cynosure/job-executor/cynosure-job-executor.ts:97-251 | In every interleaving each key's steps form a run of the job machine, and the task queue holds what that run leads to |
| JobExecutor.StoreStaysSmall | backend/src/task-queue/task-queue-impl.ts:56 | In every run of the executors a key's data set has at most 154 members and yields the last state stored |
| JobExecutor.AbortedKeyStaysQuiet | backend/src/cynosure/job-executor/cynosure-job-executor.ts:115-251 | Once abortJob was called for a key, no entry any popper later delivers for it leads to anything but tag changes, abort calls, log lines or an error report |
| JobExecutor.EveryJobTerminates | backend/src/cynosure/job-executor/cynosure-job-executor.ts:97-251 | In every interleaving a key never aborted is delivered at most 153 + 21 per running poll times, and has had exactly one terminal call once started and no longer scheduled, none before |
| JobExecutor.AbortedKeyEnds | backend/src/cynosure/job-executor/cynosure-job-executor.ts:97-251 | In every interleaving an aborted key is delivered at most 101 times more, plus one per further abort and 31 for a start still to come |
| JobReports.ReportsAreLegal | backend/src/cynosure/job-executor/cynosure-job-executor.ts:100-222 | In every run without an abort each listener call is a legal move of the queue's table from STARTING on, and the job is terminal there exactly when it is no longer scheduled |
| JobReports.StatusFollows | backend/src/system/queue/queue-impl.ts:57-97 | Whatever else the queue is asked, the status of a started job that no push interrupts is the one its reports lead to |
| JobReports.SlotIsHeldWhileRunning | backend/src/system/build-system-impl.ts:65-88 | Every report of an unaborted job is accepted, and it holds the active slot of its queue exactly as long as its executor has something left to do |
| JobReports.FinalStatus | backend/src/cynosure/job-executor/cynosure-job-executor.ts:143-176 | The status an unaborted job's reports end in is the one its rounds found |
| JobReports.QueueShowsOutcome | backend/src/system/build-system-impl.ts:65-88 | Whatever else the queue is asked, it shows SUCCESS for such a job if and only if a round found PASSED, FAILURE for FAILED, ABORTED for ABORTED or SKIPPED, ERROR for the rest |
| JobDeliveries.EveryEntryIsAnswered | backend/src/cynosure/job-executor/cynosure-job-executor.ts:115-227 | In every run of the executors each entry delivered is answered in that way for what its job stored last and whether abortJob was called |
| JobDeliveries.ProcessCalls | backend/src/cynosure/job-executor/cynosure-job-executor.ts:115-234 | So are the calls process makes, entry by entry |
| JobDeliveries.DueAtOnce | backend/src/cynosure/job-executor/cynosure-job-executor.ts:242-251 | startJob and abortJob make the job due at the time they are called |
| JobDeliveries.DueAfterRound | backend/src/cynosure/job-executor/cynosure-job-executor.ts:100-222 | A job whose round stores a state is due that many seconds after the round |
| JobExecutor.CynosureJobExecutor.StartJob | backend/src/cynosure/job-executor/cynosure-job-executor.ts:242-246 | One upsert, due now; the job machine's start step for its key; recorded as a step |
| JobExecutor.CynosureJobExecutor.AbortJob | backend/src/cynosure/job-executor/cynosure-job-executor.ts:247-251 | One upsert, due now; the job machine's abort step for its key; recorded as a step |
| JobExecutor.CynosureJobExecutor.PopExpired | backend/src/cynosure/job-executor/cynosure-job-executor.ts:115 | A read of the first due uids, at most two, and its commit |
| JobExecutor.CynosureJobExecutor.FindState | backend/src/cynosure/job-executor/cynosure-job-executor.ts:121-131 | The newest state that satisfies the test |
| JobExecutor.CynosureJobExecutor.HandleError | backend/src/cynosure/job-executor/cynosure-job-executor.ts:100-112 | Stores one more failure while retries are left, with a log line every fifth time, else reports an error |
| JobExecutor.CynosureJobExecutor.HandleStarted | backend/src/cynosure/job-executor/cynosure-job-executor.ts:135-178 | The round of a started job |
| JobExecutor.CynosureJobExecutor.HandleStarting | backend/src/cynosure/job-executor/cynosure-job-executor.ts:179-197 | The round of a starting job |
| JobExecutor.CynosureJobExecutor.HandleQueued | backend/src/cynosure/job-executor/cynosure-job-executor.ts:198-222 | The round of a queued job |
| JobExecutor.CynosureJobExecutor.HandleEntry | backend/src/cynosure/job-executor/cynosure-job-executor.ts:117-227 | The branches over the states found make the calls of the round and store its state, due after the configured wait |
| JobExecutor.CynosureJobExecutor.HandleEntries | backend/src/cynosure/job-executor/cynosure-job-executor.ts:117-228 | The rounds of all delivered entries, with their calls |
| JobExecutor.CynosureJobExecutor.Process | backend/src/cynosure/job-executor/cynosure-job-executor.ts:115-234 | A read step and a step of rounds, with the calls of the rounds, and a direct rescan exactly if a uid was lost or two were read |
| Versions.Compare | backend/src/domain-model/version.ts:51-67 | The loop computes the first difference, else the difference in length |
| Versions.CompareIsLexicographic | backend/src/domain-model/version.ts:51-67 | compare decides the lexicographic order; 0 exactly for equal versions |
| Versions.CompareIsTotalOrder | backend/src/domain-model/version.ts:51-67 | compare is total, antisymmetric and transitive |
| Versions.ParseOfAsString | backend/src/domain-model/version.ts:26-44 | Every version reads back from its text |
| Versions.NatTextIsPlain | backend/src/domain-model/version.ts:42-44 | A segment is written in decimal digits without leading zeros |
| Versions.AsStringIs | backend/src/domain-model/version.ts:42-44 | The text of a version is its segments' texts between dots |
| Versions.JoinOfSplit | backend/src/domain-model/version.ts:28 | A text is determined by its parts between dots |
| Versions.WrittenVersions | backend/src/domain-model/version.ts:42-44 | 1.10.0 and 0.-2 are written so |
| Versions.ParseIff | backend/src/domain-model/version.ts:26-40 | A text is a version if and only if it has a dot and a number starts each part; the numbers are the segments |
| Versions.SpacesAre | backend/src/domain-model/version.ts:31 | The white space parseInt skips, by code point |
| Versions.HexRead | backend/src/domain-model/version.ts:31 | After 0x or 0X a number is read in hexadecimal digits, and none without one |
| Versions.DigitsAre | backend/src/domain-model/version.ts:31 | The digit characters and their values |
| Versions.DigitsRead | backend/src/domain-model/version.ts:31-35 | A number is read from the digits at the start whatever follows, and none without a digit |
| Versions.SignedReads | backend/src/domain-model/version.ts:31-35 | White space and one sign before them are read over |
| VersionTrie.AddStores | backend/src/repositories/scanner/version-container.ts:72-89 | add stores exactly one more version |
| VersionTrie.AddCounts | backend/src/repositories/scanner/version-container.ts:50-89 | size grows by one exactly for a new version |
| VersionTrie.VersionContainer.FromVersions | backend/src/repositories/scanner/version-container.ts:9-15 | The trie after adding all versions in order |
| VersionTrie.ContainerHolds | backend/src/repositories/scanner/version-container.ts:9-15 | A container holds exactly the versions of its list |
| VersionTrie.SizeIsDistinctCount | backend/src/repositories/scanner/version-container.ts:50-55 | size is the number of distinct versions |
| VersionTrie.GetHighestIsPreferred | backend/src/repositories/scanner/version-container.ts:57-70 | getHighest answers whenever a version is within the bound, with a stored one, preferred to all others there |
| VersionTrie.HighestUnderCompare | backend/src/repositories/scanner/version-container.ts:63-70 | It finds the maximum under compare if and only if no version within the bound is longer and shares all but the last segment of that maximum |
| VersionTrie.MaximumExists | backend/src/domain-model/version.ts:51-67 | There is such a maximum exactly when some version is within the bound |
| VersionTrie.HighestOfEqualLength | backend/src/repositories/scanner/version-container.ts:57-70 | For versions of one length it is the maximum under compare |
| VersionTrie.MixedLengthsCanMiss | backend/src/repositories/scanner/version-container.ts:63-70 | Of 1.5 and 1.2.0 it picks 1.2.0 |
| ReleaseModel.ConvertModel | backend/src/repositories/repository/raw-data-to-model-converter.ts:9-56 | The three loops compute the specified model |
| ReleaseModel.CollectMeans | backend/src/repositories/repository/raw-data-to-model-converter.ts:19-35 | There is a major for exactly the mentioned ones, with the start and branch of the last such ref |
| ReleaseModel.CollectLookup | backend/src/repositories/repository/raw-data-to-model-converter.ts:30-35 | Releases are the three-number tags, the last of equal ones winning |
| ModelReader.ConvertIsSorted | backend/src/repositories/repository/raw-data-to-model-converter.ts:36-127 | Every converted model is sorted on three levels, without repetitions or empty minors |
| ModelReader.VersionShaIsLastTag | backend/src/repositories/repository/repository-model-reader.ts:227-242 | versionSha answers with the last tag of a version, and only for tagged ones |
| ModelReader.MinorBranchesAreLost | backend/src/repositories/repository/raw-data-to-model-converter.ts:22-29 | findBranch with a minor finds nothing in any converted model |
| ModelReader.ListedIffKnown | backend/src/repositories/repository/repository-model-reader.ts:25-34 | allVersions lists exactly the versions versionSha knows |
| ModelReader.AllVersionsDescend | backend/src/repositories/repository/repository-model-reader.ts:25-34 | It lists them from the highest to the lowest, each once |
| ModelReader.HighestVersionIsMaximum | backend/src/repositories/repository/repository-model-reader.ts:211-226 | highestVersion is the compare-maximum of the versions with major within the bound, undefined only if there are none |
| ModelReader.HighestVersionsAgree | backend/src/repositories/repository/repository-model-reader.ts:211-226 | highestVersion equals getHighest of a VersionContainer built from allVersions |
| ModelReader.NextVersionFits | backend/src/repositories/repository/repository-model-reader.ts:87-127 | From main the next version exceeds all; from a patch branch it exceeds its own and earlier majors and stays below later ones |
| ModelReader.ShasAgree | backend/src/repositories/repository/repository-model-reader.ts:131-210 | In every model the read sha and the write branch's sha agree, and for a branchless major with the next major's start |
| ReleaseRuns.TaggedIffListed | backend/src/repositories/repository/repository-model-reader.ts:25-34 | A three-number tag exists exactly when allVersions of the rebuilt model lists it |
| ReleaseRuns.ReleaseFits | backend/src/system/build-system-impl.ts:198-216 | A release is new and takes its place in the order of all tagged versions |
| ReleaseRuns.NoVersionTwice | backend/src/system/build-system-impl.ts:198-216 | Over every run of releases each computed on the current model, no version is issued twice or was tagged before, and the final tags are the old and the issued ones |
| ReleaseRuns.NextFollows | backend/src/repositories/repository/repository-model-reader.ts:90-106 | The next version of a major with tagged versions succeeds one of them; of one without it is M.0.0 |
| ReleaseRuns.NextVersionIff | backend/src/repositories/repository/repository-model-reader.ts:108-126 | The next version exists if and only if the branch is main, or patch-m with m mentioned by some ref and below the highest major mentioned; it is of the highest major, or of m |
| ReleaseRuns.NextVersionIs | backend/src/repositories/repository/repository-model-reader.ts:90-106 | It is the next minor or the next patch of the highest tagged version of that major, and M.0.0 if there is none |
| ReleaseRuns.FoundIffMentioned | backend/src/repositories/repository/repository-model-reader.ts:44-50 | There is a container for exactly the majors mentioned and for main, which is the highest, with the start and branch of the last such refs |
| ReleaseRuns.HighestResolves | backend/src/repositories/repository/repository-model-reader.ts:51-210 | The highest major is read from, written to and found on the tip of main, and has no next one |
| ReleaseRuns.LowerResolves | backend/src/repositories/repository/repository-model-reader.ts:51-210 | Every lower major mentioned is read from and written to on its branch or, without one, the start of the next major mentioned |
| ReleaseRuns.UnmentionedIsUnresolved | backend/src/repositories/repository/repository-model-reader.ts:51-210 | Any other major resolves to nothing |
| ReleaseRuns.StaleReleaseIff | backend/src/system/build-system-impl.ts:198-216 | A version computed some steps before its tag still exceeds all of its major if and only if none of those steps released that major or, for a minor release of a major with versions, they were all patch releases |
| ReleaseRuns.StaleMainReleaseIff | backend/src/system/build-system-impl.ts:198-216 | For main it still exceeds all versions if and only if, besides, none of them released a later major |
| ReleaseRuns.StaleReleasesCollide | backend/src/system/build-system-impl.ts:198-216 | The version a second minor release got from the same model is tagged by the first |
| ReleaseRuns.AnchoredResolves | backend/src/repositories/repository/repository-model-reader.ts:131-210 | A branchless major reads from and is to be written from the start of the next mentioned major |
| ReleaseRuns.AnchorHolds | backend/src/repositories/majors/major-application-service.ts:45-78 | No step but creating its branch changes that |
| ReleaseRuns.PreviousMajorStays | backend/src/repositories/majors/major-application-service.ts:52-58 | After a major is opened at commit s, the previous one resolves to s in every later state until its branch is created |
| ReleaseRuns.BranchStartsThere | backend/src/router/admin/admin-repository-router-factory.ts:98-108 | Creating the branch then succeeds and starts it at s |
| ReleaseRuns.Repository.ReadNext | backend/src/system/build-system-impl.ts:200-201 | The next version by the model read |
| ReleaseRuns.Repository.TagRelease | backend/src/system/build-system-impl.ts:213 | Adds the tag and nothing else |
| ReleaseRuns.Repository.Release | backend/src/system/build-system-impl.ts:198-216 | With nothing in between: rejected without a change exactly if the branch is neither main nor that of a lower major mentioned, or publishing or tagging fails; else tags the next version and changes nothing else |
| ReleaseRuns.Repository.ProcessSource | backend/src/repositories/majors/major-application-service.ts:45-78 | For each answer of the outside calls, exactly when which action is answered, and a major tag on the tip of main exactly for CREATED |
| DependencyScan.HighestWithinItself | backend/src/repositories/scanner/version-container.ts:57-70 | The highest version within a bound is the highest within its own major |
| DependencyScan.PickIsStable | backend/src/repositories/scanner/dependency-lookup.ts:33-73 | Every selector class, given what it picked, picks it again |
| DependencyScan.PicksInMajorOrHighest | backend/src/repositories/scanner/dependency-lookup.ts:33-42 | In the target series it picks the best version up to the target major, otherwise the best of all: one exists if any is admissible, it beats all others, and is the compare-maximum of its length |
| DependencyScan.PicksInMajorOrKeepMajor | backend/src/repositories/scanner/dependency-lookup.ts:44-53 | In the target series the best version up to the target major, otherwise up to the current one |
| DependencyScan.PicksHighest | backend/src/repositories/scanner/dependency-lookup.ts:58-63 | The best of all versions |
| DependencyScan.PicksMinorOfMajor | backend/src/repositories/scanner/dependency-lookup.ts:68-73 | The best version up to the current major |
| DependencyScan.BestIsUnique | backend/src/repositories/scanner/dependency-lookup.ts:33-73 | Only one version is the best, so these say which is picked |
| DependencyScan.KeepsMajorIff | backend/src/repositories/scanner/dependency-lookup.ts:44-73 | For both selectors that keep majors: the major is kept if and only if the container has it; otherwise a lower one is picked, or none |
| DependencyScan.KeepMajorCanFall | backend/src/repositories/scanner/dependency-lookup.ts:68-73 | With only 1.0 published, 2.0 becomes 1.0 |
| DependencyScan.ReplacedIff | backend/src/repositories/scanner/providers/dependencies-yaml-scanner-provider.ts:95-107 | A revision is replaced exactly when it parses and another version is selected; the new text parses to that version |
| DependencyScan.UpdatersSettle | backend/src/repositories/scanner/providers/dependencies-yaml-scanner-provider.ts:95-107 | Nothing replaces a replacement |
| DependencyFile.ScanArtifacts | backend/src/repositories/scanner/providers/dependencies-yaml-scanner-provider.ts:84-114 | The artifacts after the loop, their references, and no counted change exactly when nothing changed |
| DependencyFile.ScanImages | backend/src/repositories/scanner/providers/dependencies-yaml-scanner-provider.ts:115-143 | The same for images |
| DependencyFile.ScanLabel | backend/src/repositories/scanner/providers/dependencies-yaml-scanner-provider.ts:80-157 | An update exactly when the rewritten file differs |
| DependencyFile.AllLabels | backend/src/repositories/scanner/providers/dependencies-yaml-scanner-provider.ts:61-75 | Exactly the labels some item carries |
| DependencyFile.RelevantAre | backend/src/repositories/scanner/label-criteria.ts:12-32 | The labels scanned are those there are, without the excluded ones or only the included ones |
| DependencyFile.LabelsMean | backend/src/utils/string-util.ts:10-13 | The labels of an item are the words of its text between white space and commas, and `default` alone if it has none |
| DependencyFile.RefsMean | backend/src/repositories/scanner/providers/dependencies-yaml-scanner-provider.ts:90-93 | An item's own remote and repository go before the file's, and it has no reference if one is missing in both |
| DependencyFile.RefsAre | backend/src/repositories/scanner/providers/dependencies-yaml-scanner-provider.ts:88-94 | The references collected for a label are those of the items carrying it |
| DependencyFile.UpdatesAre | backend/src/repositories/scanner/providers/dependencies-yaml-scanner-provider.ts:80-159 | The updates are the rewritten files, for the relevant labels for which they differ |
| DependencyFile.RewritesCommute | backend/src/repositories/scanner/providers/dependencies-yaml-scanner-provider.ts:80-159 | Updates for two labels give the same file in either order; a second one for the same label changes nothing |
| DependencyFile.AppliedSettles | backend/src/repositories/scanner/providers/dependencies-yaml-scanner-provider.ts:80-159 | After updates for several labels, none of them has anything left to change |
| DependencyScan.Scan | backend/src/repositories/scanner/providers/dependencies-yaml-scanner-provider.ts:58-166 | One update for each wanted, carried label whose rewritten file differs, and no other; each dependency of such a label once |
| DependencyScan.ArtifactRevisedRightly | backend/src/repositories/scanner/providers/dependencies-yaml-scanner-provider.ts:86-112 | In an update each artifact that carries the label and whose reference is published has the text of exactly the version picked, if its revision reads as another one; every other one has its own |
| DependencyScan.ImageRevisedRightly | backend/src/repositories/scanner/providers/dependencies-yaml-scanner-provider.ts:117-141 | The same for images |
| DependencyScan.UpdatesSettle | backend/src/repositories/scanner/providers/dependencies-yaml-scanner-provider.ts:80-159 | An update for a label changes only revisions of items carrying it, at least one, and scanning its result yields none for that label |
| DependencyScan.ScansSettle | backend/src/repositories/scanner/providers/dependencies-yaml-scanner-provider.ts:80-159 | After the updates for some labels, in any order, scanning for any of them yields nothing |
| DependencyIndex.DependencyStorage.ReadExisting | backend/src/repositories/dependency-manager/dependency-storage-impl.ts:33-35 | The refs of the source's last commit so far |
| DependencyIndex.DependencyStorage.CommitUpdate | backend/src/repositories/dependency-manager/dependency-storage-impl.ts:36-50 | Whatever was committed since its read, the source's refs are the new ones, and each source stays listed under exactly the refs its commits say |
| DependencyIndex.DependencyStorage.Update | backend/src/repositories/dependency-manager/dependency-storage-impl.ts:30-52 | The same with nothing between read and transaction, on any index earlier commits left |
| DependencyIndex.DependencyStorage.Lookup | backend/src/repositories/dependency-manager/dependency-storage-impl.ts:14-29 | Without repetitions, exactly the sources listed under one of the refs |
| DependencyIndex.BackwardAfter | backend/src/repositories/dependency-manager/dependency-storage-impl.ts:36-49 | Adding and removing the two differences against what was read brings the listing to that of the extended run |
| DependencyIndex.ListedIffAdded | backend/src/repositories/dependency-manager/dependency-storage-impl.ts:36-49 | In every run a source is listed under a ref if and only if its last commit with the ref in exactly one of what it read and wrote has written it |
| DependencyIndex.RightIff | backend/src/repositories/dependency-manager/dependency-storage-impl.ts:30-52 | A listing is right if and only if that commit and the last commit of the source agree on the ref |
| DependencyIndex.WrongIff | backend/src/repositories/dependency-manager/dependency-storage-impl.ts:30-52 | It is wrong if and only if the last commit of the source left the listing alone after reading something else than was listed by then |
| DependencyIndex.CommitKeepsRight | backend/src/repositories/dependency-manager/dependency-storage-impl.ts:33-49 | A commit keeps a right index right if and only if refs that came since its read are wanted and wanted ones it read are still there |
| DependencyIndex.AlwaysRightIff | backend/src/repositories/dependency-manager/dependency-storage-impl.ts:30-52 | The index is right after every commit of a run if and only if every commit is harmless in that way |
| DependencyIndex.ApartIsRight | backend/src/repositories/dependency-manager/dependency-storage-impl.ts:30-52 | A source whose own updates do not overlap is listed under exactly the refs of its latest update after every commit, whatever other sources do |
| DependencyIndex.LookupIsRight | backend/src/repositories/dependency-manager/dependency-storage-impl.ts:14-52 | For such a source, lookup(refs) finds it exactly if its latest update meets refs |
| DependencyIndex.StaleReadCanMiss | backend/src/repositories/dependency-manager/dependency-storage-impl.ts:33-50 | Two overlapping updates, carried out: lookup still finds the source under the ref the second dropped |
| DependencyIndex.WrongUntilWanted | backend/src/repositories/dependency-manager/dependency-storage-impl.ts:30-52 | An uninterrupted update to another ref leaves that so; one to the ref makes it right again |
| SprintCalendar.MonthStarts | backend/src/repositories/majors/weekly-sprint-calulator.ts:12-14 | How many days of a year precede each month |
| SprintCalendar.FirstDayIs | backend/src/repositories/majors/weekly-sprint-calulator.ts:12 | The 1st of January by the Gregorian rule for leap years |
| SprintCalendar.WeekOfFourthOfJanuary | backend/src/repositories/majors/weekly-sprint-calulator.ts:13 | The week of 4 January is week 1 of its year |
| SprintCalendar.NextWeek | backend/src/repositories/majors/weekly-sprint-calulator.ts:13 | Each week is followed by the next one of its year or by week 1 of the next |
| SprintCalendar.DaysOfWeek | backend/src/repositories/majors/weekly-sprint-calulator.ts:13 | Monday to Sunday are one week |
| SprintCalendar.RealYearIsIsoYear | backend/src/repositories/majors/weekly-sprint-calulator.ts:16-17 | The correction by week and month yields the ISO year for every date |
| SprintCalendar.CalculateIsSprint | backend/src/repositories/majors/weekly-sprint-calulator.ts:10-19 | calculate is 100*(ISO year - 2000) + ISO week if and only if the date is not before 3 January 2000 |
| SprintCalendar.CalculateIncreases | backend/src/repositories/majors/weekly-sprint-calulator.ts:4-19 | From one date to a later one it does not fall if and only if the first is not before 3 January 2000, both are in one week, or an ISO year ends between them |
| SprintCalendar.SameSprintIffSameWeek | backend/src/repositories/majors/weekly-sprint-calulator.ts:10-19 | Any two dates have the same number if and only if they are in one ISO week |
| SprintCalendar.CalculateCanFall | backend/src/repositories/majors/weekly-sprint-calulator.ts:17-18 | 20 December 1999 has -151, 27 December 1999 has -152 |
| SprintCalendar.WeekOneCanStartInDecember | backend/src/repositories/majors/weekly-sprint-calulator.ts:7-17 | Monday, 30 December 2024, has 2501 |
| SprintCalendar.WeekOneInDecemberIff | backend/src/repositories/majors/weekly-sprint-calulator.ts:16-17 | A December date is in week 1 if and only if the next year begins on a Tuesday, Wednesday or Thursday and the date is in that week |
| SprintCalendar.WeekOneStartsInJanuaryIff | backend/src/repositories/majors/weekly-sprint-calulator.ts:7 | Week 1 starts in January if and only if its year does not begin on one of those days |

## Left out

- Redis: key layout, serialisation, TTLs, expiry and server failures; byte strings are represented by their rank in byte order, so identity and order are kept.
- Interleaving inside one `QueueImpl` call: each call, and each script, is one step.
- `unpack` in start.lua with more results than Lua's stack holds.
- Executor rounds are atomic and storing a state never fails; `startJob` is called once per key; data scores are strictly increasing times. Interleaving is modelled at the task queue.
- `AbortJob` in STARTED has no catch in the source, so no claim is made that polling goes on after a failed abort there; timers, shutdown and a missing listener are not modelled.
- `BuildSystemImpl` beyond the states it reports and the release step: its SUCCESS branch does not start the next job, and nothing here says that it does. What publishing does to binaries is left out, so nothing is said of a version published again after its tag could not be created.
- `ReleaseModel`: the mutable builder objects are values in maps, which loses only their identity; refs are taken as parsed names (`NormalizedModelUtil` and its patterns are not modelled).
- `VersionTrie.Add`: the nested arrays are values, so updating in place is not captured; serialisation is left out.
- Numbers are unbounded integers; JavaScript's loss of precision above 2^53 is not modelled.
- `ModelReader.HighestVersionsAgree`: without a bound, for majors up to `Number.MAX_SAFE_INTEGER`, where the query itself stops.
- `DependencyScan.Scan`: items are rewritten one after the other, each touching only itself; a lookup that fails is a missing entry; the update's content is the configuration, not its YAML text; references are values, not their serialised form.
- `getDependencies`, the other scanner providers, `getGraphTrees` (no bound on cycles) and the return value of `MajorsServiceImpl.addValue`.
- `SprintCalendar.Calculate`: time zones; a date is a local calendar day.
- HTTP, SSH, Gerrit, Artifactory, Docker registry, Vault, routers, YAML, XML and JSON codecs, logging, label and configuration utilities, and the front end.
