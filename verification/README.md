# A model of the job controller

The job controller runs long computations in worker containers, checkpoints them and resumes them after crashes of
workers or of itself. This project models the parts its promises rest on. Proved for every run of the model: whenever a
job is completed, its state file is byte-identical to the one of an undisturbed run, whatever crashed before; and at
every moment, exactly which jobs can still get there. That every job gets there after any mix of crashes is not true of
the code, and the findings below say when it does not.

| file | what it models |
|---|---|
| `Words.dfy` | u64 values with explicit wrap-around, bytes, little-endian numbers |
| `Registers.dfy` | 64-bit registers as bit-vectors, splitmix64 with its laws and known values |
| `Crc32.dfy` | the reflected CRC-32, bit by bit and table-driven |
| `Checkpoint.dfy` | the primes state file: Go codec and C++ codec |
| `Primes.dfy`, `Sieve.dfy` | trial division and the resumable sieve |
| `MatMul.dfy`, `WordCount.dfy` | the two other workers with their state files |
| `Workers.dfy`, `Runners.dfy` | dispatch, the checkpointing loop, crash histories; the loops as in-place code |
| `Store.dfy` | rows, event log and state machine |
| `Pagination.dfy`, `ChangingStates.dfy` | the cursor listing; the unfiltered one while jobs change state |
| `Recovery.dfy` | the start-up scan |
| `JobSystem.dfy`, `Guarantees.dfy` | workers, disk, containers, supervisor, crashes and recovery as one transition system, and what holds in all its runs |
| `Runs.dfy`, `Failures.dfy` | extending runs: which jobs can still complete; how jobs are lost, with runs that get there |
| `Reports.dfy`, `LoopLogs.dfy` | what log lines and row columns report in every run; that a worker's log is that of the checkpointing loop |
| `SystemLog.dfy` | the store operations behind each event of a run, and the replay of their log |
| `Lease.dfy`, `Election.dfy` | lockers and leader election as a timed transition system |
| `Resp.dfy` | the Redis wire framing |

## How to read it

Numbers of the source's unsigned 64-bit type are naturals below 2^64, and `Wrap` is written wherever an operation can
exceed that range. The CRC register and its table are bit-vectors. Every state a worker can be in has a closed form
(`At`), `OnTrack` says that a state has that form, and each loop body is proved to keep it; everything about crashes is
then a statement about files that are renderings of on-track states.

A run of the whole system (`JobSystem.Execution`) is any interleaving, over any number of jobs, of worker steps down to
single partial writes, kills, write errors, log lines read or skipped, log streams that end or break, cancellations,
controller crashes, restarts with their scan, and launches. A worker is started only where the code does it: by the
request that created the job, and by the scan for an interrupted_resumable row. Built into its steps are these
assumptions: a store transaction is atomic, starting a container and recording it is one step, the container listing of a
scan succeeds, a killed process ends with a code of at least 128, and a graceful shutdown marks a job interrupted only
once its worker is gone. That at most one worker of a job is alive is proved, not assumed; `Failures.FailedListingReachable` shows with a
run that the assumption on the listing is needed for it. Every supported job has a run that completes it
(`Runs.EveryJobCanComplete`), so the statements about completed jobs are not empty.

Findings about the code, each with its exact condition:

- `is_prime_trial` lets `i * i` wrap, but it is right for every u64: composites are caught before the wrap, and the
  wrapped guard stops the loop for primes because -7 has an odd square root modulo 2^64 (`Primes.IsPrimeTrial`).
  Its squares stay exact for every n below (2^32 - 1)^2, and wrap exactly for larger n without an odd divisor below
  2^32 (`Primes.SquareWrapsIff`).
- `run_sieve` ends, from any state, if and only if the limit is not 2^64 - 1 (`Sieve.StopsIff`).
- The matrix worker visits all cells if and only if n < 2^32 (`MatMul.CoversMatrixIff`).
- The comment on the word-count corpus says that position idx holds splitmix(seed + idx); the code draws from
  seed xor idx times a constant. Either way no two positions share a draw (`WordCount.DrawInjective`).
- Re-encoding a parsed file gives the same bytes if and only if its flag byte is 0 or 1 (`Checkpoint.RenderParse`);
  every flag byte above 1 occurs in an accepted file that is not reproduced (`Checkpoint.ForeignFlag`).
- The Go reader accepts exactly what the C++ reader accepts with a ring that fills the body
  (`Checkpoint.ReadersAgree`). The C++ reader does not make that length check.
- The Redis locker rounds the lease time down to whole seconds, so a lease time above one second is granted in full if
  and only if it is a whole number of seconds (`Lease.TtlHonouredIff`, `Lease.FractionalTtlExpiresEarly`). The
  comment that both lockers behave alike holds exactly under the conditions of `Lease.LockersAgreeIff`; a second acquire
  by the holder is one exception.
- A stopping leader releases the lease before it clears its flag, so leadership is exclusive among electors that are
  not shutting down (`Election.AtMostOneLeader`); a run with two flags up exists for both lockers and all lease times
  (`Election.OverlapReachable`).
- Following cursors collects every matching job if and only if no page boundary of the full listing separates two jobs
  created at the same instant, for every page size and however each query orders ties (`Pagination.PagesCompleteIff`).
  Distinct creation times of the matching jobs are sufficient (`Pagination.PagesAddUp`).
- Which jobs can still complete, at any moment with the controller up or down (`Runs.RecoverableIff`): completed ones;
  pending ones whose creating request has yet to start them; resumable ones; and running ones with a recorded
  checkpoint, a live worker, or a reader (attached or about to be) that will still find exit code 0, the completion line
  or a decodable checkpoint line. All others are lost for good.
- A comment in the create handler and the architecture document say that the next recovery scan picks up a pending job.
  It does not: a job that is pending when the controller dies, or that was created at a controller without the lead, is
  never started (`Failures.PendingAtCrash`, `Failures.OrphanedByCrash`, `Failures.OrphanedByFollower`).
- A worker killed while the controller watches it loses its job although checkpoint and file are good: when its log
  ends, the job can complete if and only if the exit code is 0 or the completion line was read, and is failed otherwise
  (`Failures.WatchedDeathIff`). A graceful shutdown stops its workers in the same way, so the interruption mark that its
  comment promises comes too late (`Failures.KillLoses`). Every job has such a run with its complete result on disk
  (`Failures.FinishedButFailed`), and one with a recorded checkpoint exists (`Failures.CheckpointedButFailed`).
- The package comment of the recovery scan says that work is lost only if nothing was persisted. The scan gives a job up
  if and only if no checkpoint line of it was read, decoded and stored (`Failures.GivenUpIff`); every job has a run in
  which it is given up with its complete result on disk (`Failures.FinishedButUnresumable`).
- A listing error at start-up is taken for an empty listing. That puts two live workers on one file if and only if the
  scan launches, the row is running with a recorded checkpoint and a worker is alive
  (`Guarantees.FailedListingDoublesIff`), and a run gets there (`Failures.FailedListingReachable`).
- Replaying the event log gives the state and the audited columns whatever columns the callers set
  (`Store.ReplayReproducesRow`). A transition makes the replayed checkpoint path wrong if and only if its setters change
  that column (`Store.PathFollowedIff`), which no caller does (`SystemLog.RunReplays`).

## Model

| member | source | states |
|---|---|---|
| `Words.Put` | worker/src/checkpoint.cpp:46-51 | the shift-and-truncate loop appends the base-256 digits of the value, least significant first |
| `Words.Get` | worker/src/checkpoint.cpp:56-60 | the shift-and-add loop computes the value of the digits |
| `Crc32.BuildTable` | worker/src/checkpoint.cpp:20-28 | every entry is eight single-bit steps of its index |
| `Crc32.Compute` | worker/src/checkpoint.cpp:29-35 | the table-driven loop returns the bit-by-bit checksum of every input |
| `Crc32.SealedIffResidue` | worker/src/checkpoint.cpp:121-126 | a file passes the trailer comparison exactly when the register over body and trailer ends in one fixed word |
| `Crc32.BurstRejected` | worker/src/checkpoint.cpp:121-126 | any change inside four consecutive bytes of an accepted file, trailer and boundary included, breaks the comparison |
| `Registers.SplitMixInjective` | worker/src/matmul.cpp:20-26 | different generator states give different draws |
| `Registers.KnownDraw` | worker/src/matmul.cpp:20-26 | the first draw from state 0 is the published one |
| `Checkpoint.Encode` | internal/checkpoint/checkpoint.go:107-139 | refuses exactly rings above 32 entries, otherwise returns the rendered file |
| `Checkpoint.ParseBuffer` | internal/checkpoint/checkpoint.go:60-103 | total on all buffers, with the error of the first failing check in the code's order |
| `Checkpoint.ParseRender` | internal/checkpoint/checkpoint.go:58-139 | parsing a rendered state returns that state if and only if its ring has at most 32 entries |
| `Checkpoint.RenderParse` | internal/checkpoint/checkpoint.go:84-138 | for every accepted buffer, rendering the parsed state gives the buffer back exactly when byte 32 is 0 or 1 |
| `Checkpoint.ForeignFlag` | internal/checkpoint/checkpoint.go:84-88 | for every state and every flag byte above 1 there is an accepted file with that byte which re-encoding does not reproduce |
| `Checkpoint.CorruptionReported` | internal/checkpoint/checkpoint.go:64-70 | a burst of at most four bytes in an accepted file is reported as a CRC error |
| `Checkpoint.ReadersAgree` | worker/src/checkpoint.cpp:108-158 | Go accepts exactly the files C++ accepts with a body-filling ring, and both see the same fields |
| `Checkpoint.ReadRender` | worker/src/checkpoint.cpp:64-158 | the C++ reader returns what the C++ writer was given if and only if the ring has at most 32 entries |
| `Checkpoint.FileStart` | worker/src/checkpoint.cpp:64-69 | the first eight bytes of every primes file, as literals |
| `Primes.PrimesBelowComplete` | worker/src/compute.h:10-13 | the reference list holds exactly the primes below c, in increasing order |
| `Primes.NoSmallDivisorIsPrime` | worker/src/compute.cpp:9-12 | trial division may stop at the square root |
| `Primes.IsPrimeTrial` | worker/src/compute.cpp:5-13 | the loop on wrapping u64 decides primality for every u64 |
| `Primes.SquareWrapsIff` | worker/src/compute.cpp:9-12 | the loop evaluates a square that wraps if and only if n is at least (2^32 - 1)^2 and has no odd divisor from 3 to 2^32 - 1 |
| `Sieve.AdvanceOnTrack` | worker/src/compute.cpp:40-59 | one iteration keeps: found counts the primes below the cursor, recent is the last 32 of them; nothing wraps below limit 2^64 - 1 |
| `Sieve.DoneIsFinal` | worker/src/compute.cpp:40-64 | a finished state is the one closed-form final state of its limit |
| `Sieve.FinalMeaning` | worker/src/compute.cpp:30-64 | the final state holds the number of primes up to the limit and the last min(32, found) in order |
| `Sieve.StopsIff` | worker/src/compute.cpp:40-52 | the loop ends from any state, on the path or not, if and only if the limit is not 2^64 - 1 |
| `MatMul.ComputeCell` | worker/src/matmul.cpp:80-85 | the wrapping inner loop gives the exact dot product modulo 2^64 |
| `MatMul.CellMeaning` | worker/src/matmul.cpp:80-85 | the cell at row i and column j is the dot product of row i of A and column j of B |
| `MatMul.RowMajorCells` | worker/src/matmul.cpp:28-38 | a cell of A or B depends on its row-major position alone |
| `MatMul.AdvanceOnTrack` | worker/src/matmul.cpp:79-87 | one iteration keeps: fingerprint is the sum of all cells below the cursor modulo 2^64 |
| `MatMul.CoversMatrixIff` | worker/src/matmul.cpp:77-79 | the loop bound is n * n if and only if n < 2^32 |
| `MatMul.FingerprintMeaning` | worker/src/matmul.cpp:74-109 | the final fingerprint is, modulo 2^64, the sum over k of (column k of A, summed) times (row k of B, summed) |
| `MatMul.KnownFingerprint` | worker/src/matmul.cpp:74-109 | the fingerprint of the 2 x 2 product with seed 1, as a literal |
| `MatMul.FileStart` | worker/src/matmul.cpp:111-124 | the first eight bytes of every matrix file, as literals |
| `MatMul.Layout` | worker/src/matmul.cpp:111-124 | which field stands at which offset of the file |
| `MatMul.ReadRender` | worker/src/matmul.cpp:111-186 | write then read restores the persisted state |
| `WordCount.AdvanceOnTrack` | worker/src/wordcount.cpp:86-90 | one iteration keeps: counts[w] is the number of positions below the cursor that hold w |
| `WordCount.DrawInjective` | worker/src/wordcount.cpp:27-30 | for a fixed seed no two positions draw the same number |
| `WordCount.KnownWords` | worker/src/wordcount.cpp:27-30 | the first two words of the corpus with seed 1 |
| `WordCount.OccurrencesMeaning` | worker/src/wordcount.cpp:86-90 | the count of a word is the number of positions that hold it |
| `WordCount.CountsBounded` | worker/src/wordcount.cpp:27-30 | every counted word is below 64, so at most 64 entries |
| `WordCount.CountsSum` | worker/src/wordcount.cpp:86-90 | the entries of the counts map, listed in any order, add up to the cursor |
| `WordCount.SortedUnique` | worker/src/wordcount.cpp:124-129 | the sorted entry list is the same for every iteration order of the map |
| `WordCount.ComputeHash` | worker/src/wordcount.cpp:66-80 | the hash is a function of the map alone |
| `WordCount.OneCountMatters` | worker/src/wordcount.cpp:66-80 | changing any one count changes the hash |
| `WordCount.KnownHash` | worker/src/wordcount.cpp:66-80 | the hash of one word counted once, as a literal |
| `WordCount.WriteState` | worker/src/wordcount.cpp:113-136 | for every map the written bytes are a function of the state alone |
| `WordCount.ReadRender` | worker/src/wordcount.cpp:113-219 | write then read restores the persisted state if and only if it counts at most 64 words |
| `WordCount.FileStart` | worker/src/wordcount.cpp:113-122 | the first eight bytes of every word-count file, as literals |
| `Workers.LoadRender` | worker/src/main.cpp:119-130 | a file written on the deterministic path is read back and passes the parameter check, for all three workers |
| `Workers.CorruptionRefused` | worker/src/main.cpp:119-130 | a burst of at most four bytes in such a file makes the resume exit with code 4 |
| `Workers.ResumeVerdict` | worker/src/main.cpp:119-130 | a file of a job is taken up by exactly that job whatever the cadence, refused with code 3 by another job of the same worker and with code 4 by another worker |
| `Workers.EmissionsOnTrack` | worker/src/compute.cpp:40-63 | every checkpoint of a run is on the path and the last one is the final state, for every cadence |
| `Workers.FirstEmission` | worker/src/compute.cpp:54-58 | the first file is exactly one cadence ahead, or final and at most that |
| `Workers.EmissionGaps` | worker/src/matmul.cpp:88-108 | consecutive files are exactly one cadence apart, the final one may come sooner |
| `Workers.HistoryStart` | worker/src/main.cpp:116-131 | by induction over any crash history: every incarnation that resumes from the written bytes of the previous file enters its loop with exactly that state, on the path |
| `Workers.ResumeDeterministic` | worker/src/main.cpp:116-149 | after any crash history with any cadences, resuming from the bytes of any file left behind ends in the final state of a fresh run |
| `Workers.RestartBound` | worker/src/main.cpp:134-145 | if every incarnation publishes a file, it is final as soon as incarnations times cadence exceeds the units of the job |
| `Runners.SieveState.Run` | worker/src/compute.cpp:30-64 | from any state with a limit below 2^64 - 1 the in-place loop emits the specified snapshots, ends in the last of them and counts the epochs |
| `Runners.SieveFromScratch` | worker/src/compute.h:35-40 | a fresh object run to the end holds the prime count and the last primes |
| `Runners.MatMulState.Run` | worker/src/matmul.cpp:74-109 | the in-place loop emits the specified snapshots |
| `Runners.WordCountState.Run` | worker/src/wordcount.cpp:82-111 | the in-place loop emits the specified snapshots |
| `Store.TransitionShape` | internal/store/store.go:49-96 | which transitions exist, characterised by what they may leave and enter |
| `Store.TransitionColumns` | internal/store/store.go:298-313 | what a transition writes, column by column: the setters, the stamp of started_at or finished_at unless set, nothing else |
| `Store.RedactedUpdates` | internal/store/store.go:551-563 | the filter keeps everything but checkpoint time and path, controller pid and volume path, in any map order |
| `Store.JobStore.CreateJob` | internal/store/store.go:176-207 | refuses a duplicate id, otherwise adds the row as given and its event, other rows untouched; the log stays replayable |
| `Store.JobStore.MoveTo` | internal/store/store.go:279-343 | for any setters: not found, invalid, or the row gets exactly the setters and the stamp and one event is added; the log stays replayable |
| `Store.JobStore.Checkpoint` | internal/store/store.go:348-373 | the four checkpoint columns and the event are written whatever the state, nothing else; the log stays replayable |
| `Store.OpKeeps` | internal/store/store.go:279-373 | every operation with any setters keeps log and rows consistent |
| `Store.ReplayReproducesRow` | internal/store/store.go:298-329 | after any history, folding a job's events gives its state and all audited columns along a chain of valid transitions; if no setter touches the checkpoint path or sets finished_at early, also the path, and finished_at marks the terminal states |
| `Store.PathFollowedIff` | internal/store/store.go:551-563 | a transition keeps the replayed checkpoint path right if and only if its setters do not change that column |
| `Store.TerminalAbsorbs` | internal/store/store.go:79-84 | no history changes a terminal state, and the log only grows |
| `Pagination.ListJobs` | internal/store/store.go:223-273 | the rows of the page are the newest of those with the filter state that are older than the cursor row, as many as the limit from 1 to 200 or else 50 allows, and the cursor names the last of them if more remain |
| `Pagination.PagesCompleteIff` | internal/store/store.go:238-271 | for every page size, filter and order of ties, following the cursors ends and yields matching jobs newest first, none twice, even if newer jobs arrive meanwhile; it yields all of them if and only if no page boundary splits a tie |
| `ChangingStates.UnfilteredCompleteIff` | internal/store/store.go:228-271 | the same equivalence for the unfiltered listing, up to the states shown, when jobs change state between pages |
| `Pagination.PagesAddUp` | internal/store/store.go:238-271 | if the jobs with the filter state have distinct creation times, the pages add up to their one full listing |
| `Pagination.TiesAreLost` | internal/store/store.go:241-247 | at every page size, a tie across a page boundary means that a matching job is never listed |
| `Recovery.PickMeaning` | internal/recovery/recovery.go:54-65 | a job is joined with a container exactly if it has one, with a running one exactly if one runs |
| `Recovery.FoldListing` | internal/recovery/recovery.go:54-65 | the loop computes that choice for every job id |
| `Recovery.ScanRow` | internal/recovery/recovery.go:70-104 | the row ends in the state the classification asks for and keeps every column but those of a launch or the finish stamp, other rows are untouched, no transition is rejected |
| `Recovery.Run` | internal/recovery/recovery.go:40-107 | every unfinished row is handled once, all others are untouched, adoptions are exact, the counters count the actions |
| `Recovery.ScanComplete` | internal/recovery/recovery.go:68-93 | a running row is adopted with a running container, or becomes resumable/resumed or unresumable by its checkpoint |
| `JobSystem.WorkerKeeps` | worker/src/main.cpp:116-149 | every worker step keeps the system invariant |
| `JobSystem.ControllerKeeps` | internal/supervisor/supervisor.go:92-354 | every supervisor and scan step keeps the system invariant |
| `JobSystem.RunsSound` | internal/supervisor/supervisor.go:207-278 | the invariant holds in every state of every run |
| `Guarantees.CrashTransparency` | internal/supervisor/supervisor.go:267-270 | in every run, a completed row has on disk exactly the bytes of one uninterrupted run |
| `Guarantees.CompletedSieve` | worker/src/main.cpp:134-149 | for a completed sieve those bytes hold the prime count and the last primes |
| `Reports.CompletedMatMul` | worker/src/main.cpp:171-187 | for a completed matrix job the file holds the sum of all cells of A x B modulo 2^64 |
| `Reports.CompletedWordCount` | worker/src/main.cpp:211-227 | for a completed word count the file holds for every word the number of positions it stands at |
| `Guarantees.AtomicPublish` | worker/src/checkpoint.cpp:79-105 | the state file changes only by a rename that installs a complete file |
| `Guarantees.ResumeNeverRefused` | worker/src/main.cpp:119-130 | no worker of any run exits with code 3 or 4, and at most one worker of a job is alive |
| `Guarantees.InterruptionDichotomy` | internal/supervisor/supervisor.go:335-354 | resumable rows have checkpoint and path, unresumable rows have none, neither has a live worker |
| `Guarantees.BoundedLoss` | worker/src/compute.cpp:50-58 | at any crash point at most one cadence of progress is not on disk |
| `Guarantees.FailedListingDoublesIff` | internal/recovery/recovery.go:47-93 | a failed listing taken as empty yields two live workers if and only if the scan launches, the row is running or checkpointing with a checkpoint, and a worker is alive |
| `Guarantees.RunStream` | internal/supervisor/supervisor.go:216-249 | reading a whole log leaves the row of its last line that was decodable and stored, at the time of that record, and notices completion exactly if it is there |
| `Guarantees.DrainLog` | internal/supervisor/supervisor.go:220-249 | the line-by-line steps of the system, with the same failures and clock readings, have the same effect |
| `Reports.DurableBeforeAnnounced` | worker/src/main.cpp:134-141 | a recorded checkpoint implies a file that a resume accepts; its found value is the prime count, cell sum or count hash at some cursor at or before that file |
| `Reports.LinesTruthful` | worker/src/compute.cpp:16-27 | every checkpoint line of every run reports the prime count, cell sum or count hash at the cursor it names, which is on disk already |
| `Reports.RunLogs` | worker/src/main.cpp:131-148 | every log is a started line, checkpoints of epoch 1, 2, 3 and so on, and possibly a completed line |
| `LoopLogs.LogFollowsLoop` | worker/src/compute.cpp:40-63 | the checkpoint lines of a worker are in turn the snapshots of the loop with the cadence of the command line, from some state on the path, and a completed line comes after all |
| `Reports.LaunchRecorded` | internal/supervisor/supervisor.go:161-168 | a launch records container, controller pid, volume path, controller id if any and the time, nothing else |
| `Reports.ExitRecorded` | internal/supervisor/supervisor.go:267-275 | the end of a dead worker's log records its exit code and the time, nothing else |
| `Reports.StartFailureRecorded` | internal/api/api.go:228-231 | a failed start records exit code -1 and the time |
| `Reports.LineRecorded` | internal/supervisor/supervisor.go:232-239 | a stored line with numbers below 2^63 sets the four checkpoint columns, nothing else |
| `Reports.LineSkipped` | internal/supervisor/supervisor.go:232-239 | a line with a found value of 2^63 or more, or whose record fails, leaves the row as it is |
| `Reports.StartedStamped` | internal/store/store.go:304-307 | in every run a job that was ever launched has started_at set |
| `Reports.CancelIsFinal` | internal/supervisor/supervisor.go:286-298 | a cancellation makes every unfinished job cancelled for good and leaves a finished one as it is |
| `Runs.AlwaysRecoverable` | internal/recovery/recovery.go:68-104 | every run with a recoverable job, controller up or down, extends to a run that ends with the job completed and the right bytes on disk |
| `Runs.EveryJobCanComplete` | internal/api/api.go:215-233 | every supported job has a run from the empty store that completes it |
| `Runs.RecoverableIff` | internal/recovery/recovery.go:68-104 | at any moment a run can be continued to a completed job if and only if the job is completed, pending and still being started, resumable, or running with a recorded checkpoint, a live worker or a promising reader |
| `Failures.PendingAtCrash` | internal/recovery/recovery.go:102-103 | a job that is pending while the controller is down never completes |
| `Failures.OrphanedByCrash` | internal/api/api.go:215-233 | every job has a run, a crash right after its creation, that leaves it pending for good |
| `Failures.OrphanedByFollower` | internal/api/api.go:221-227 | every job created at a controller without the lead can stay pending for good, without any crash |
| `Failures.WatchedDeathIff` | internal/supervisor/supervisor.go:267-275 | when the log of a dead worker ends, the running job can complete if and only if the exit code is 0 or the completion line was read, and is failed otherwise |
| `Failures.KillLoses` | internal/supervisor/supervisor.go:300-341 | every run with a watched live worker before its completion line extends, by a kill, to one where the row is failed for good with disk and checkpoint kept, and can no longer be marked interrupted |
| `Failures.FinishedButFailed` | internal/supervisor/supervisor.go:267-275 | every supported job has a run that ends with it failed for good although its final file is on disk |
| `Failures.CheckpointedButFailed` | internal/supervisor/supervisor.go:267-275 | a run ends with a job failed for good although a checkpoint is recorded and a resume would accept the file |
| `Failures.RecordedIff` | internal/supervisor/supervisor.go:232-239 | a row has a recorded checkpoint if and only if a decodable checkpoint line of the job was read and stored earlier in the run |
| `Failures.GivenUpIff` | internal/recovery/recovery.go:78-93 | a scan that finds no running worker gives a running row up if and only if no checkpoint line was ever stored for it |
| `Failures.FinishedButUnresumable` | internal/recovery/recovery.go:85-93 | every supported job has a run that ends with it unresumable although its final file is on disk |
| `Failures.FailedListingReachable` | internal/recovery/recovery.go:47-53 | a run reaches a crash from which a failed listing makes two workers |
| `SystemLog.RowsFromStore` | internal/supervisor/supervisor.go:161-354 | in every run the rows are those of the store after the operations behind its events |
| `SystemLog.RunReplays` | internal/store/store.go:298-329 | in every state of every run replaying the event log gives state and logged columns of every row, and finished_at marks exactly the finished jobs |
| `Lease.InMemoryLocker.TryAcquire` | internal/cluster/inmemory.go:43-53 | granted iff free, expired or own, for this key only |
| `Lease.InMemoryLocker.Extend` | internal/cluster/inmemory.go:56-66 | extended iff own and unexpired |
| `Lease.InMemoryLocker.Surrender` | internal/cluster/inmemory.go:69-78 | removed iff own, expired or not |
| `Lease.InMemoryLocker.CurrentHolder` | internal/cluster/inmemory.go:82-90 | names the holder exactly while the lease is unexpired |
| `Lease.StaleHolderHarmless` | internal/cluster/inmemory.go:56-78 | a refresh, release or premature acquire by a non-holder fails and changes nothing |
| `Lease.WindowsDisjoint` | internal/cluster/inmemory.go:43-78 | in any run under a monotone clock no instant lies in two lease windows |
| `Lease.HolderOwnsWindow` | internal/cluster/inmemory.go:82-90 | the holder named at the end of a run owns the one window that covers that instant |
| `Lease.TtlHonouredIff` | internal/cluster/redis.go:55-60 | when the requested lease time is granted in full |
| `Lease.LockersAgreeIff` | internal/cluster/redis.go:54-107 | when acquire, refresh and release of the two lockers agree, for every lock state, caller, lease time and instant |
| `Lease.FractionalTtlExpiresEarly` | internal/cluster/redis.go:55-60 | a lease of 2.5 s is lost to another controller after 2.2 s |
| `Election.StepKeeps` | internal/cluster/cluster.go:103-193 | every step keeps: a live leader holds the unexpired lease of its last grant |
| `Election.AtMostOneLeader` | internal/cluster/cluster.go:103-193 | in every run with any number of electors, two live leaders are the same elector |
| `Election.FlagRises` | internal/cluster/cluster.go:176-186 | a flag rises if and only if an acquire of its own is granted and answered, and then with a fresh lease |
| `Election.RefreshRenews` | internal/cluster/cluster.go:134-149 | an answered refresh keeps a leader and renews its lease |
| `Election.FlagFallsIff` | internal/cluster/cluster.go:134-149 | a live leader loses its flag if and only if a refresh of its own is unanswered or refused |
| `Election.LeadershipEndsIff` | internal/cluster/cluster.go:103-149 | in a reachable state leadership ends if and only if the leader is cancelled, crashes or gets no answer to a refresh |
| `Election.LeadershipLasts` | internal/cluster/cluster.go:129-151 | a leader stays leader in any run in which its refreshes are answered and it is neither cancelled nor crashed |
| `Election.LifeCycle` | internal/cluster/cluster.go:112-119 | how an elector passes from live over stopping and released to stopped, its flag down at the end |
| `Election.StoppingLeaderOverlaps` | internal/cluster/cluster.go:114-118 | while a leader shuts down another can already lead |
| `Election.OverlapReachable` | internal/cluster/cluster.go:103-127 | for both lockers and all lease times a run from no electors ends with two flags up |
| `Election.FailoverBound` | internal/cluster/cluster.go:154-171 | with a polling follower a live elector holds the lease by expiry + poll interval, as leader unless the reply to a grant was lost |
| `Election.FailoverAfterCrash` | internal/cluster/cluster.go:14-25 | that is at most lease time + poll interval after the crash |
| `Resp.EncodeCommand` | internal/cluster/redis.go:146-153 | the builder loop produces the framed command |
| `Resp.KnownCommand` | internal/cluster/redis.go:146-153 | the bytes of one command, as literals |
| `Resp.ReadEncode` | internal/cluster/redis.go:155-203 | decoding an encoded command followed by anything returns its parts and leaves the rest, whatever bytes they contain |
| `Resp.ReadPipeline` | internal/cluster/redis.go:192-200 | concatenated commands decode to the same sequence |
| `Resp.ReadSimple` | internal/cluster/redis.go:164-178 | a line, an error, an integer and a missing value are read as such and leave what follows |
| `Resp.ReadReply` | internal/cluster/redis.go:155-203 | every reply, nested arrays and arbitrary bytes included, is read back as it was written |

## Left out

- Docker, process and socket calls, SQLite itself, JSON text, HTTP handlers, configuration and signal wiring: they appear only as nondeterministic steps or parameters.
- A prime sieve up to 2^64 - 1 is not a job of the transition system, because its loop never ends (`Sieve.StopsIff`).
- A crash between starting a container and recording it, a failed container listing, a graceful shutdown whose stop and kill both fail, and two controllers acting as leader at once: each can put two workers on one file, and the system guarantees assume they do not happen.
- Power loss: rename is taken as durable, the directory is not synced by the code.
- CRC detection of truncation or of changes spread over more than four bytes: a 32-bit checksum does not promise it.
- Found values of the matrix and word-count workers are hashes, so for them the recorded value is tied to the announced cursor, and progress is compared by cursor.
- Statistical quality of splitmix64 and of the two hash folds: proved are injectivity and known values, not how well they spread.
- The `progress` field of checkpoint events (floating point) and the `created_at` label of containers.
- Lease.TtlHonouredIff: computes whole seconds exactly, where the code truncates a float64; from 2^24 seconds on a
  fraction just below a second can round up there, so the granted time may be the next whole second.
- Jobs that disappear between two pages, or change state between two pages of a filtered listing: the client then asks for a moving set.
- Setters of a transition that overwrite the `state` key itself: the model's setters range over all other columns.
- The event timestamp is the same clock reading as the row timestamp, where the code reads the clock twice.
- Supervisor, elector loops and the RESP reader are functions from state to state, because their steps interleave with others: what is lost is the layout of goroutines, locks and the buffered reader, not the order of effects.
- The YAML registry, `argOr`, the reaper and the benchmark tools: only easy members.
- Guarantees.ResumeNeverRefused: speaks about exit codes of processes that were not killed, since a kill is modelled with codes of at least 128.
