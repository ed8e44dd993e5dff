# A verified model of the code verifier's core

The system compiles and tests untrusted submissions in pooled containers. Its
heart is concurrent: a bounded pool hands out reusable containers, a TTL reaper
force-removes containers whose job has hung, a pipeline borrows a container for
two stages and undoes everything with defers, and a shutdown closes all of this
while it is in use. This project models that core as one protocol of atomic
steps with any number of threads and proves what holds in every run. The same
methods are also written as Dafny classes, proved against the functions the
protocol interleaves. Around the core, the batch runner, the diagnostic parsers, the
manifest printer and parser, the prevalence selection and the dataset split are
modelled and proved too.

`dafny verify dfyconfig.toml` checks everything.

## How it is organised

- `PoolSpec.dfy` gives each lock section, channel operation and backend call of
  the pool as a function on its memory; `TtlSpec.dfy` does the same for the
  deadline map.
- `Protocol.dfy` is the state machine. A thread is a program counter; an action
  is one lock section, channel operation or backend call of Acquire
  (`internal/pool/pool.go` 86-124 and 208-254), of the job
  (`internal/pipeline/pipeline.go` 67-75), of Release and discard (`pool.go`
  128-156 and 257-265), of the two Close methods (`pool.go` 173-196 and
  `pkg/api/env.go` 100-106), or of the sweep (`internal/ttl/manager.go` 63-108
  with `pool.go` 162-169). The reaper's sweep goroutine is thread 0. The
  runtime hands out any id it has not handed out before, and Create and Start
  may fail.
- `Invariant.dfy` proves the inductive invariant by rely and guarantee: each
  action is checked once against its own thread and once against an arbitrary
  other thread. `Safety.dfy`, `Closing.dfy`, `Handouts.dfy`, `Sweeps.dfy`,
  `Kills.dfy`, `Wakeup.dfy` and `Wakers.dfy` derive the properties of all runs;
  `Witness.dfy` holds runs in which an expectation fails.
- `PoolObject.dfy`, `Reaper.dfy`, `Pipeline.dfy` and `Environment.dfy` are the
  source's objects and methods; `Solo.dfy` shows that a method call that is not
  interrupted is a run of the protocol in which one thread takes all its
  actions, so the two views cannot drift apart.
- `Sandbox.dfy` and `Verdict.dfy` cover the time limits and the verdict,
  `Layering.dfy` the stages' limits under the reaper's deadline, `Schedule.dfy`
  the times at which the reaper sweeps, `Bench.dfy` the batch runner,
  `GoDiagnostics.dfy` and `RustDiagnostics.dfy` the compiler output parsers,
  `GoMod.dfy` the manifest printer and its round trip, `GoModTexts.dfy` what the
  manifest parser makes of go.mod texts in general, `Prevalence.dfy` and
  `Split.dfy` the other scripts; `Prelude.dfy`,
  `Text.dfy`, `Sorting.dfy` and `Diagnostics.dfy` are shared.

## Where the code and its own words disagree

- The comment at `internal/pool/pool.go` 139-140 says a reaped container cannot
  race with a re-park. `sweepOnce` kills after unlocking, so a job can untrack
  and park its container first (`Witness.RemovedHandedOut`,
  `Witness.BusyCanBeNegative`). `Sweeps.LiveUnlessLateKill` and
  `Sweeps.LateKillIff` say exactly when; `Sweeps.AtomicSweepsSafe` shows the
  comment right if a sweep and its kills are not interleaved.
- The default branch of Release, which "should never happen" (`pool.go` 152-153),
  can then be reached (`Witness.ParkCanBeFull`, `Sweeps.ParkNeverFull`);
  `Sweeps.ParkFullIff` is the exact condition.
- "A closed pool never hands out a container" (`pool.go` 87-88) and "Acquire
  calls waiting or made after Close return ErrClosed" (`pool.go` 171-172) hold
  for calls whose entry check follows Close's lock section
  (`Closing.RefusedAfterClose`), not for all calls already past it
  (`Witness.HandedOutAfterClose`). `Closing.ServedAfterCloseIff` says exactly
  which of them can still get a container.
- A wait at capacity is "for a Release" (`pool.go` 114), but a Release that
  recycles its container, or any other discard, frees a slot and wakes nobody
  (`Witness.WakeupCanBeLost`). `Wakers.WakeableIff` says exactly when the calls
  under way can still end a wait. With MaxJobsPerContainer 1 nothing ever can:
  an Acquire that has come to wait waits until Close or cancellation, although
  slots become free (`Wakers.EverWokenIff`, `Wakers.SingleUseWait`).
  `Wakeup.NoLostWakeup` covers the runs that give back no slot.
- Close "removes every container" (`pool.go` 171), but not one whose create is
  in flight; that one registers in the closed pool and is removed by its own
  Release (`Witness.RegisteredAfterClose`, `Safety.ClosedCompletelyIff`,
  `Safety.NoLeak`).
- "The reaper only ever fires for a genuinely hung job"
  (`internal/pipeline/pipeline.go` 69-71) fails in two ways. The deadline must
  cover both stages, and there must be a limit on them in the first place: a TTL
  of zero or less, which the command line accepts, leaves the stages unlimited.
  `Layering.NeverReapedIff` is the exact condition on the settings, for jobs
  whose container is not still to be killed for an earlier job; the default TTL
  of 60 s and grace of 30 s do not meet it (`Layering.DefaultsNotLayered`).
  Without that proviso no setting helps: a kill comes after the unlock, and can
  hit the next job on the container (`Witness.InnocentKilled`,
  `Layering.NoSettingProtects`). `Layering.HitIff` and, in the protocol,
  `Kills.KillHitsIff` say exactly when. It does not happen when a sweep and its
  kills are not interleaved with other threads (`Kills.AtomicKillsOverdue`), nor
  while every job is untracked before its deadline (`Sweeps.NeverDueSafe`).
- An id is "eligible to be reaped on the next sweep" (`internal/ttl/manager.go`
  39-40), but kills hold up the sweep loop: `Schedule.PromptIff`.

## Model

| member | source | states |
|---|---|---|
| Invariant.OtherStep | internal/pool/pool.go:86-265 | no step of one thread invalidates what any other thread relies on about its container, the registry and the channel |
| Invariant.HandOver | internal/pool/pool.go:128-265 | whoever stops answering for a registered or created container hands it to the pool, keeps it, or has called Remove |
| Invariant.DriftStep | internal/pool/pool.go:173-265 | every step keeps registered plus in-flight creates minus count, except the lock section of Close, which sets it to the creates in flight |
| Invariant.InvRun | internal/pool/pool.go:86-265 | the whole invariant holds after every run, with any number of threads |
| Safety.Capacity | internal/pool/pool.go:206-229 | in every reachable state registered plus in-flight creates stay within MaxSize; while open count equals them, after Close it lies between -MaxSize and 0 |
| Safety.CapacityAcrossClose | internal/pool/pool.go:173-229 | for any run across the Close that takes effect, count plus the creates in flight at that moment equals registered plus creates in flight |
| Safety.RuntimeBound | internal/pool/pool.go:231-265 | created and not yet removed containers exceed MaxSize by at most the ids some thread still owes a Remove |
| Safety.Accounted | internal/pool/pool.go:231-265 | in every reachable state a created container is registered, removed, being made by a thread, or owed a Remove by a thread |
| Safety.NoLeak | internal/pool/pool.go:171-196 | when every call has returned, created is registered plus removed, registered is exactly parked and not removed, and a closed pool has everything removed |
| Safety.ClosedCompletelyIff | internal/pool/pool.go:171-196 | when Close is about to return, some created container is not removed if and only if one is registered or being made, or another call still owes one its Remove |
| Safety.SingleOwner | internal/pool/container.go:6-10 | a container is parked at most once or held by exactly one thread, never both |
| Safety.TrackedIsCheckedOut | internal/pipeline/pipeline.go:67-75 | an id with a deadline belongs to exactly one thread, a job between Track and Untrack on that container, and is not parked |
| Safety.ReaperStopsBeforeClose | pkg/api/env.go:97-106 | when Close comes only through the environment, no sweep step can happen once any Close is about to lock the pool |
| Closing.ServedAfterCloseIff | internal/pool/pool.go:86-124 | once the pool is closed, some run still hands a thread a container if and only if it has one, is making one without a failure so far, or is past the entry check while something is parked or about to be |
| Closing.CloseReleasesWaiterIff | internal/pool/pool.go:114-123 | a worker waiting at capacity can return ErrClosed, at once or right after the signal of the Close that took effect, if and only if the pool is closed |
| Closing.ShutdownOrder | internal/pool/pool.go:173-196 | in every run, Close removes no container before the done channel is closed, and the reaper stops only after some environment Close has cancelled it |
| Handouts.Balance | internal/pool/pool.go:86-156 | over any run a container's job counter grows by its releases, and hand-outs are releases plus the one still in a job's hands |
| Handouts.JobLimit | internal/pool/pool.go:144-147 | from a fresh environment the job counter is the number of releases; with a limit no container serves more jobs, and a parked one has served fewer |
| Handouts.RecycledIff | internal/pool/pool.go:128-156 | in every run, a Release does nothing more with a container that is not registered, discards one if the pool is closed or this is its last job under the limit, counted over the run, and parks it otherwise |
| Handouts.QueueLaw | internal/pool/pool.go:86-156 | first in first out: over any run, the ids parked at its start and then by its parks are, in the same order, the ids it takes and then those parked at its end |
| Handouts.LateHandouts | internal/pool/pool.go:128-156 | after a container left the registry, hand-outs and parks over any run are paid for by its one place on the shelf |
| Handouts.AtMostOneLateHandout | internal/pool/pool.go:137-143 | a container reaped or torn down is handed out at most once more, and never parked by a Release that reads its liveness afterwards |
| Handouts.FreedOnce | internal/pool/pool.go:256-265 | over any run a container's slot is freed at most once while the pool is open |
| Sweeps.LateKillIff | internal/ttl/manager.go:100-107 | the reaper takes out a shelved container exactly when, at the drop on an open pool, no job or discard holds it any more |
| Sweeps.LiveUnlessLateKill | internal/pool/pool.go:137-143 | in a run from a clean state everything parked in an open pool is registered if and only if the reaper never takes out a shelved container |
| Sweeps.DeadBound | internal/pool/pool.go:137-143 | dead containers on the shelf are at most the late kills so far |
| Sweeps.ParkNeverFull | internal/pool/pool.go:149-155 | without late kills Release's default branch is unreachable, open or closed |
| Sweeps.ParkFullIff | internal/pool/pool.go:149-155 | a Release about to park takes the default branch exactly when the live and the dead containers on the shelf leave no room beside those still to be parked |
| Sweeps.StatsBusy | internal/pool/pool.go:198-204 | Stats().Busy on an open pool is exactly creates in flight plus registered checked-out containers minus parked dead ones |
| Sweeps.StatsNonNegative | internal/pool/pool.go:198-204 | Busy is never below minus the number of late kills of the run |
| Sweeps.AtomicSweepsNeverLate | internal/ttl/manager.go:89-108 | a run in which a sweep and its kills are not interleaved with other threads has no late kill |
| Sweeps.AtomicSweepsSafe | internal/pool/pool.go:137-156 | under atomic sweeps everything parked is registered while open, Busy is exactly creates in flight plus registered checked-out containers, and the default branch of Release is unreachable |
| Sweeps.NeverDueSafe | internal/ttl/manager.go:91-108 | in every run in which no tracked deadline is ever reached nothing is killed, and the same holds for the code's own interleavings |
| Wakeup.SlotsOccupied | internal/pool/pool.go:114-123 | on an open pool with nothing parked, as many threads hold or create a container as slots are used |
| Wakeup.OccupantsMove | internal/pool/pool.go:128-156 | a thread that occupies a slot is never blocked, and can move without a create failing |
| Wakeup.FullSinceIff | internal/pool/pool.go:206-229 | since any moment at which the pool was full, on an open pool with nothing parked, every slot has an occupant if and only if all slots given back were taken again |
| Wakeup.OccupiedSinceRefusal | internal/pool/pool.go:104-123 | in every run that ends with a worker waiting on an open pool with nothing parked, the occupied slots are MaxSize plus slots taken less slots given back since its Reserve was refused |
| Wakers.WakeableIff | internal/pool/pool.go:114-156 | a worker waiting on an open pool can be given a container by the calls under way if and only if one is parked, or some thread is parking one, serves a registered one that will be reused, or is still to make one that will be |
| Wakers.EverWokenIff | internal/pool/pool.go:114-147 | a worker waiting on an open pool can be given a container by any run at all, newcomers included, if and only if MaxJobsPerContainer is not 1 |
| Wakers.SingleUseWait | internal/pool/pool.go:114-147 | with MaxJobsPerContainer 1 the channel is empty in every reachable state in which anyone waits |
| Wakeup.NoLostWakeup | internal/pool/pool.go:96-123 | without recycling, reaping or failed creates, a worker waits with nothing parked only while exactly MaxSize other threads occupy the slots, and each of them can end the wait by at most seven failure-free steps of its own |
| Wakeup.WaitIsEnabled | internal/pool/pool.go:114-123 | in such runs, with at most MaxSize clients, a wait on an open pool is over at once |
| Witness.InnocentKilled | internal/ttl/manager.go:100-107 | for any TTL, a reachable state of an open pool in which a job's container has been removed while its own deadline is that far ahead |
| Witness.RemovedHandedOut | internal/ttl/manager.go:100-107 | a reachable state of an open pool in which a job holds a removed container |
| Witness.BusyCanBeNegative | internal/pool/pool.go:202-203 | a reachable state in which Stats().Busy is negative |
| Witness.ParkCanBeFull | internal/pool/pool.go:149-155 | a reachable state in which Release finds the channel full |
| Witness.WakeupCanBeLost | internal/pool/pool.go:114-123 | a reachable state in which a worker waits on an open pool with room and no other started thread can act except the sweeper |
| Witness.RegisteredAfterClose | internal/pool/pool.go:231-254 | a reachable state in which, after Close has returned, a create that was in flight has registered a live container |
| Witness.HandedOutAfterClose | internal/pool/pool.go:86-102 | a reachable state in which, after Close has returned, an Acquire past its entry check got a removed container |
| PoolObject.PoolObject.Discard | internal/pool/pool.go:256-265 | deregisters and frees the slot only if still registered, and calls Remove either way |
| PoolObject.PoolObject.RemoveByID | internal/pool/pool.go:158-169 | discards a registered id and leaves the pool alone otherwise |
| PoolObject.PoolObject.Grow | internal/pool/pool.go:206-229 | each of the five outcomes with the whole new state: a failed create gives the slot back |
| PoolObject.PoolObject.CreateContainer | internal/pool/pool.go:231-254 | registers a fresh id, or leaves the registry alone and removes a container that did not start |
| PoolObject.PoolObject.Acquire | internal/pool/pool.go:84-124 | closed pools refuse; of the parked containers the one parked first is taken; otherwise the outcome is that of grow, or at capacity that of the wait: a parked container, closing, or cancellation |
| PoolObject.PoolObject.Release | internal/pool/pool.go:126-156 | counts the job; then does nothing with a container not registered any more, discards it if the pool is closed, full, or the count has reached the limit, and parks it last otherwise |
| PoolObject.PoolObject.Close | internal/pool/pool.go:171-196 | clears the ledger, removes every registered container, returns the first Remove failure, and is idempotent |
| PoolObject.PoolObject.WarmUp | internal/pool/pool.go:72-80 | parks exactly MinWarm distinct fresh containers in the order they were created, or closes the pool again with everything it created removed |
| PoolObject.PoolObject.Snapshot | internal/pool/pool.go:198-204 | the snapshot is taken of the ledger and the channel at one moment, from which overflow is read |
| PoolObject.New | internal/pool/pool.go:60-82 | rejects invalid configurations, leaves nothing unremoved on failure, and builds the state every protocol run starts from |
| Solo.SoloAcquire | internal/pool/pool.go:86-124 | every outcome the Acquire method may have is an uninterrupted run of the protocol's Acquire actions |
| Solo.SoloOverflow | internal/pool/state.go:31-35 | on an open pool whose snapshot shows overflow, an Acquire running alone comes to wait, and its only outcomes are cancellation and closing |
| Solo.SoloRelease | internal/pool/pool.go:128-156 | the Release method's effect is that of an uninterrupted run of the protocol's Release actions |
| Solo.SoloClose | internal/pool/pool.go:173-196 | the Close method's effect is that of an uninterrupted run of the protocol's Close actions |
| Solo.SoloSweep | internal/ttl/manager.go:105-107 | killing the collected ids one by one, in any order, is an uninterrupted run of the protocol's kills |
| Reaper.Manager.Track | internal/ttl/manager.go:39-45 | the id's deadline becomes now plus ttl, as the trace model has it |
| Reaper.Manager.Untrack | internal/ttl/manager.go:47-52 | the id is forgotten, as the trace model has it |
| Reaper.Manager.SweepOnce | internal/ttl/manager.go:89-108 | kills exactly the expired ids, each once, through RemoveByID, and keeps the other deadlines |
| TtlSpec.TrackedIffPending | internal/ttl/manager.go:39-52 | after any trace an id is tracked exactly when some Track of it is pending, with that Track's deadline |
| TtlSpec.TakenExactly | internal/ttl/manager.go:91-103 | the lock section of a sweep takes an id if and only if a Track of it is pending and due |
| TtlSpec.KilledAfterDue | internal/ttl/manager.go:100-107 | every kill, made after unlocking, goes back to a sweep that found a pending Track of the id due |
| TtlSpec.KillsBounded | internal/ttl/manager.go:39-108 | over any trace an id's kills, outstanding or made, never exceed its Tracks |
| TtlSpec.FirstSweepTakes | internal/ttl/manager.go:91-103 | an id left tracked is taken by the first sweep at or after its deadline and by none before |
| Pipeline.EveryPathUndone | internal/pipeline/pipeline.go:61-128 | on every path after a successful Acquire the container is tracked before the compile, the tests run exactly if that exits with 0, and the last calls are cleaning up, Untrack if tracked, and Release, each exactly once and in that order |
| Pipeline.Runner.Stages | internal/pipeline/pipeline.go:83-127 | the record filled field by field is the one of the two outcomes, and execution runs only after a successful compile |
| Pipeline.Runner.UnwindJob | internal/pipeline/pipeline.go:67-81 | the deferred calls run last in, first out, and the id is untracked |
| Pipeline.Runner.Run | internal/pipeline/pipeline.go:52-128 | a failed Acquire changes nothing else; otherwise the calls made are exactly those of its path, while the stages run the id has the deadline now plus TTL plus grace, and at the end the container is released to the pool it was lent from and its id is not tracked |
| Environment.Env.Verify | pkg/api/env.go:76-118 | the outcome depends on the two exit codes as specified, output, exit code, timeout and times come from the stage that decided, the diagnostics from the stream the language's compiler uses; while the stages run the deadline is now plus TTL plus the environment's own grace, and the pool and the deadlines end as after Acquire, Untrack and Release |
| Environment.Env.Close | pkg/api/env.go:97-106 | the reaper is cancelled and done, and the pool is closed with the first Remove failure reported |
| Environment.NewEnv | pkg/api/env.go:31-74 | sweep and grace fall back to 5 s and 30 s unless positive, a failure leaves nothing unremoved, and the result is an initial state of the protocol |
| Sandbox.WrapWithTimeout | internal/sandbox/capture.go:9-25 | for a positive TTL the applied limit is the TTL rounded up to whole seconds; otherwise the command is unchanged |
| Sandbox.TimedOutIff | internal/sandbox/capture.go:27-38 | for every exit code: a run counts as timed out if and only if the TTL is positive, it died of SIGKILL or SIGTERM, and it lasted to within half a second of the limit applied |
| Sandbox.TimedOutIsLate | internal/sandbox/capture.go:27-38 | a reported timeout has a signal exit code, a positive TTL, and a duration within half a second of the TTL or more |
| Layering.HitIff | internal/ttl/manager.go:91-108 | in any trace with kills after the unlock, a job that ends before its deadline is hit by a kill if and only if a kill of its container was outstanding when it was tracked and no longer is when it is untracked |
| Layering.NeverReapedIff | internal/pipeline/pipeline.go:42-75 | jobs of that many stages, each ending by the limit applied to it if one is, and tracked while no kill of their container is outstanding, are never hit by a kill, in any timed trace around them, if and only if the TTL is positive and all limits with the overhead end before ttl plus grace |
| Layering.NoSettingProtects | internal/ttl/manager.go:100-107 | whatever the TTL and the grace, a healthy job is hit in some trace by the outstanding kill of the job before it |
| Kills.KillHitsIff | internal/ttl/manager.go:100-107 | every kill of a registered container, in every run, goes back to a collect that took it from an overdue job; it hits that job, another job, or a shelved or discarded container according to how often the container was released and handed out since, and a job whose deadline is still recorded only if it is another job |
| Kills.TakenAfterTtl | internal/ttl/manager.go:39-103 | in every run, whatever a sweep takes was tracked by the job that held it, and the TTL of that Track has run out on the clock since |
| Kills.ReapsFinish | pkg/api/env.go:97-106 | no reap is abandoned: once the reaper has stopped, everything a sweep had taken is out of the registry |
| Kills.AtomicKillsOverdue | internal/ttl/manager.go:91-108 | when a sweep and its kills are not interleaved with other threads, a kill finds its container with no deadline recorded and in the hands of a job still between Track and Untrack |
| Layering.GraceSuffices | internal/pipeline/pipeline.go:42-50 | a grace of the TTL, two seconds and the overhead is enough for two stages, as long as no kill of the container is outstanding at the Track |
| Layering.DefaultsNotLayered | pkg/api/env.go:16-19 | under the same proviso, with the default TTL and grace a two-stage job can be hit within its limits and a compile-only one cannot while the overhead is below the grace; with a TTL of zero no grace helps |
| Schedule.TakenByNextSweep | internal/ttl/manager.go:63-103 | an id still tracked when due is taken by the next sweep, which starts within one interval of the moment it is tracked and due, or within the time the sweep in progress takes if that is longer |
| Schedule.PromptIff | internal/ttl/manager.go:63-78 | every moment is followed by a sweep within one interval if and only if no sweep with its kills outlasts the interval |
| Schedule.SweepOnTick | internal/ttl/manager.go:63-78 | each sweep starts on the first tick after the start of the one before it, or, if that one is then still running, as soon as it is over |
| Verdict.EndToEnd | internal/verdict/verdict.go:34-50 | through both stages, for all exit codes, TTLs and durations: which exit codes give which outcome, and a timeout never coexists with a pass |
| Verdict.Attribution | internal/pipeline/pipeline.go:95-127 | the record reaches the execute stage exactly when it compiled; only then can it pass, crash or have run; exit code, timeout and durations come from the right stage |
| Bench.MeasureDecreases | cmd/aicv/main.go:231-243 | every step of the dispatcher or a worker strictly decreases one measure |
| Bench.NeverStuck | cmd/aicv/main.go:231-245 | until every worker has returned, some step is enabled |
| Bench.AtOnceIff | cmd/aicv/main.go:223-239 | k jobs can be under verification at once, in some interleaving, if and only if k is at most the number of jobs and at most the workers asked for, of which there is always one |
| Bench.RefinesSequentialMap | cmd/aicv/main.go:223-246 | for every worker count and interleaving: runs are bounded, and when no step is left each result was written exactly once and is verifyOne of its own index |
| GoDiagnostics.ParseGo | internal/verifier/verifier.go:116-143 | the loop returns the diagnostics of its lines in order |
| GoDiagnostics.MatchReads | internal/verifier/verifier.go:114-114 | whatever the pattern matches is a reading `file:line:col:` message of the line |
| GoDiagnostics.MatchShortest | internal/verifier/verifier.go:114-114 | every line that has such a reading matches, with the shortest file name, and only one reading has that name |
| GoDiagnostics.DecimalRead | internal/verifier/verifier.go:127-128 | a number printed in decimal is read back as itself up to the largest int, and as the largest int beyond |
| GoDiagnostics.Recovered | internal/verifier/verifier.go:116-143 | from any text mixing formatted lines and lines without any reading exactly the formatted diagnostics come back, in order and field by field, whatever their messages and the white space before them contain |
| RustDiagnostics.ParseRust | internal/verifier/verifier.go:47-68 | the loop returns the top-level errors and warnings of its lines in order |
| RustDiagnostics.Recovered | internal/verifier/verifier.go:47-68 | from any text mixing noise (blank, no object, undecodable, another reason, no message, another level) with compiler messages of level error or warning, exactly those messages come back, converted and in order |
| RustDiagnostics.OwnExactly | internal/verifier/verifier.go:101-112 | each of a message's spans adds its replacement if it has one that is not empty, in the order of the spans |
| RustDiagnostics.ConvertMirrors | internal/verifier/verifier.go:70-96 | the tree keeps its shape and fields, and every node lists its own non-empty replacements and then its children's suggestions |
| RustDiagnostics.RootListsSubtree | internal/verifier/verifier.go:98-112 | the root lists every non-empty replacement of the subtree in pre-order |
| RustDiagnostics.ParseConcat | internal/verifier/verifier.go:47-68 | parsing two texts joined by a newline gives the results of parsing each |
| GoMod.ParseDirectDeps | scripts/mining/mine_go.py:102-131 | the loop computes the dependencies of which Recovered and RoundTrip say what they are |
| GoModTexts.Recovered | scripts/mining/mine_go.py:97-131 | from any text of other lines, requires outside and inside blocks, unfinished requires and comments, with any of Python's line ends, exactly the name and version of each require whose comment does not contain `indirect` come back, in order |
| GoMod.Generate | scripts/mining/generate_gomod.py:65-94 | the text is the header, one line per package in name order, and the closing line; an empty list fails |
| GoMod.FeedHeader | scripts/mining/generate_gomod.py:66-80 | whatever the metadata, the header only opens the require block |
| GoMod.VersionsAligned | scripts/mining/generate_gomod.py:84-88 | a package line is a tab, the name, blanks and the version, and all versions start in the same column, two blanks behind the longest name there is |
| GoMod.RoundTrip | scripts/mining/generate_gomod.py:65-94 | parsing the generated text gives back the packages in stable name order |
| GoMod.StableNameOrder | scripts/mining/generate_gomod.py:82-83 | that order ascends by name, loses nothing, and keeps packages of one name in their given order |
| Prevalence.CountRepos | scripts/mining/analyze_prevalence.py:135-149 | a package's count is the number of manifest-bearing repositories that list it at least once |
| Prevalence.RepoCountIs | scripts/mining/analyze_prevalence.py:135-149 | that number is the size of the set of repositories with a manifest whose requirements include the name |
| Prevalence.ComputeCurve | scripts/mining/analyze_prevalence.py:126-183 | the curve ranks each counted package once, by descending count; it fails exactly when a prevalence would divide by zero |
| Prevalence.FindK | scripts/mining/analyze_prevalence.py:186-194 | the scan stops at the first package below the threshold |
| Prevalence.MeetsIff | scripts/mining/analyze_prevalence.py:190-191 | as real numbers, a package meets the threshold if and only if its prevalence is at least the threshold, equality included |
| Prevalence.SelectionExact | scripts/mining/analyze_prevalence.py:186-194 | the first k packages are exactly those whose prevalence meets the threshold |
| Prevalence.SelectionsNested | scripts/mining/analyze_prevalence.py:197-200 | a higher threshold selects a prefix of what a lower one selects |
| Split.UidIsSecondPiece | scripts/task_suite/02_build_split.py:72-84 | an underlying id is the number between the first two separators of a name, and a name without a separator has none |
| Split.Build | scripts/task_suite/02_build_split.py:92-177 | the loops and sorts compute the two outputs, and an unreadable id stops the program |
| Split.NoContamination | scripts/task_suite/02_build_split.py:97-173 | no problem of either family is in both outputs, for any shuffle and with duplicate ids |
| Split.EachRecordOnce | scripts/task_suite/02_build_split.py:116-173 | each output holds a record exactly as often as its source holds the record it is made from if its id, family, number and half are right and it is not a held-out MultiPL-E HumanEval record, and otherwise not at all |
| Split.TrainSizes | scripts/task_suite/02_build_split.py:100-110 | if the shuffles only rearrange, 131 of the 164 HumanEval problems and, of distinct MBPP problems, four fifths rounded down are train problems |
| Split.ShuffledInOrder | scripts/task_suite/02_build_split.py:106-109 | what is shuffled are the MBPP ids in ascending order, whatever order the file has |
| Split.OutputOrdered | scripts/task_suite/02_build_split.py:175-177 | an output record comes before another only if its id is a prefix of the other or smaller where they first differ |
| Split.OrderIndependent | scripts/task_suite/02_build_split.py:97-177 | with distinct record names, reordering the inputs changes neither output |
| Sorting.SortStable | scripts/mining/generate_gomod.py:82-83 | sorting keeps elements that compare equal in their given order |
| Sorting.StringLeIff | scripts/mining/generate_gomod.py:82-83 | a string comes before another if and only if it is a prefix of it or has the smaller character where they first differ |

## Left out

- The container runtime: a backend hands out fresh ids and may fail; exec, copy, networking and the contents of containers are not modelled.
- Safety.RuntimeBound: an id counts as removed once Remove was called on it, whether or not the runtime reported an error.
- Ids are natural numbers; they and the container records stand one for one, since the runtime's ids are fresh.
- A send to a waiting receiver is a park followed by a take, so the protocol also has runs in which another worker takes the container first.
- PoolObject.PoolObject.Acquire: runs alone, so what other threads may do during the wait is in the protocol only, and cancellation may come at any time.
- PoolObject.PoolObject.Close: iterates over the registry in an arbitrary order, as the source's map does, and only names the failed id, not the error.
- Wakeup.NoLostWakeup: says that each occupant can end the wait, not that one will; scheduling fairness is not modelled.
- Sandbox.WrapWithTimeout: rounds up exact nanoseconds; the source goes through a floating-point number of seconds.
- Layering.NeverReapedIff: all the time around the stages, with the delay until a kill at the limit is reported, is one overhead; the API-level timeout of `internal/sandbox/sandbox.go` only bounds it.
- Schedule.TakenByNextSweep: bounds the start of the sweep that takes the id; the kill follows within that sweep, after the kills before it, and the scheduling of the sweep goroutine is not timed.
- Environment.Env.Verify: the time to get a container is a parameter, and what the two stages print is part of their given outcomes.
- Environment.Env.Close: waiting for the reaper and closing the client are not effects here; their order is proved of the protocol.
- Bench.RefinesSequentialMap: verifyOne is a function of the index; its calls into the environment are not part of this statement.
- RustDiagnostics.ParseRust: decoding one JSON line is a function parameter, and so is the rejection of a malformed line.
- GoDiagnostics.ParseGo: text is a sequence of characters; invalid UTF-8 is not modelled.
- Prevalence.ComputeCurve: the order of packages with equal counts and the version statistics are not stated, and prevalence is an exact fraction.
- Split.Build: Python's int() and the two shuffles are function parameters, the 80 % cut is exact, and a record's other fields are one payload.
- GoMod.ParseDirectDeps: starts from the text; fetching it is not modelled.
- `internal/reward`, `internal/dataset`, the command line, the seccomp profile, the images and the remaining scripts: they would only add easy members.
