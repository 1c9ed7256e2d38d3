# CHORUS: a verified model of its bandwidth control

CHORUS keeps many training jobs from flooding a shared parallel file system (PFS).
Each node's trainer saves checkpoints locally and hands them to the node's migrater.
The migrater sends heartbeats to the orchestrator, which answers each with a rate;
a token bucket copies the checkpoint to the PFS at that rate. This project models
that chain and proves what it guarantees over all clocks, rates, interleavings and runs.

How the modules build on each other:

- `TokenBucket`, `TokenBucketLaws`, `ProgressReports`: the copy loop as a method on a
  file, proved equal to a step function over arbitrary clock and rate readings, and the
  laws of that function: conservation, rate and burst limits, total correctness, reports.
- `Cluster`, `Policies`, `Orchestrator`: the registry and the servicer as classes, the
  five sharing policies. `PolicyLaws` is about one snapshot, `PriorityLaws` gives the rates
  in terms of the epochs, sizes and times that heartbeats report; `OvershootLaws` and
  `ConvergenceLaws` are about every run of heartbeats and disconnects, in which all
  grants but one are stale after each step.
- `BandwidthCeiling`, `InstalledRates`: policies, runs, migraters and token buckets
  together, as a bound on the bytes that the workers that share the bandwidth in the
  registry write to the PFS, one copy each, from the moment their grants take effect, and
  on what copies of other workers add to it.
- `Progress`, `Migrater`, `ShutdownLaws`, `AnswerLaws`, `CompletionLaws`, `HeartbeatLaws`:
  the migrater's service, its transfers, flags, answers, rates, shutdown and heartbeats
  over all runs.
- `PendingAge`, `PermissionLaws`: migrater and orchestrator together, as the pending age
  from the copy loop's reports through the lossy buffer and the heartbeats to the
  registry, and the way from a notification through the answers to its heartbeats to the copy.
- `Checkpoint`, `CrashSafety`, `Trainer`: the two alternating checkpoint slots, crash
  safety over all runs of saves and failures, and the training loop that drives them.
- `Fairness`, `FairnessFloor`: Jain's index, and how unfair a weighted policy can be.
- `AlignSeries`, `Schedule`: the carry-forward alignment of bandwidth series, and the
  time that a piecewise rate schedule needs.
- `Arith`, `Sums`, `Common`: arithmetic, sums over maps, shared types.

Rates, tokens, sizes and times are exact reals; bytes are `bv8`. Clocks, rates read
from outside, file sizes and failures are inputs. A heartbeat, a handled instruction
and a section under a lock are one atomic step each.

## What the proofs say about the code

Where a promise fails for some input, the code is kept as it is, a lemma gives such an
input, and another gives the exact condition under which the promise holds.

- **Departed workers.** The end of a heartbeat stream removes the worker from the registry
  and leaves its copy and its rate alone, so its share is given away a second time
  (`DepartedKeepsGrant`, `DepartedKeepsCopying`). `CeilingCoversIff` says exactly when the
  ceiling holds for such workers too; `CeilingWithOthers` bounds what they add.
- **Final report.** The forced last report is dropped when the clock has not moved since
  the report before it (`FinalReportSkipped`), so a finished copy can look unfinished and
  its worker stays active. `FinalReport` and `PendingClears` say exactly when not.
- **Leftover progress.** Progress of an old transfer overwrites a new checkpoint's pending
  size (`LeftoverSendsZero`; exactly when: `FirstHeartbeat`). If it says that nothing
  remains, the orchestrator answers HOLD and the new checkpoint never starts until
  another notification or EXIT (`LeftoverStarves`). `FirstAnswerStarts` says exactly when
  the first answer lets it start.
- **Rate after EXIT.** EXIT can leave a running transfer at rate 0, which then neither
  writes nor ends (`ExitCanStall`, `ZeroRateNeverEnds`; exactly when: `RateAfterExit`).
- **Completion.** It can be signalled while an accepted transfer is unfinished: by EXIT
  (`ExitAbandonsWaiting`), although the comment at src/migrater/server.py:146-147
  announces that such a transfer may start, by an interrupt (`InterruptAbandonsWaiting`),
  by the end of the stream (`StreamAbandonsWaiting`) and by the first of two copies to
  end (`EndAbandonsOther`). `DrainedIffNoneAbandoned` is the exact condition, by the
  guards of the steps that can do it.
- **Concurrent transfers.** Two notifications before the first permission are both
  accepted and both copy (`TwoTransfers`). `OneTransferIffSequential` is the exact condition.
- **Withdrawn permission.** A notification withdraws the permission, but a transfer that is
  already past its wait starts all the same (`ReleasedStillStarts`). No others do
  (`CopyNeedsPermission`).
- **Overwritten checkpoints.** The client discards `ok`, so a rejected notification still
  advances the trainer's epoch and slot; the next copy then truncates the only complete
  checkpoint (`LostHandoffUnsafe`). A failed copy does the same (`FailedCopyUnsafe`), and
  so do a transfer overtaken by two fallbacks (`OvertakenCopyUnsafe`) and the third of
  several transfers (`SeveralTransfersUnsafe`). `SafeIffOddStarts` is the exact condition
  for crash safety, for any number of transfers at once.
- **Zero-size progress.** The heartbeat's log line divides by the total size, so progress
  of an empty file ends the heartbeat stream (`EmptyFileEndsStream`), and no checkpoint
  accepted after that ever starts copying (`EmptyFileStrandsLater`). `PassSendsIff` says
  exactly when a pass sends; with nonempty files all do (`NonemptyFilesAlwaysSend`).

Where code and documentation disagree, the model follows the code:

- docs/implemented_policies.md:243 says that floor 0 grants rate 0 at epoch 0; the weight
  is at least EPS (src/orchestrator/scheduler.py:333), so the rate is positive
  (`EpochNoStarvation`).
- The docstring of `token_bucket_copy` says that the throughput is asserted positive and
  that a chunk is 8 KB; the code accepts 0 as a pause, and the default chunk is 8 MiB.
- `expected_copy_time` in src/migrater/token_bucket.py:202-204 is size over throughput;
  a finished copy has needed one further chunk's worth of tokens (`RateLimit`).

## Model

| member | source | states |
|---|---|---|
| `TokenBucket.TokenBucketCopy` | src/migrater/token_bucket.py:26-195 | the copy loop: the destination is left alone when the source is missing, truncated before the argument assertions, and otherwise the outcome of the step function over all clock and rate readings |
| `TokenBucket.RunFrozen` | src/migrater/token_bucket.py:145-182 | a copy that has ended is not changed by later readings |
| `TokenBucketLaws.StepConserves` | src/migrater/token_bucket.py:146-187 | any one iteration keeps the destination a prefix of the source and creates no tokens: bytes written, balance and discards account for what the rate was worth |
| `TokenBucketLaws.IterationExact` | src/migrater/token_bucket.py:146-187 | what every iteration does to clock, balance, bytes and destination, in numbers: the refill is clamped at the larger of rate and chunk size, a read needs a whole chunk of tokens and takes a chunk or what is left of the file |
| `TokenBucketLaws.TokenConservation` | src/migrater/token_bucket.py:139-189 | over every clock and every changing or pausing rate, bytes copied + tokens + discarded = sum of rate times elapsed, with 0 <= tokens <= capacity and the destination a prefix of the source |
| `TokenBucketLaws.FailsOnNegativeRate` | src/migrater/token_bucket.py:150-151 | the in-loop assertion fails in exactly the iteration that samples a negative rate, before writing |
| `TokenBucketLaws.RateLimit` | src/migrater/token_bucket.py:144-187 | with all rates at most r, at most r bytes per second are written; a copy that has ended has been worth size + chunk_size |
| `TokenBucketLaws.BurstLimit` | src/migrater/token_bucket.py:153-187 | any window of iterations writes at most one capacity plus what its later iterations were worth, whatever the rate does inside it |
| `TokenBucketLaws.WindowLimit` | src/migrater/token_bucket.py:144-187 | once no sampled rate exceeds r any more, whatever was sampled before, at most r bytes per second are written on top of the balance, or of one capacity at rate r if that is less |
| `TokenBucketLaws.WritesFillChunks` | src/migrater/token_bucket.py:180-187 | every write but the last is a whole chunk, so w writes leave w chunks or the whole file |
| `TokenBucketLaws.ProgressMeasure` | src/migrater/token_bucket.py:153-187 | the measure behind termination: iterations that neither pause nor write have filled the bucket, which the clamp at max(rate, chunk_size) does not prevent |
| `TokenBucketLaws.CopyTerminates` | src/migrater/token_bucket.py:144-193 | total correctness: if every waiting iteration is worth at least q > 0, the loop ends within an explicit number of iterations and the destination equals the source |
| `ProgressReports.StepReporter` | src/migrater/token_bucket.py:153-195 | the reporter is called once per iteration, forced on a pause and at the end only |
| `ProgressReports.ReportsSound` | src/migrater/token_bucket.py:84-126 | every report's average throughput is at most the greatest rate, copied + remaining = total, bytes never decrease, and interval throughputs times intervals sum to the bytes last reported |
| `ProgressReports.ReportsExact` | src/migrater/token_bucket.py:89-126 | every field of every report of every run is what its name says, measured from the report before and from the start of the copy, and an iteration reports iff there is a callback, the clock has moved, and a pause or the end forces it or the interval has passed |
| `ProgressReports.FinalReport` | src/migrater/token_bucket.py:98-102 | the last report of a finished copy says that nothing remains if and only if the clock had moved since the report before, or that one was already complete |
| `ProgressReports.FinalReportSkipped` | src/migrater/token_bucket.py:101-102 | a finished copy whose last report shows a byte remaining |
| `Cluster.ClusterState.Update` | src/orchestrator/scheduler.py:44-73 | registers the heartbeat under its id and keeps, opens or clears pending_since |
| `Cluster.ClusterState.Remove` | src/orchestrator/scheduler.py:75-77 | forgets the worker, and is harmless for an unknown one |
| `Cluster.ReplayIsLatest` | src/orchestrator/scheduler.py:44-77 | after any history a worker is registered iff its latest event is an update, which its entry reflects, and pending_since is set iff its size is positive |
| `Cluster.PendingSinceOpensRun` | src/orchestrator/scheduler.py:52-63 | pending_since is the time of the update that opened the current unbroken run of positive sizes since registration |
| `Cluster.OpensRunOnce` | src/orchestrator/scheduler.py:52-63 | that update is unique |
| `Cluster.AgesNonnegative` | src/orchestrator/scheduler.py:52-73 | on a clock that never goes back, no pending age is negative |
| `Policies.WeightsOf` | src/orchestrator/scheduler.py:202-333 | the weights of all active workers, computed from one snapshot at one clock reading |
| `Policies.DecideInstruction` | src/orchestrator/scheduler.py:141-353 | the decision of each policy, its total taken by a loop in any order of the workers |
| `PolicyLaws.GrantIsShare` | src/orchestrator/scheduler.py:141-353 | every policy grants a sharer exactly bandwidth * weight / total weight, with the weight positive |
| `PolicyLaws.HoldIffInactive` | src/orchestrator/scheduler.py:160-166 | HOLD goes to exactly the workers without a pending checkpoint, under all policies but uniform-fair-share |
| `PolicyLaws.SharesSumToCeiling` | src/orchestrator/scheduler.py:141-353 | on one snapshot at one clock reading, all shares together are exactly the bandwidth |
| `PolicyLaws.Proportional` | src/orchestrator/scheduler.py:177-185 | two workers' rates are in the ratio of their weights |
| `PolicyLaws.StaticRatio` | src/orchestrator/scheduler.py:186-225 | a configured priority is honoured against a worker that is missing from the map or configured non-positive, which counts with the default |
| `PolicyLaws.WeightRange` | src/orchestrator/scheduler.py:261-333 | every weight lies between the policy's own two bounds |
| `PolicyLaws.EpochNoStarvation` | src/orchestrator/scheduler.py:327-353 | epoch-priority grants each of n active workers at least bandwidth * max(floor, EPS) / n |
| `PolicyLaws.EpochMonotone` | src/orchestrator/scheduler.py:298-309 | further progress never gets less, and strictly more for a floor from EPS to below 1 |
| `PolicyLaws.EpochEndpoints` | src/orchestrator/scheduler.py:304-333 | a job at its start gets max(floor, EPS) times the rate of a job at its end |
| `PolicyLaws.AgeNoStarvation` | src/orchestrator/scheduler.py:261-293 | age-priority grants each worker bandwidth * EPS / (n * max(alpha + beta, EPS)), the oldest beta and the largest alpha in place of EPS |
| `PolicyLaws.AgeMonotone` | src/orchestrator/scheduler.py:242-244 | at one clock reading a larger or older checkpoint never gets less |
| `PolicyLaws.CollapseToActiveFairShare` | docs/implemented_policies.md:137-245 | with floor 1, and with no configured priorities, the weighted policies decide as active-fair-share |
| `PriorityLaws.EqualShares` | src/orchestrator/scheduler.py:141-174 | under the fair-share policies any two sharers get the same rate |
| `PriorityLaws.EpochExact` | src/orchestrator/scheduler.py:327-353 | epoch-priority rates are in the ratio of floor + (1 - floor) * epoch / total, none below 0.000001, with epochs and totals as reported |
| `PriorityLaws.EpochRatio` | src/orchestrator/scheduler.py:304-309 | the same without division, for a floor of at least 0.000001 and epochs within their totals |
| `PriorityLaws.EpochClamped` | src/orchestrator/scheduler.py:311-332 | a worker without a total or with a negative epoch gets the rate of epoch 0, and one past its total the rate of its end |
| `PriorityLaws.AgeExact` | src/orchestrator/scheduler.py:228-293 | in every run age-priority rates are in the ratio of alpha * size / largest size + beta * wait / longest wait, none below 0.000001, each wait counting from the heartbeat that made the checkpoint pending |
| `PriorityLaws.EarlierGetsMore` | src/orchestrator/scheduler.py:242-244 | of two checkpoints of one size the one pending for longer gets strictly more iff its term exceeds 0.000001 |
| `Orchestrator.OrchestratorService.Heartbeat` | src/orchestrator/server.py:81-141 | one pass of Monitor: registers first, then EXIT with its fixed rate once shutting down, otherwise the decision on the fresh snapshot |
| `Orchestrator.OrchestratorService.StreamEnd` | src/orchestrator/server.py:143-145 | the end of a stream removes its worker, unless none was ever named |
| `OvershootLaws.OrderCapped` | src/orchestrator/server.py:81-145 | in every reachable state the sharers, oldest grant first, hold grants within the cap of their position: the k-th saw at least k other weights |
| `OvershootLaws.StaleGrantOvershoot` | src/orchestrator/server.py:81-145 | in every reachable state of every policy, with weights in [lo, hi], the last-granted rates of the n sharers sum to at most the sum over k < n of bandwidth * hi / (hi + k * lo) |
| `OvershootLaws.BoundsExist` | src/orchestrator/scheduler.py:177-353 | such weight bounds exist for every policy the constructors accept |
| `OvershootLaws.FairShareOvershoot` | src/orchestrator/scheduler.py:141-174 | under the fair-share policies stale grants sum to at most bandwidth * (1 + 1/2 + ... + 1/n) |
| `OvershootLaws.FairShareOvershootReached` | src/orchestrator/scheduler.py:141-174 | for every n some run reaches that bound exactly |
| `ConvergenceLaws.GrantCurrent` | src/orchestrator/scheduler.py:160-353 | a worker that has heartbeated since sharers and weights last changed, by the very heartbeat that changed them or later, holds exactly its share, under age-priority at the clock reading of its latest heartbeat |
| `ConvergenceLaws.AnyBeat` | src/orchestrator/scheduler.py:160-353 | apart from age-priority any heartbeat since then will do |
| `ConvergenceLaws.Reconverged` | src/orchestrator/scheduler.py:141-353 | once every sharer has, in any run, the last-granted rates sum to exactly the bandwidth; under age-priority when their latest decisions were taken at one common clock reading |
| `ConvergenceLaws.InstalledAfterReconvergence` | src/migrater/server.py:128-136 | the rates installed after truncation then sum to at most the bandwidth and to more than it minus n |
| `ConvergenceLaws.RunReplays` | src/orchestrator/server.py:81-145 | the registry of a run is the replay of its updates and removals |
| `Arith.IntTruncates` | src/migrater/server.py:130 | the installed rate is the whole number next to the grant on the side of zero |
| `ConvergenceLaws.AgeNoStarvationInRuns` | src/orchestrator/scheduler.py:261-293 | in every run on a clock that never goes back, age-priority starves no active worker: the EPS, beta and alpha bounds of one snapshot hold |
| `BandwidthCeiling.WithinGrant` | src/migrater/server.py:128-131 | since its grant took effect a copy has written at most that grant per second, plus the balance it carried, at most one capacity and nothing for a copy that started since |
| `BandwidthCeiling.CeilingAfterReconvergence` | src/orchestrator/scheduler.py:141-353 | once the grants have re-converged, the workers that share the bandwidth in the registry, one copy each, write, from when each has its new rate, at most bandwidth * elapsed bytes plus the balances that running copies carried, whatever rates they saw before; without the balances for copies that started since |
| `BandwidthCeiling.CeilingWhileStale` | src/orchestrator/scheduler.py:141-174 | at any time under fair share, stale grants included, the workers that share the bandwidth in the registry, one copy each, write since their present grants took effect at most H(n) * bandwidth * elapsed bytes plus the carried balances |
| `BandwidthCeiling.DepartedKeepsGrant` | src/orchestrator/server.py:143-145 | a run after which a departed worker and the only registered one each hold the whole bandwidth |
| `BandwidthCeiling.CeilingCoversIff` | src/orchestrator/server.py:81-145 | after re-convergence the rates of any workers that include the sharers sum to at most the bandwidth iff all the others hold grant 0 |
| `BandwidthCeiling.CeilingWithOthers` | src/orchestrator/server.py:81-145 | in bytes, copies of the other workers add at most their last grants to the ceiling |
| `BandwidthCeiling.StaleCeilingWithOthers` | src/orchestrator/server.py:81-145 | the same while grants are stale |
| `InstalledRates.FollowsWithin` | src/migrater/server.py:128-206 | a copy that samples its migrater's current rate obeys the grant from its arrival on, however the migrater's run goes on without another instruction than HOLD |
| `InstalledRates.CeilingOfMigraters` | src/migrater/server.py:106-218 | grants, migraters and copies end to end: the workers that received their last grants have written since at most elapsed * (bandwidth + grants of those that no longer share it) bytes, plus the carried balances |
| `InstalledRates.DepartedKeepsCopying` | src/migrater/server.py:106-123 | the end of its stream leaves a worker's copies and their rate alone, and no instruction changes that any more |
| `BandwidthCeiling.GrantsNonnegative` | src/orchestrator/scheduler.py:141-353 | no grant of any run is negative |
| `Progress.ProgressBuffer.Add` | src/migrater/progress.py:27-50 | appends, dropping the oldest event of a full buffer |
| `Progress.ProgressBuffer.Pop` | src/migrater/progress.py:52-62 | takes all events out in order |
| `Progress.AddAllKeepsNewest` | src/migrater/progress.py:10-11 | however many events are added, exactly the newest survive, in order |
| `Migrater.MigraterService.NotifyCheckpointSaved` | src/migrater/server.py:155-189 | rejects during shutdown or an active transfer, raises on a missing file, otherwise withdraws permission, records size and epoch and starts a waiting transfer |
| `Migrater.MigraterService.PassWait` | src/migrater/server.py:195-197 | a waiting transfer gets past its wait while permission is given |
| `Migrater.MigraterService.BeginTransfer` | src/migrater/server.py:199-200 | a transfer past its wait becomes active, whatever has happened to the permission since |
| `Migrater.MigraterService.EmitProgress` | src/migrater/server.py:203-209 | an active copy's reports go to the bounded buffer |
| `Migrater.MigraterService.EndTransfer` | src/migrater/server.py:210-218 | the finally block: inactive, rate 0, and completion when shutdown was requested |
| `Migrater.MigraterService.Heartbeat` | src/migrater/server.py:46-123 | drains the buffer; the latest progress overrides the pending size, and one with an empty total raises, which ends the stream |
| `Migrater.MigraterService.HandleInstruction` | src/migrater/server.py:125-153 | installs truncated rates, permits transfers, and on EXIT requests shutdown, replaces a blocking rate and leaves the loop |
| `Migrater.MigraterService.StreamEnd` | src/migrater/server.py:116-123 | ends the stream once, and completes a requested shutdown that has nothing active or pending |
| `Migrater.MigraterService.Interrupt` | src/migrater/server.py:254-263 | requests shutdown and completes it when nothing is active or pending |
| `ShutdownLaws.CompleteImpliesRequested` | src/migrater/server.py:117-218 | in every run, completion implies a request |
| `ShutdownLaws.FlagsStay` | src/migrater/server.py:156-175 | neither flag is ever cleared, and after the request no notification is accepted and the number of unfinished transfers never grows |
| `ShutdownLaws.TransfersDistinct` | src/migrater/server.py:183-218 | in every run unfinished transfers are at one stage each and the next one's number is new |
| `ShutdownLaws.CopyNeedsPermission` | src/migrater/server.py:177-200 | an accepted transfer keeps waiting and rate 0 stays 0 before a fresh instruction other than HOLD; only transfers already past their wait can still start |
| `ShutdownLaws.ReleasedStillStarts` | src/migrater/server.py:195-200 | a run in which one does after a later notification has withdrawn the permission |
| `ShutdownLaws.EndedStreamStrands` | src/migrater/server.py:106-123 | once the heartbeat stream has ended, the transfer of an accepted checkpoint waits forever, whatever happens |
| `ShutdownLaws.GrantStaysInstalled` | src/migrater/server.py:128-214 | without a further instruction a truncated grant stays the rate exactly until a transfer ends, and is 0 from then on |
| `ShutdownLaws.RequestsDuringTransfer` | src/migrater/server.py:138-144 | neither EXIT nor an interrupt completes the shutdown while a transfer is active |
| `ShutdownLaws.ShutdownWaitsForSoleTransfer` | src/migrater/server.py:210-218 | after such a request, completion is signalled exactly when the sole transfer has reached its finally block |
| `ShutdownLaws.RateAfterExit` | src/migrater/server.py:106-149 | no instruction is handled after EXIT: the rate it left stays exactly until a transfer ends, and is positive up to then iff it already was, or bytes were pending and the limit is not negative |
| `ShutdownLaws.ExitRatePositive` | src/migrater/server.py:146-149 | the guard under which EXIT leaves a positive rate |
| `ShutdownLaws.ZeroRateNeverEnds` | src/migrater/token_bucket.py:153-157 | a copy that only sees rate 0 neither writes nor ends |
| `ShutdownLaws.ExitCanStall` | src/migrater/server.py:138-151 | a run in which EXIT leaves the sole transfer at rate 0 |
| `ShutdownLaws.ExitCompletes` | src/migrater/server.py:138-218 | after EXIT, completion is signalled at once if no transfer is active, even if one waits, and otherwise exactly when a transfer reaches its finally block |
| `ShutdownLaws.ExitAbandonsWaiting` | src/migrater/server.py:143-151 | a run in which EXIT completes the shutdown with an accepted checkpoint uncopied |
| `ShutdownLaws.OneTransferIffSequential` | src/migrater/server.py:166-200 | at most one transfer is unfinished at every point of a run iff no notification is accepted before an earlier one's transfer has begun to copy |
| `ShutdownLaws.TwoTransfers` | src/migrater/server.py:166-200 | a run with two concurrent copies |
| `AnswerLaws.FlagsAre` | src/migrater/server.py:125-218 | in every run shutdown is requested iff EXIT or an interrupt has come, a transfer is marked active iff one has begun since the last one ended, and permission stands iff an instruction other than HOLD has come since the last accepted notification |
| `AnswerLaws.StagesAre` | src/migrater/server.py:183-218 | in every run each transfer waits from its notification until it passes its wait with permission, then is past it until it begins, and copies until it ends |
| `AnswerLaws.NotifyAnswers` | src/migrater/server.py:155-189 | in every run a notification raises iff its file is missing and no shutdown was asked for, and is rejected iff shutdown was asked for or its file exists and a transfer is marked active |
| `AnswerLaws.ActiveMeansCopying` | src/migrater/server.py:199-212 | with one transfer at a time, marked active means copying |
| `AnswerLaws.NoneRaises` | src/migrater/server.py:160-164 | in a run whose files all exist no notification raises |
| `AnswerLaws.HeartbeatSaysMigrating` | src/migrater/server.py:49-98 | a heartbeat says that its worker is migrating iff a transfer has begun since the last one ended |
| `AnswerLaws.ChangeRateInstalls` | src/migrater/server.py:133-136 | CHANGE_RATE gives permission and installs its truncated rate, 0 for a negative one, until a transfer ends |
| `AnswerLaws.ExitInstalls` | src/migrater/server.py:138-149 | EXIT keeps the rate, but replaces one of at most 0 with bytes pending by its truncated limit, or by 500000000 when that is 0, until a transfer ends |
| `AnswerLaws.OrchestratorExit` | src/orchestrator/server.py:92-96 | after the orchestrator's own EXIT a migrater with bytes pending keeps its positive rate or gets 500000000 bytes per second, until a transfer ends |
| `CompletionLaws.CompleteIff` | src/migrater/server.py:116-265 | in every run the shutdown is complete iff one of the completing steps has been taken: EXIT with no transfer active, an interrupt or the end of the stream with none active and nothing pending, or the end of a transfer after a request |
| `CompletionLaws.AbandonStep` | src/migrater/server.py:116-265 | completion is first signalled over an unfinished transfer by exactly five steps: EXIT, an interrupt, the end of the stream and a raising pass while none is marked active, all but EXIT with nothing pending, and the end of one of several transfers |
| `CompletionLaws.DrainedIffNoneAbandoned` | src/migrater/server.py:116-265 | in every run, completion never precedes the end of an accepted transfer iff no event of the run is such a step |
| `CompletionLaws.SequentialAbandons` | src/migrater/server.py:116-265 | with one transfer at a time only one that has not begun to copy can be abandoned, and never by the end of a transfer |
| `CompletionLaws.InterruptAbandonsWaiting` | src/migrater/server.py:254-263 | a run without EXIT in which an interrupt completes the shutdown with an accepted checkpoint uncopied |
| `CompletionLaws.StreamAbandonsWaiting` | src/migrater/server.py:116-123 | a run in which the end of the stream does |
| `CompletionLaws.EndAbandonsOther` | src/migrater/server.py:210-218 | a run in which the first of two copies to end does |
| `HeartbeatLaws.BufferHoldsNewest` | src/migrater/server.py:34-63 | in every run the buffer holds exactly the newest 128 reports since the latest pass |
| `HeartbeatLaws.PassSendsIff` | src/migrater/server.py:46-102 | in every run a pass sends those reports iff there are none or the last is of a nonempty file; otherwise the stream ends |
| `HeartbeatLaws.StreamOpenIff` | src/migrater/server.py:106-123 | the stream is open iff no failure, no EXIT and no raising pass has come |
| `HeartbeatLaws.NonemptyFilesAlwaysSend` | src/migrater/server.py:46-102 | if all accepted files are nonempty and reports carry their sizes, every pass of every run sends, and only a failure or EXIT ends the stream |
| `HeartbeatLaws.EmptyFileEndsStream` | src/migrater/server.py:70-80 | a run in which the progress of an empty file ends the stream |
| `HeartbeatLaws.EmptyFileStrandsLater` | src/migrater/server.py:70-123 | however that run goes on, the transfer of any checkpoint accepted later waits forever |
| `PendingAge.HeartbeatSendsLatest` | src/migrater/server.py:46-102 | from a drained buffer on, every heartbeat sends what the latest report says remains, however many reports were dropped, with the notified epoch |
| `PendingAge.HeartbeatCarriesNotification` | src/migrater/server.py:95-102 | after an accepted notification heartbeats carry its epoch and total, and its file's size until a report says what is left; rejected notifications change nothing of it |
| `PendingAge.SizesNonincreasing` | src/migrater/server.py:58-98 | the sizes sent start at the file size at most and never increase |
| `PendingAge.FirstHeartbeat` | src/migrater/server.py:58-63 | the first heartbeat after a notification sends the new size iff no other size is left in the buffer |
| `PermissionLaws.AnswerPermits` | src/orchestrator/server.py:81-141 | under every policy but uniform-fair-share a heartbeat is answered with a permission iff it reports bytes pending, on any registry |
| `PermissionLaws.FirstAnswerStarts` | src/migrater/server.py:58-200 | the answer to the first heartbeat after a notification lets that transfer start iff the heartbeat reports bytes: the leftover progress, or with a drained buffer the file's size |
| `PermissionLaws.LeftoverStarves` | src/migrater/server.py:58-200 | if it reports none while nothing copies, no answer to a later heartbeat ever lets the checkpoint start, until another notification or EXIT |
| `PermissionLaws.LeftoverSendsZero` | src/migrater/server.py:58-63 | a run after which an accepted checkpoint of 16 bytes is reported as nothing pending |
| `PendingAge.PendingClears` | src/migrater/token_bucket.py:101-195 | after the copy a heartbeat sends 0 iff the file was empty, the clock had moved before the final report, or the report before was complete |
| `PendingAge.PendingSinceFirst` | src/orchestrator/scheduler.py:52-73 | while nonincreasing sizes are positive, pending_since is the time of the first of them |
| `PendingAge.PendingAgeEndToEnd` | src/migrater/server.py:46-102 | copy loop, lossy buffer, heartbeats and registry together: pending_since stays the time of the checkpoint's first heartbeat until one reports 0 |
| `Checkpoint.AltPathDiffers` | src/torch_ext/checkpoint.py:40-56 | the alternate path always differs from the primary one, which its parts make up |
| `Checkpoint.AltPathExact` | src/torch_ext/checkpoint.py:40-56 | "_alt" goes before the last dot of the name if something stands on both sides of it, and otherwise at the end |
| `Checkpoint.Checkpoint.constructor` | src/torch_ext/checkpoint.py:70-110 | two distinct paths, epoch 0, primary first |
| `Checkpoint.Checkpoint.FallbackSave` | src/torch_ext/checkpoint.py:134-183 | the target changes at once to the whole content or not at all; a failure leaves at most a temporary file |
| `Checkpoint.Checkpoint.SaveHandler` | src/torch_ext/checkpoint.py:185-235 | falls back only when the notification raises, and advances the epoch iff one of the two succeeds |
| `Checkpoint.Checkpoint.Save` | src/torch_ext/checkpoint.py:237-281 | keeps the alternate flag equal to the epoch's parity; a save that succeeds switches the target, one that raises changes nothing |
| `CrashSafety.NumbersAreSaves` | src/torch_ext/checkpoint.py:212-233 | checkpoint numbers count saves: n is the n-th successful save of the run |
| `CrashSafety.SafeStep` | src/torch_ext/checkpoint.py:267-277 | one step keeps a safe state safe iff it does not start a copy an even number of saves from the newest completed checkpoint |
| `CrashSafety.SafeIffOddStarts` | src/torch_ext/checkpoint.py:210-277 | over any run of handoffs, lost handoffs, fallbacks and failures, with any number of transfers at once, the newest completed checkpoint is intact at every instant iff every copy starts an odd number of saves away from it |
| `CrashSafety.WrittenSlotTorn` | src/migrater/token_bucket.py:144-187 | in every run the file of a slot that a transfer is writing is no complete checkpoint |
| `CrashSafety.DisciplinedKeepsUp` | src/torch_ext/checkpoint.py:59-68 | when every copy finishes before the next handoff, with at most one fallback in between, the newest completed checkpoint is at most one save old |
| `CrashSafety.TwoSlotSafety` | src/torch_ext/checkpoint.py:59-68 | the promise of the two slots: under that discipline the newest completed checkpoint is intact at every instant and never the one being rewritten |
| `CrashSafety.LostHandoffUnsafe` | src/protocol/migrater/client.py:12-22 | one rejected notification suffices to overwrite the only complete checkpoint |
| `CrashSafety.FailedCopyUnsafe` | src/torch_ext/checkpoint.py:267-277 | so does one failed copy |
| `CrashSafety.OvertakenCopyUnsafe` | src/torch_ext/checkpoint.py:227-233 | so does a transfer that two fallbacks have overtaken |
| `CrashSafety.SeveralTransfersUnsafe` | src/migrater/server.py:166-200 | so does the third of several transfers accepted before the first has begun to copy |
| `Trainer.Train` | src/train/trainer.py:56-106 | training ends; without a raising save after exactly max_steps steps, with a save at each multiple of the interval; it raises iff a due save does |
| `Trainer.SaveStepsAreMultiples` | src/train/trainer.py:81-100 | there are total_steps // interval saves, the k-th at k times the interval |
| `Trainer.EpochWithinTotal` | src/train/train.py:146-150 | the reported epoch never exceeds the total computed for the run |
| `Trainer.ProgressUnclamped` | src/orchestrator/scheduler.py:327-333 | so epoch-priority's upper clamp never changes a trainer-driven worker's progress |
| `Fairness.PositivesKeep` | benchmarks/e2e/collect.py:51 | the filter keeps exactly the entries that are present, not NaN and positive, in their order |
| `Fairness.PositivesSplit` | benchmarks/e2e/collect.py:51 | it goes entry by entry |
| `Fairness.JainFairnessBounds` | benchmarks/e2e/collect.py:50-55 | NaN iff no entry is a positive number, otherwise from one over their number to 1, and 1 iff all positive entries are equal |
| `Fairness.GapOfEqualEntries` | benchmarks/e2e/collect.py:54-55 | Cauchy-Schwarz: the squared sum is at most n times the sum of squares, equal only for equal entries |
| `Fairness.JainBounds` | benchmarks/e2e/collect.py:50-55 | 1/n <= index <= 1, and 1 iff all entries are equal |
| `Fairness.JainIsMeanOverVariance` | benchmarks/e2e/collect.py:54-55 | the index is the squared mean over the squared mean plus the variance |
| `Fairness.JainScale` | benchmarks/e2e/collect.py:50-55 | positive scaling leaves the index alone |
| `Fairness.JainPermutation` | benchmarks/e2e/collect.py:50-55 | so does any permutation |
| `Fairness.JainRangeFloor` | benchmarks/e2e/collect.py:50-55 | entries in [m, M] have an index of at least 4mM / (m + M)^2 |
| `FairnessFloor.GrantsFairness` | src/orchestrator/scheduler.py:141-353 | under every policy the rates granted on one snapshot have an index of at least 4 lo hi / (lo + hi)^2 for its weight bounds lo and hi |
| `FairnessFloor.EpochFairness` | src/orchestrator/scheduler.py:327-353 | epoch-priority has an index of at least 4g / (1 + g)^2 with g = max(floor, EPS) |
| `AlignSeries.StableSortIsStable` | benchmarks/e2e/plot_accumulated_bw.py:114 | the sort by time is sorted, a permutation, and keeps the order of equal times |
| `AlignSeries.LatestRateOf` | benchmarks/e2e/plot_accumulated_bw.py:101-102 | the carried rate is that of the worker's latest event |
| `AlignSeries.NoRateYet` | benchmarks/e2e/plot_accumulated_bw.py:116 | and 0 before its first event |
| `AlignSeries.EventPosition` | benchmarks/e2e/plot_accumulated_bw.py:107-112 | before sorting each pair stands after all pairs of earlier workers, in the order of its own series |
| `AlignSeries.BuildEvents` | benchmarks/e2e/plot_accumulated_bw.py:107-112 | the events of all workers, longer lists cut off as zip does |
| `AlignSeries.Align` | benchmarks/e2e/plot_accumulated_bw.py:94-128 | every sample of every worker is its latest rate at that position of the stable time order, 0 before its first; an empty list raises |
| `AlignSeries.TimelineFromZero` | benchmarks/e2e/plot_accumulated_bw.py:105-123 | the timeline starts at 0 and never goes back |
| `AlignSeries.Accumulate` | benchmarks/e2e/plot_accumulated_bw.py:135-156 | line k minus line k-1 is exactly worker k's line; raises iff a line is longer than one below it |
| `Schedule.ExpectedCopyTime` | tests/token_bucket.py:67-113 | the least time at which the schedule allows file_size bytes; raises iff there is none |
| `Schedule.AllowedInPhase` | tests/token_bucket.py:71-74 | what a schedule allows by any time within a phase: all earlier phases in full and this one's rate since they ended |

## Left out

- gRPC channels, streams, threads and locks as such: each locked section, handled instruction and heartbeat is one atomic step, and the two halves of a transfer's finally block are one step.
- Real file access, fsync, permission probes, directory creation and pathlib's path normalisation: a file is a byte sequence, truncated on opening and replaced atomically.
- Sleep lengths: they only decide how far the clock advances, which is an input.
- Floating-point rounding: all arithmetic is over exact reals.
- `TokenBucket.TokenBucketCopy`: takes the source file as unchanged during the copy and a reporting interval as given when there is a callback; the wall-clock timestamp of a report is the monotonic clock's reading.
- `CrashSafety.SafeIffOddStarts`: takes the local file as unchanged while it is copied; the trainer names each step's local file differently (src/train/trainer.py:111-120).
- `Trainer.Train`: takes a positive interval and a nonempty batch source; with an empty source and steps left the code loops forever, and interval 0 raises.
- `ConvergenceLaws.Reconverged`: says nothing about age-priority grants decided at different clock readings, whose weights have moved in between; `OvershootLaws.StaleGrantOvershoot` bounds them.
- `BandwidthCeiling.CeilingAfterReconvergence`: counts the workers that share the bandwidth in the registry, with one copy each through the window; `BandwidthCeiling.CeilingWithOthers` adds other workers, and a worker's second copy at the same time is not counted.
- `PermissionLaws.LeftoverStarves`: takes the instructions of the run as answers to heartbeats sent in it; an answer still in flight when the checkpoint is accepted can permit it.
- The model of a run keeps the rates granted last, not the delay until a migrater installs them.
- The decision's second lookup by worker id and the registry's insertion order: no result depends on them.
- NoLimitPolicy and FixedRatePolicy: constants.
- The priority-map loader, command lines, logging, metrics and size formatting: plumbing.
- PyTorch, the profiler, models and datasets, `torch.save`: outside code.
- The job-id suffix of checkpoint names: it only changes the name that both paths derive from.
- Plots, log parsing, result aggregation, job scripts, benchmark drivers and `backup/`.
