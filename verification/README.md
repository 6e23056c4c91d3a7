# Verified model of the recovery experiments

This project models the parts of the repository that decide, on their own, whether an experiment is
safe and whether its numbers mean what they say, and proves properties of them over all inputs, all
runs and all crash points. `dafny verify dfyconfig.toml` checks the whole project.

| part | modules | repository file |
|---|---|---|
| exact statistics | Selection, Ranks, MannWhitney, Wilcoxon, Binomial, ClopperPearson | evaluation/graduation_analysis_decisions.py |
| fencing a single-writer volume | FencingWorld, FencingHistory, Fencing | experiments/graduation_s3.py, experiments/graduation_recovery.py |
| network-time lease | ClockGuard | evaluation/fresh_clock_guard.py |
| campaign attempts | CampaignData, Campaign | evaluation/fresh_campaign.py |
| deadlines | ReadBudget, PhaseAlarm | evaluation/fresh_read_budget.py, evaluation/fresh_transport.py, evaluation/fresh_operations.py |
| request metrics and quantiles | Quantile, RequestMetrics | evaluation/fresh_analysis.py, evaluation/graduation_evaluation_verify.py |
| load generator | OpenLoop | evaluation/fresh_evidence.py |
| stability scanners | Stability | evaluation/graduation_analysis_timeline.py, evaluation/graduation_evaluation_verify.py |
| relocation | Relocation | experiments/graduation_s1_auto.py |

## How it is modelled

Objects that the repository updates in place are classes with the same fields, and its loops are loops
proved against specification functions. `Options` and `Sequences` hold what several modules share. A command that touches the outside may end in three ways: with
an answer, with an exception, or with the process dying, and in the last two its effect may or may not
have happened. Whatever other threads or the cloud can do between two steps is a nondeterministic step.

Fencing. `FencingWorld` holds the cloud (VM power, reported status and task, volume, namespace, taints
with a resource version, fault chains, manifest) and the durable record. What the cloud may do by itself
is `Apply`; what the run may ask for is `Do`, and `Permitted` is the condition under which asking is
safe. `FencingHistory` proves that every history of such steps has a single writer. `Fencing.S3` has the
controller's own steps, in the order of the code, and each of its methods is proved to make permitted
requests only, with any number of cloud steps between its reads and its requests. Assumed of the cloud:
storage leaves the source gracefully once the namespace is going, by the out-of-service taint, or by the
controller manager's force detach when that is enabled; Nova may report a stop as done before the
hypervisor has powered the domain off, which is why the second proof of the fence is needed; and nobody
but the run starts the source VM or sets an out-of-service taint.

Lease. `ClockGuard` keeps three things apart: the file on disk, the service's memory and the machine's
setting. Its history holds every pair of file and setting that a crash could leave behind.

Campaign. `FreshCampaign` keeps memory and disk apart. Every process starts from the disk; a save may be
lost. What really happened is kept beside them: the executions with the record on disk at the moment of each, the
attempts whose measurement raised, and the attempts whose latest cleanup passed its readback.

Arithmetic. Ranks and expected values are doubled so that they are integers; p-values and bisection use
exact reals. The tolerances of the tests are kept, and proved never to change a comparison. Request times
are integer microseconds and read deadlines integer milliseconds.

## Where the code does not do what one would expect

- `min_possible_p` of the Mann-Whitney test is not a lower bound on p in general. [1] against [0,0] gives
  p = 1/3 and min_possible_p = 2/3. `MannWhitney.MinPossiblePExact` gives the exact condition; for equal
  group sizes it is a bound.
- `S3.cleanup` decides by the reported status alone whether to start the source VM. If the run died after
  its stop request was accepted, the VM may still be reported ACTIVE at both reads; the cleanup then closes
  the record and the VM powers off afterwards. `Fencing.S3.Cleanup` says exactly when the VM is up on return, and
  `FencingHistory.FirstRunCanLoseTheSource` gives a failing history for every initial state whose Machine has no
  skip annotation and whose manifest a run accepts.
- The refusals "fenced VM restarted externally" and "controller-manager configuration changed externally" cannot be
  reached unless another actor starts the VM or edits the manifest (`FencingHistory.FencedIsNeverActive`,
  `FencingHistory.ManifestIsKnown`).
- `RestoreService.request` accepts a release for a lease that has already ended and rewrites its reason to
  normal_release, so the client cannot tell (`ClockGuard.LateReleaseLooksNormal`). Continuity is therefore
  stated over the observed `protected` status.
- Only the last lease's token is refused, so continuity holds for tokens that are not used again
  (`ClockGuard.RestoreService.Live`, `ClockGuard.ReusedTokenBreaksContinuity`). The client draws them at random.
- A late release, and every stop of the service, restores once more what the last lease had found. A setting that the
  user has changed since is overwritten exactly when it differs (`ClockGuard.EndedLeaseOverwrites`).
- A phase alarm bounds its phases only if a raised timeout is not swallowed inside the phase: the phase then runs on
  without any alarm until it ends (`PhaseAlarm.SwallowExample` is one), and a phase entered meanwhile is within the
  bound exactly if its limit is within the floor (`PhaseAlarm.SpentTimerExtends`).
- `OpenLoopProbe.__exit__` stores `until` before `until_utc`. A loop that reads between the two stores may
  skip an arrival that is still before the wall bound (`OpenLoop.BoundsReadApart`).
- A bin that is complete with no sample divides by zero: exactly when no sample is demanded and some bin expects none
  and has none (`RequestMetrics.DividesExactly`; `RequestMetrics.DividesByZeroExample` is an input). A profile that
  passes evaluation/fresh_contract.py:72-77 demands an integer minimum above zero, so it cannot get there
  (`RequestMetrics.MinSamplesSuffice`); only a caller that skips that check can.

## Model

| member | source | states |
|---|---|---|
| Ranks.Ranks | evaluation/graduation_analysis_decisions.py:94-105 | the in-place tie-group loop gives every value twice the average of the places its tie group takes, which is twice the number of smaller values plus the number of equal ones plus one |
| Ranks.OrderAscending | evaluation/graduation_analysis_decisions.py:96 | the visiting order is sorted by value |
| Ranks.OrderPermutes | evaluation/graduation_analysis_decisions.py:96 | the visiting order is a permutation of the positions |
| Ranks.ScoreSumCounts | evaluation/graduation_analysis_decisions.py:98-104 | smaller, equal and larger values partition the list, and a doubled midrank counts the first twice and the second once |
| Ranks.RankTotal | evaluation/graduation_analysis_decisions.py:94-105 | midranks of N values total N(N+1)/2 for any ties |
| Ranks.RankSumIdentity | evaluation/graduation_analysis_decisions.py:109-111 | the rank sum of any selection is fixed by its size, plus its pairwise wins (ties half) over the rest |
| Selection.CombinationsMembers | evaluation/graduation_analysis_decisions.py:113 | the enumeration holds exactly the k-element selections |
| Selection.CombinationsDistinct | evaluation/graduation_analysis_decisions.py:113 | no selection is enumerated twice |
| Selection.ProductMembers | evaluation/graduation_analysis_decisions.py:129 | the sign enumeration holds exactly the n-bit assignments |
| Selection.ProductDistinct | evaluation/graduation_analysis_decisions.py:129 | no sign assignment is enumerated twice |
| Binomial.CombinationsCount | evaluation/graduation_analysis_decisions.py:113-117 | there are comb(n, k) selections, so the reported 2/comb(N, n) is 2 over the number of permutations |
| MannWhitney.SlackIsExact | evaluation/graduation_analysis_decisions.py:114 | the 1e-9 tolerance never includes or excludes a split that an exact comparison would not |
| MannWhitney.UCountsWins | evaluation/graduation_analysis_decisions.py:108-117 | u computed from rank sums is the number of pairs won plus half the pairs tied |
| MannWhitney.DeltaIsScaledU | evaluation/graduation_analysis_decisions.py:120-121 | Cliff's delta, counted pair by pair, is 2u/(nm) - 1 |
| MannWhitney.SwapSymmetry | evaluation/graduation_analysis_decisions.py:108-117 | swapping the groups makes the two u values sum to nm and leaves the exact p unchanged |
| MannWhitney.EqualGroupsFloor | evaluation/graduation_analysis_decisions.py:108-117 | for groups of equal size p is at least 2/C(2n,n), ties included |
| MannWhitney.MinPossiblePExact | evaluation/graduation_analysis_decisions.py:117 | for all sizes and ties: the reported min_possible_p bounds p if and only if both groups are nonempty and no complete separation meets a tie across the mirrored cut |
| MannWhitney.MinPossiblePCanFail | evaluation/graduation_analysis_decisions.py:117 | [1] against [0,0] has p = 1/3, below the reported 2/3 |
| Wilcoxon.SignSlackIsExact | evaluation/graduation_analysis_decisions.py:130 | the tolerance of the signed-rank test is exact too |
| Wilcoxon.SignedFloor | evaluation/graduation_analysis_decisions.py:124-134 | with a nonzero difference, p is at least 2/2^n over exactly 2^n assignments |
| Wilcoxon.SignedSwap | evaluation/graduation_analysis_decisions.py:124-134 | swapping the samples splits the rank total between the two statistics and leaves p unchanged |
| Wilcoxon.StatisticCountsWalshSums | evaluation/graduation_analysis_decisions.py:125-128 | w_plus from tie-averaged magnitudes is the number of positive pairwise sums plus half the zero ones |
| Wilcoxon.OutcomeOfSamples | evaluation/graduation_analysis_decisions.py:125-134 | over the two samples: the nonzero count is that of positions with y different from x, the positive count that of positions with y above x, and twice w_plus is twice the number of pairs i <= j of unequal positions whose differences add up to more than zero plus the number that add up to zero |
| Wilcoxon.RaisedTwice | evaluation/graduation_analysis_decisions.py:125-134 | [0,0] against [1,2] gives w_plus 3 and two positive differences |
| Binomial.CdfTotal | evaluation/graduation_analysis_decisions.py:78-79 | the tail sums are those of a distribution: they total one |
| Binomial.CdfRises | evaluation/graduation_analysis_decisions.py:78-79 | the cdf rises in the count |
| Binomial.CdfFalls | evaluation/graduation_analysis_decisions.py:78-79 | the cdf falls in the success probability |
| Binomial.CdfStep | evaluation/graduation_analysis_decisions.py:78-79 | one more draw mixes the two cdfs of one draw less |
| ClopperPearson.BisectBrackets | evaluation/graduation_analysis_decisions.py:83-88 | after j halvings the predicate holds at the low end and fails at the high end, 2^-j apart inside [0,1] |
| ClopperPearson.LastBracket | evaluation/graduation_analysis_decisions.py:84-87 | the last bracket is exactly 2^-100 wide |
| ClopperPearson.BisectMonotone | evaluation/graduation_analysis_decisions.py:83-88 | bisecting a weaker predicate never lands lower |
| ClopperPearson.Solve | evaluation/graduation_analysis_decisions.py:83-88 | the updating loop returns the middle of the bracket after 100 halvings |
| ClopperPearson.Interval | evaluation/graduation_analysis_decisions.py:82-91 | the reported ends are those of the two bisections, before rounding; a count of none or all pins its end to 0 or 1 |
| ClopperPearson.EndsBracketTails | evaluation/graduation_analysis_decisions.py:89-91 | each end is within 2^-101 of the crossing of its own tail with alpha/2 |
| ClopperPearson.EndsOrdered | evaluation/graduation_analysis_decisions.py:82-91 | for alpha up to one the ends are ordered inside [0,1] |
| ClopperPearson.Coverage | evaluation/graduation_analysis_decisions.py:82-91 | for every n, p and alpha, a draw whose interval (taken at the outer bracket ends) misses p has probability at most alpha |
| ClopperPearson.CoverageAfterRounding | evaluation/graduation_analysis_decisions.py:90-91 | the same for the four-digit ends, widened by half of the last digit |
| FencingHistory.SingleWriterAlways | experiments/graduation_s3.py:142-177 | in every state of every history of requests, cloud steps and crashes, the source VM does not run while the target holds the volume, and the old database has the volume mounted only on a running source that still holds it |
| FencingHistory.PowerReturnsOnlyAfterDeletion | experiments/graduation_s3.py:356-365 | whenever the source VM gains power, the namespace and the volume are already gone |
| FencingHistory.FencedStaysOff | experiments/graduation_s3.py:152-157 | a recorded fence stays true (off, reported off, nothing in flight) for as long as the volume exists |
| FencingHistory.CleanedMeansClean | experiments/graduation_s3.py:333-406 | a record that says cleaned implies no taint, fault or cordon and the manifest from before the very first run, whatever runs and crashes came before |
| FencingHistory.PermissionSurvivesDrift | experiments/graduation_s3.py:161-177 | whatever a request was checked against still holds when it lands: no cloud step in between withdraws it, and a patch whose version test passes saw the current taints |
| FencingHistory.DoKeepsInv | experiments/graduation_s3.py:142-406 | every request the run may issue keeps the invariant |
| FencingHistory.RequestsKeepOtherTaints | experiments/graduation_s3.py:170-177 | no request alters a taint of another actor |
| FencingHistory.StopInFlightOutlivesCleanup | experiments/graduation_s3.py:359-366 | a cleaned record with a stop in flight leaves the VM off for good |
| FencingHistory.RunCanDieStopping | experiments/graduation_s3.py:193-271 | from every initial state with no skip annotation and an acceptable manifest, a run's own requests, in their order, reach a crash right after the accepted stop |
| FencingHistory.CleanupCanMissAStop | experiments/graduation_s3.py:342-405 | from every such crash the requests of a cleanup that finds the source active, in their order, close the record without a start and with the stop still to come |
| FencingHistory.WhileActiveIsCleanup | experiments/graduation_s3.py:342-405 | the requests of the failing cleanup are those of a cleanup that finds the source active, written out |
| FencingHistory.FirstRunCanLoseTheSource | experiments/graduation_s3.py:342-405 | put together: a legal history from before the first run that ends cleaned with a stop in flight, after which two steps of the cloud leave the source off |
| FencingHistory.FencedIsNeverActive | experiments/graduation_s3.py:344-346 | the refusal of a fenced VM found running is unreachable: no state of any history has one |
| FencingHistory.ManifestIsKnown | experiments/graduation_s3.py:385-388 | the refusal of an unknown manifest is unreachable when only the run changes it |
| FencingWorld.EnvKeepsInv | experiments/graduation_s3.py:142-177 | no step of the cloud creates a second writer or an unrecorded change: storage leaves the source gracefully, by the taint, or by the timeout that the policy disables |
| FencingWorld.ConfiguredOnlyAddsTheFlag | experiments/graduation_s3.py:62-67 | the configured manifest has the flag and differs in nothing else; it is refused exactly when force detach is set otherwise or there is no command line |
| FencingWorld.FlagFollowsCommand | experiments/graduation_s3.py:65 | the flag is put right after every command line |
| FencingWorld.RemoveOutExact | experiments/graduation_s3.py:368-372 | removing by key takes every out-of-service taint and no other |
| Fencing.S3.Start | experiments/graduation_recovery.py:81-121 | an unfinished record refuses a new run and nothing changes |
| Fencing.S3.ControllerPolicy | experiments/graduation_s3.py:59-76 | on return the flag is in the manifest and active, and at every crash point on the way the saved copy and the intent can undo it |
| Fencing.S3.BuildDatabase | experiments/graduation_s3.py:120-129 | the source is recorded only after a read, at a named point of the history, that found the volume attached to it |
| Fencing.S3.TakeOwnership | experiments/graduation_s3.py:206-211 | a Machine that carries any skip annotation is refused and keeps it; on return it carries this run's |
| Fencing.S3.InjectFault | experiments/graduation_s3.py:230-246 | on return the owner file and both chains are in place, and any part of them may be after a failure |
| Fencing.S3.Fence | experiments/graduation_s3.py:142-157 | on return the stop was accepted, and fenced is recorded only for a VM that is reported off with no task and is off at the hypervisor, which stays so |
| Fencing.S3.MarkOutOfService | experiments/graduation_s3.py:159-177 | the taint is added only to a node whose VM is off, on the taints just read, when no out-of-service taint was there |
| Fencing.S3.ActivateRecovery | experiments/graduation_s3.py:179-191 | on return the target holds the volume and the source is off |
| Fencing.S3.Run | experiments/graduation_s3.py:193-305 | a run asks for its requests in the order of the code: namespace, manifest, source, annotation, fault, stop, fence, taint; one that fails has asked for the first few of them, one that returns for all, with the fence recorded, the volume moved and the source off; a Machine that carries an annotation already sees neither fault nor stop and keeps it |
| Fencing.S3.ClearFault | experiments/graduation_s3.py:307-331 | returns only with neither owner file nor chains in the guest, whatever part of the script ran and whatever was answered, and changes nothing else |
| Fencing.S3.ReleaseStorage | experiments/graduation_s3.py:342-355 | on return the fault is cleared or an out-of-service taint is on the node, and the record is unchanged |
| Fencing.S3.DeleteStorage | experiments/graduation_s3.py:356-358 | returns only with the namespace gone and, when it is known, the volume deleted |
| Fencing.S3.StartSource | experiments/graduation_s3.py:360-365 | with no stop in flight behind an ACTIVE status the VM is up on return; with one it is not, and nothing was started |
| FencingHistory.EveryPrefixInv | experiments/graduation_s3.py:142-406 | the invariant holds in every state of every legal history |
| Fencing.S3.RestoreSource | experiments/graduation_s3.py:366-381 | no taint, fault, cordon or skip annotation is left on return |
| Fencing.S3.RestoreManifest | experiments/graduation_s3.py:382-403 | on return the manifest is the original and the running policy agrees with it |
| Fencing.S3.Cleanup | experiments/graduation_s3.py:333-406 | re-entrant from any crash point: its requests are those of the code in its order, a prefix of them on failure and all on return, with a restart exactly when the status reads as shut off; a return leaves nothing of the run and the original manifest; the source VM is up if and only if it was not reported ACTIVE with a stop in flight at the restart decision (the read at line 360) |
| Fencing.S3.Operate | experiments/graduation_s3.py:409-414 | any sequence of runs and cleanups, each failing or dying anywhere, keeps a single writer in every state passed through |
| ClockGuard.RestoreService.Save | evaluation/fresh_clock_guard.py:59-61 | the durable record is the new one or the old one, and every state a crash could leave keeps the invariant |
| ClockGuard.RestoreService.Restore | evaluation/fresh_clock_guard.py:62-67 | the user's own setting is back before the record says restored, the writes are exactly those of a restore, and no lease means no effect |
| ClockGuard.RestoreService.Startup | evaluation/fresh_clock_guard.py:68-74 | from whatever a crash or reboot left on disk, a start that succeeds returns network time to the user's own setting; an interrupted lease is ended with the reason that its boot gives, and its owner stopped only when it still runs on that boot |
| ClockGuard.RestoreService.Handle | evaluation/fresh_clock_guard.py:75-101 | refused exactly for a malformed request, a release of another token, or an arm that fails a check, with nothing changed; a granted arm leaves network time off under a lease of the asking owner that ends the asked seconds, and its watchdog 5700 s, after moments within the call; the states written are exactly those of an arm or a restore |
| ClockGuard.RestoreService.ArmLease | evaluation/fresh_clock_guard.py:94-101 | the record holds the original setting before network time is touched, says protected only once it is off, and ends the lease the asked seconds after a moment within the call |
| ClockGuard.RestoreService.Tick | evaluation/fresh_clock_guard.py:102-119 | a tick that returns leaves an active lease and everything else alone if and only if the clocks agree within 0.1 s (or were not compared), the boot and the owner are the lease's, and neither expiry nor watchdog has come; otherwise it stops an owner that still runs, restores, and records the first of clock step, boot, owner, expiry and watchdog that applies |
| ClockGuard.RestoreService.ServeRequest | evaluation/fresh_clock_guard.py:133-152 | after a refused request the setting is the user's own, and a lease that was active is recorded as ended by the request error |
| ClockGuard.RestoreService.Live | evaluation/fresh_clock_guard.py:122-154 | over any rounds of requests, ticks, crashes, reboots and restarts: whenever the setting differs from the user's own, the durable record is arming, protected or restoring and holds that own setting; when no token is asked for twice, two observations of protected under one token mean network time was off all the time between; a lease still protected after a round began less than 5400 s before that round |
| ClockGuard.AppendUnbroken | evaluation/fresh_clock_guard.py:94-101 | a protected period gets no hole unless a token is used again |
| ClockGuard.ProtectionIsContinuous | evaluation/fresh_clock_guard.py:102-119 | a history whose protected periods have no holes has network time off between any two observations of one token |
| ClockGuard.WatchdogNeverFirst | evaluation/fresh_clock_guard.py:105-108 | the watchdog decides a tick only if over five minutes pass between the tick's own two clock readings; exact condition |
| ClockGuard.LateReleaseLooksNormal | evaluation/fresh_clock_guard.py:79-81 | a release after the lease has ended is recorded exactly like one that ended it, and the client accepts it |
| ClockGuard.EndedLeaseOverwrites | evaluation/fresh_clock_guard.py:62-67 | a restore after the lease has ended writes back what the lease had found, and so overwrites a setting made since if and only if that differs |
| ClockGuard.ReusedTokenBreaksContinuity | evaluation/fresh_clock_guard.py:84 | from a first installation, what two leases and a third with the first one's token write, each request admitted by the checks, is safe but has a hole in that token's protected period |
| CampaignData.OpenKeeps | evaluation/fresh_campaign.py:353-367 | an attempt opened under the run's checks keeps the invariant; with every attempt verified, the cap not reached, the case not valid and the dependencies valid and safe |
| CampaignData.CloseKeeps | evaluation/fresh_campaign.py:409-425 | verifying and judging the open attempt leaves every attempt of the campaign verified |
| CampaignData.OpenAttemptIsLast | evaluation/fresh_campaign.py:320-322 | at most one attempt is not verified, and it is its case's last |
| CampaignData.AttemptsWithinCap | evaluation/fresh_campaign.py:357-360 | no case ever has more than one attempt in the supplemental and extension stages, nor more than the profile allows in the others |
| CampaignData.ValidIsFinal | evaluation/fresh_campaign.py:327-330 | a valid verdict is the last attempt's, is not a resumed one, and its case never changes again |
| CampaignData.DependenciesHoldForever | evaluation/fresh_campaign.py:353-356 | a case with attempts has dependencies that are finished, valid and safe, then and ever after |
| CampaignData.GrowsTransitive | evaluation/fresh_campaign.py:316-475 | over any number of saves attempts are never lost, verified ones never altered, valid cases final |
| CampaignData.FlawKeepsTruthful | evaluation/fresh_campaign.py:379-382 | an execution error can be added to the evidence of the open attempt without contradicting any verdict |
| CampaignData.CloseKeepsTruthful | evaluation/fresh_campaign.py:390-425 | closing needs a cleanup whose readback passed, a verdict that the evidence allows, and everything raised in the evidence; then every verified attempt has a passed cleanup and no valid verdict rests on an execution error |
| CampaignData.RaisedIsNeverValid | evaluation/fresh_campaign.py:374-412 | an attempt whose execution, sealing or clock restore raised is never judged valid |
| Campaign.ExecutedOnce | evaluation/fresh_campaign.py:357-375 | no attempt is executed twice, attempts of a case execute in order, and the earlier one ended verified and invalid |
| Campaign.ExecutedAfterCleanups | evaluation/fresh_campaign.py:320-322 | at the moment of an execution every other attempt of the campaign is verified, and its latest cleanup returned checks that all passed |
| Campaign.ExecutedAfterDependencies | evaluation/fresh_campaign.py:353-356 | at that moment, and ever after, the dependencies of the case are valid and safe |
| Campaign.FreshCampaign.RunCleanup | evaluation/fresh_campaign.py:392-402 | an attempt counts as cleaned only while the latest readback after its execution had checks and all of them passed |
| Campaign.FreshCampaign.DependenciesVerified | evaluation/fresh_campaign.py:353-356 | exactly when every dependency names a finished, valid and safe case |
| Campaign.FreshCampaign.Execute | evaluation/fresh_campaign.py:373-389 | the attempt executed is the one just prepared on disk and is not clean any more; on return everything that raised, the clock restore included, is in the evidence |
| Campaign.FreshCampaign.CleanUp | evaluation/fresh_campaign.py:390-408 | returns only after a readback that passed; one that does not pass raises with the error in the evidence, and every failure leaves the attempt open on disk, which blocks every run |
| Campaign.FreshCampaign.Finish | evaluation/fresh_campaign.py:409-425 | verifies only an attempt whose cleanup passed, and never makes valid one with an execution error in its evidence |
| Campaign.FreshCampaign.Attempt | evaluation/fresh_campaign.py:340-432 | one attempt executes at most once and, however it ends, no other case changes on disk; a return leaves it verified after a passed cleanup, its case finished, and not valid if its measurement raised |
| Campaign.FreshCampaign.Run | evaluation/fresh_campaign.py:316-436 | refused exactly for an open attempt, a limit below one, or a retry of an unknown or valid case, with nothing changed; what executes is a prefix of the cases to take in listing order, and on return all of them up to the limit, each attempt now verified: a retry exactly one attempt of the named case, an unlimited run every pending case |
| Campaign.OrderOfRetry | evaluation/fresh_campaign.py:332-334 | the cases that a retry takes are exactly the one of that name |
| Campaign.OrderMembers | evaluation/fresh_campaign.py:332-334 | the cases to take are exactly the pending ones, or those of the name, in ascending order |
| Campaign.FreshCampaign.ResumeCleanup | evaluation/fresh_campaign.py:438-475 | nothing is executed; a return leaves the attempt verified, marked as resumed and not valid; a closed or unknown case is refused unchanged |
| Campaign.FreshCampaign.Operate | evaluation/fresh_campaign.py:316-475 | any sequence of runs, resumptions and crashes keeps all of the above |
| ReadBudget.Transport.ReadWithBudget | evaluation/fresh_read_budget.py:56-121 | the value returned is what the last invocation answered, and the error raised is that of the last callback or check; at most 3 invocations; every retry only after a transient failure, a reconnection if configured, a new identity proof and the pause of the source, and before the bound; a value only after a passed check and, on a retry, a proof after it; total time within the timeout, 90 s and the phase end if callbacks keep their limit; it gives up only on the last attempt, a permanent error, a failed preparation, or past the earliest end |
| ReadBudget.Transport.Callback | evaluation/fresh_read_budget.py:88-93 | whatever runs under a read logs its start and its answer, and an honest one keeps within the deadline |
| ReadBudget.Transport.Attempt | evaluation/fresh_read_budget.py:88-93 | one invocation, whose answer is the value, its checks, and on a retry a proof after it; an error is that of the callback or check it ends with |
| ReadBudget.Transport.Reprove | evaluation/fresh_read_budget.py:107-116 | before a retry the deadline only shrinks, and the identity is proved |
| ReadBudget.Transport.PrepareRetry | evaluation/fresh_read_budget.py:99-113 | a retry is prepared only by a reconnection if configured, a proved identity inside the shrunk deadline, and the pause; a failure is raised as it came |
| ReadBudget.Transport.Pause | evaluation/fresh_read_budget.py:112-113 | the pause is 10 s after the first failure, 25 s after the second, and never past the deadline |
| ReadBudget.Transport.NestedRead | evaluation/fresh_read_budget.py:66-72 | a nested read is one invocation under the enclosing deadline, whose answer it returns after one more check; a nested compound read is rejected |
| ReadBudget.Transport.RetryRead | evaluation/fresh_transport.py:54-79 | a mutation is invoked once and its answer returned; so is a read inside another, under its deadline, or it raises when that has passed; otherwise a sequence of disciplined reads, each bounded by what is left of the total deadline, 90 s, the phase and the horizon, of which the last gives the result, and in which a further one follows only a wait that merely timed out; a pending wait is given up only at the total deadline, and that is overrun by at most the 1 ms floor |
| ReadBudget.Transport.Converge | evaluation/fresh_transport.py:63-79 | the loop itself, round by round, each with its own bound |
| ReadBudget.BetweenInvocations | evaluation/fresh_read_budget.py:94-116 | between any two invocations of one read there are a transient failure, after it a successful identity proof, and after that a pause |
| ReadBudget.LogInner | evaluation/fresh_read_budget.py:61-74 | nested activity adds no invocation, answer, proof or step towards a retry to the enclosing read |
| ReadBudget.RoundBounded | evaluation/fresh_transport.py:65-72 | the bound of a round never lies past the total deadline by more than the floor, nor past 90 s, the phase or the horizon |
| ReadBudget.PhaseDeadline.Open | evaluation/fresh_read_budget.py:32-38 | entering a phase sets the earliest of all open ends |
| ReadBudget.PhaseDeadline.Close | evaluation/fresh_read_budget.py:32-38 | leaving it restores the earliest of the remaining ends |
| ReadBudget.EarliestEndBounds | evaluation/fresh_read_budget.py:32-38 | the effective end is one of the open ends and no later than any |
| PhaseAlarm.Process.Enter | evaluation/fresh_operations.py:19-33 | the one timer is set to the earlier of the new and the running deadline; a spent limit refuses and changes nothing |
| PhaseAlarm.Process.Leave | evaluation/fresh_operations.py:34-38 | the outer timer is back at its own expiry, or the 1 microsecond floor away when that has passed, also after a swallowed timeout |
| PhaseAlarm.Process.Run | evaluation/fresh_operations.py:19-38 | any program of nested phases keeps the timer at the earliest active deadline, up to the floor |
| PhaseAlarm.EnterNested | evaluation/fresh_operations.py:19-33 | entering keeps the timer at the earliest deadline of all active phases |
| PhaseAlarm.LeaveNested | evaluation/fresh_operations.py:34-38 | leaving keeps it there |
| PhaseAlarm.NoPhaseExtended | evaluation/fresh_operations.py:19-38 | the timer never outlasts any active phase by more than the floor, so an inner phase cannot extend an outer one |
| PhaseAlarm.EarliestActive | evaluation/fresh_operations.py:19-38 | the guarded deadline is that of an active phase |
| PhaseAlarm.OuterTimerRestored | evaluation/fresh_operations.py:34-38 | leaving before the outer deadline restores exactly the timer that was found |
| PhaseAlarm.SpentTimerExtends | evaluation/fresh_operations.py:28-33 | a phase entered after a swallowed timeout keeps the bound if and only if its limit is within the floor |
| PhaseAlarm.Process.Swallow | evaluation/fresh_operations.py:27-38 | catching the timeout inside a phase always loses the guard |
| PhaseAlarm.Process.SwallowAndRunOn | evaluation/fresh_operations.py:27-38 | a phase that catches the timeout runs on for any time, and all phases around it with it, without any alarm |
| PhaseAlarm.SwallowExample | evaluation/fresh_operations.py:27-38 | a phase of ten seconds that is still running after 1010 |
| Quantile.QuantileIsPercentile | evaluation/fresh_analysis.py:21-26 | the two separately written formulas agree for every list and fraction, before rounding |
| Quantile.QuantileExact | evaluation/fresh_analysis.py:21-26 | over any sorted arrangement w of n values, the quantile at q = (k + t)/(n - 1) is the point a fraction t of the way from w[k] to w[k+1] |
| Quantile.QuantileIgnoresOrder | evaluation/fresh_analysis.py:21-26 | a reordered list has the same quantiles |
| Quantile.InterpolateBetween | evaluation/graduation_evaluation_verify.py:30-37 | the result lies between the order statistics on either side of its rank |
| Quantile.QuantileMonotone | evaluation/fresh_analysis.py:21-26 | a larger fraction never gives a smaller quantile |
| Quantile.QuantileBounds | evaluation/fresh_analysis.py:21-26 | any bound on all values bounds every quantile |
| RequestMetrics.CheckIdentities | evaluation/fresh_analysis.py:68-78 | the duplicate errors are raised exactly for a missing or repeated id and a repeated index |
| RequestMetrics.Assess | evaluation/fresh_analysis.py:89-108 | a request is good exactly when it is ordered, answered, correct, not turned away and in time |
| RequestMetrics.Tally | evaluation/fresh_analysis.py:89-117 | the loop counts exactly the bad, the unanswered and the rejected requests and keeps the latencies of the good ones |
| RequestMetrics.MakeBin | evaluation/fresh_analysis.py:120-129 | one bin, counted row by row, is the prescribed one |
| RequestMetrics.MakeBins | evaluation/fresh_analysis.py:118-129 | the bins are those the configuration prescribes; the division by zero comes if and only if no sample is demanded and some bin expects none and has none |
| RequestMetrics.DividesExactly | evaluation/fresh_analysis.py:123-126 | that condition, which a caller can check from the configuration and the arrivals, is exactly when some bin is complete without a sample |
| RequestMetrics.DividesByZeroExample | evaluation/fresh_analysis.py:123-126 | a concrete failing input: one second at 0.1 requests a second, no sample demanded, none there |
| RequestMetrics.MinSamplesSuffice | evaluation/fresh_contract.py:72-77 | a profile that passes the check has an integer minimum above zero, and then the division cannot happen |
| RequestMetrics.RoundNearest | evaluation/fresh_analysis.py:84 | the rounding of the arrivals to expect is to the nearest integer, from halfway to the even one |
| RequestMetrics.HealthyTail | evaluation/fresh_analysis.py:130-136 | the tail loop keeps the longest healthy suffix |
| RequestMetrics.FinalTail | evaluation/fresh_analysis.py:130-138 | recovery is reported exactly when that suffix is long enough |
| RequestMetrics.Analyse | evaluation/fresh_analysis.py:67-151 | the counts, bins, healthy tail, p95 and identity, completeness and order errors of an interval, tied to the requests and not to the loops |
| RequestMetrics.Conservation | evaluation/fresh_analysis.py:85-111 | good plus failed requests are the larger of expected and observed |
| RequestMetrics.BinsTile | evaluation/fresh_analysis.py:118-121 | each instant of the interval lies in exactly one bin |
| RequestMetrics.BinsMeet | evaluation/fresh_analysis.py:118-121 | bins are nonempty, meet, and the last ends at the end |
| RequestMetrics.BinsConserve | evaluation/fresh_analysis.py:118-145 | the bins' samples are the interval's arrivals, and healthy, violating and unobserved time add up to its length |
| RequestMetrics.TailUnique | evaluation/fresh_analysis.py:130-138 | there is one maximal healthy suffix |
| RequestMetrics.RecoveryExact | evaluation/fresh_analysis.py:130-149 | recovery starts at t if and only if t starts a healthy suffix that is maximal and lasts the stability period |
| RequestMetrics.ReportedP95WithinDeadline | evaluation/fresh_analysis.py:109-116 | every reported successful p95 is at most the deadline |
| OpenLoop.OpenLoopProbe.Loop | evaluation/fresh_evidence.py:89-142 | on a normal exit every index up to the stopping point is emitted once, in any completion order and whatever each look at the horizon sees; an arrival is turned away exactly when max_inflight others are scheduled and not yet emitted, and pending never exceeds that; the stopping point is the first arrival that a look finds past the bounds, so every one before it was inside at both looks and every later one is past the bounds seen; with no horizon set no arrival is skipped |
| OpenLoop.OpenLoopProbe.Schedule | evaluation/fresh_evidence.py:100-131 | after each arrival every earlier index was admitted by both looks and is pending or emitted, once |
| OpenLoop.OpenLoopProbe.Harvest | evaluation/fresh_evidence.py:102-105 | emitting completed arrivals in any order keeps that account |
| OpenLoop.OpenLoopProbe.Finish | evaluation/fresh_evidence.py:132-139 | the final wait emits every pending arrival, answered or not |
| OpenLoop.MergedRow | evaluation/fresh_evidence.py:106-113 | a probe's answer cannot change the identity or schedule of its row; whether it was answered and correct is the probe's word, or its ok when it says nothing of correctness |
| OpenLoop.EmittedRowsPassIdentityChecks | evaluation/fresh_analysis.py:68-78 | rows so accounted never raise the duplicate-id or duplicate-index error of the analysis |
| OpenLoop.DecimalInjective | evaluation/fresh_evidence.py:106-113 | request ids are distinct because decimal numerals are |
| OpenLoop.SkippedOutside | evaluation/fresh_evidence.py:117-123 | arrivals after one that a look finds outside are outside the same bounds |
| OpenLoop.ArrivalTimes | evaluation/fresh_evidence.py:117-118 | arrivals start at the origin and are 1/rate apart |
| OpenLoop.BoundsReadApart | evaluation/fresh_evidence.py:150 | between the two stores of the horizon a loop may stop too early, exactly for an arrival past the monotonic and before the wall bound |
| OpenLoop.BoundsReadApartExample | evaluation/fresh_evidence.py:150 | a concrete schedule that loses an arrival this way |
| Stability.StreaksAgree | evaluation/graduation_analysis_timeline.py:76-93 | both scanners hold the same streak after every prefix |
| Stability.StreakIsLongestSteadySuffix | evaluation/graduation_analysis_timeline.py:81-89 | the streak after any prefix is its longest suffix of healthy samples, each later than the one before by at most the gap |
| Stability.FirstStable | evaluation/graduation_analysis_timeline.py:76-93 | the loop reports the first prefix whose streak meets the rule, and counts the later interruptions |
| Stability.RawHttpStable | evaluation/graduation_evaluation_verify.py:265-276 | the loop reports the first sample at which the last streak met the rule |
| Stability.RawImpliesFirst | evaluation/graduation_evaluation_verify.py:265-276 | if the raw scanner confirms, the other confirms at that sample or an earlier one |
| Stability.UninterruptedAgrees | evaluation/graduation_analysis_timeline.py:76-93 | confirmed without interruption, both name the same sample |
| Stability.InterruptedMovesOn | evaluation/graduation_analysis_timeline.py:76-93 | an interruption discards the confirmed sample for the raw scanner |
| Stability.VerdictsAgreeExactly | evaluation/graduation_evaluation_verify.py:265-276 | they name the same sample if and only if the first confirmed and counted no interruption; otherwise the raw one is later or silent |
| Relocation.Requests | experiments/graduation_s1_auto.py:38-50 | one pass computes the effective request |
| Relocation.EffectiveIsPeak | experiments/graduation_s1_auto.py:38-50 | the effective request is the peak of the start-up sequence, maxed with the pod-level request, plus overhead |
| Relocation.MeasureUsed | experiments/graduation_s1_auto.py:102-104 | the usage of a node is the effective requests of its live pods |
| Relocation.UsedIgnoresOrder | experiments/graduation_s1_auto.py:102-104 | the usage of a node does not depend on the order in which the pods are listed |
| Relocation.CandidateReasons | experiments/graduation_s1_auto.py:72-113 | a node has no reason against it if and only if policy and host metrics give none and the pod fits by CPU and memory |
| Relocation.PlacementFits | experiments/graduation_s1_auto.py:100-106 | after the pod is placed on such a node, the snapshot stays within its allocatable amounts |
| Relocation.Choose | experiments/graduation_s1_auto.py:262-267 | the choice has the least utilisation and among those no later name than any, and none only from none |
| Relocation.NameOrder | experiments/graduation_s1_auto.py:267 | names are compared by the first character in which they differ, and a prefix comes first |
| Relocation.MoveService | experiments/graduation_s1_auto.py:243-267 | the loop over the listed nodes chooses a least one among those without a reason, and defers exactly when there is none |
| Relocation.ChoiceIgnoresOrder | experiments/graduation_s1_auto.py:267 | reordered candidates have the same least one |
| Relocation.DestinationIgnoresListings | experiments/graduation_s1_auto.py:239-267 | the chosen node depends neither on the order of the node listing nor on that of the pod listing |

## Left out

- Fencing.S3.Run: the database content checks, samples and summary of a run are not modelled; they read and
  judge but change nothing that the protocol depends on.
- Fencing.S3.Fence: polling is bounded by rounds and not by the clock; a hypervisor move is one of the
  failures that any read may have.
- Fencing.S3.Cleanup: node readiness and worker restoration are waits on the cloud that may fail; Nova
  statuses other than ACTIVE and SHUTOFF, and a Machine replaced during the run, are not modelled.
- Fencing.S3.ControllerPolicy: manifests are lists of lines and their hashes are taken to be injective; the
  manifest changes only by the run.
- Fencing: a request sent by a process that dies takes effect before or at its death, not later; the asynchronous
  part of a VM start or stop is modelled by Nova's task. A record write that throws is not carried by a later write.
- Other actors in the fencing model: a foreign out-of-service taint and an external restart of the fenced VM;
  foreign taints of other kinds and a foreign skip annotation are modelled.
- Volumes of a run that died before recording its source are not followed after its namespace is gone.
- ClockGuard: the client's polling, the event log and the explicit restore command running beside the service;
  a user who changes network time by hand at any time: the user's own setting is constant, also between leases.
- ClockGuard.RestoreService.Tick: the disagreement of the two clocks is a parameter of the tick.
- Campaign: the evidence directories, hashes, ledger lines and the campaign-level status; the budget, time and
  admission gates are one check that may refuse. Case identifiers are distinct.
- Campaign.FreshCampaign.Run: a retry names a case by a nonempty name; the empty name, which the code takes for no retry, is not
  a name here.
- Campaign.FreshCampaign.Execute: of the judgement only one rule is kept, that an execution error makes a trial invalid.
- ReadBudget.Transport.ReadWithBudget: the time bound holds for callbacks and sleeps that keep the limit given to
  them; the horizon does not move during a read; which texts make an error transient is a flag on the error.
- ReadBudget.Transport.RetryRead: argument classification (`read_command`, `deadline_args`) is not modelled.
- PhaseAlarm: no timer of another owner runs when the outermost phase is entered.
- RequestMetrics.Analyse: clock-step, schedule-mismatch and monotonic-duration errors, queue and execution
  latencies, the impact start and the ratios derived from the counts.
- Fencing.S3.ClearFault: reads of the guest leave no trace in the history, so the contract gives what the last read has
  to find and not the read itself.
- OpenLoop.OpenLoopProbe.Loop: an exception in the loop itself, after which the probe reports itself incomplete.
- Stability: parsing of timestamps; samples come in stream order.
- Relocation.MoveService: the placement and the sample of a node are taken as part of its listing.
- Relocation.CandidateReasons: selectors, affinities, taints and conditions enter as reasons already found; parsing
  of quantity strings is not modelled.
- ClopperPearson.CoverageAfterRounding: rounding is any movement of at most half of the last digit.
- Floating-point rounding everywhere, and rounding for display.
- The branch table of the verdicts, cost and credit arithmetic, profile constants, release gates, reports and
  telemetry: long but readable one branch at a time.
