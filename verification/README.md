# LLM evaluation control plane: a verified model

This Dafny project models the parts of the control plane in which several parties act on one
store in any order, or in which two independent algorithms must agree, and proves what they
promise. `dafny verify dfyconfig.toml` checks all of it.

**The leased, fenced job queue.** `Lifecycle` holds job and attempt records with every table
constraint and the transition table. `Cells` is one job with its attempts, moved by a small
automaton. `Store` gives, for every repository operation, the state it commits and its answer;
each operation is one atomic step, with the time it reads first and the time of its last
conditional write kept apart. `Steps` takes operations apart into single moves and proves the
store invariant; `Runs` and `Queue` prove what holds over whole runs of any operations by any
callers: fencing, create-once evidence, cancellation, termination, spacing of attempts, bounded
overtaking, and the reaper. `Repository` is the imperative form: transactions on mutable tables
that write one table at a time and restore it when a later write is refused, each proved to commit
exactly what `Store` says. `Effects` says what each operation does to the rows and when it answers
what, from the tables alone. `Leases` and `Worker` are the worker service on top of it, with any
operations by others between any two of its calls, and any of its calls failed by the database,
before or after the commit; a run of the worker returns every call it made, and what follows from
what each of them found is proved about that. `Submission` and `Service` are idempotent submission and the polling
client.

**Evaluation and comparison.** `Runner` computes stored metric summaries by evaluator;
`Comparison` recomputes them by metric name and applies the gates. `Decisions` proves that the two
agree on every plan and every pattern of failures, and exactly when a comparison decides;
`Duality` proves symmetry, conservation of case changes and of deltas, and when a release passes.
`Readings` says what stored cases and summaries are in terms of what the target and the evaluators
did, and `Verdicts` what a decision is in terms of the stored cases, by counts and inequalities:
together, that an error anywhere in a gate's scope is never released.

**Pagination.** `Ordering` is the strict order of keys, `Pagination` the pages and the walk along
cursors while rows are inserted, `History` the lists over a store that others keep writing and the
dashboard's own page checks, `CaseListing` the filtered pages of a decision's cases, `Cursor` the
checksummed text of a cursor, and `Listings` every paged list with the filters and sort columns its
cursors carry.

**Smaller cores.** `Scanner` finds SQL comments outside quotes, `Publisher` stores run artifacts
once among concurrent saves, and `Dashboard` computes nearest-rank statistics with a rounded mean;
`Reports` says what each shown figure is of its samples, and `Rounding` is the rounding of reals to
binary64.

Three results are conditions rather than plain promises, each with an input at which the promise
fails:

- The statistics of a release decision are refused by their own validator when the rounded mean
  leaves the range of the samples (`Dashboard.RefusedIffMeanOutside`). Three cases that all score
  0.7 are refused (`Dashboard.SevenTenthsRefused`). Under any rounding, all samples of a size are
  accepted if and only if every float averages to itself when it is taken that many times
  (`Dashboard.AcceptedIffOwnAverages`); in binary64 that is so if and only if the size is a power
  of two (`Dashboard.AcceptedIffPowerOfTwo`). The quantiles themselves are always in order.
- A run of a valid plan is refused for its evidence if and only if an evaluator names a metric
  twice on a case, because the runner compares sets of metric names while the case validator counts
  them (`Runner.EvidenceRejectedIff`; `Runner.RepeatedMetricExample` is such a run).
- A waiting job can be overtaken by as many claims as there were jobs ahead of it, plus the
  submissions that came to stand before it afterwards, because a submission is stamped by the
  service's clock before it reaches the store (`Queue.BoundedOvertaking`; in
  `Queue.OvertakenExample` a job with nobody ahead of it is overtaken). While no submission comes
  to stand before it, the jobs ahead of it are the bound (`Queue.ClaimedWithinBound`).

The length limit of a cursor's text is checked when it is read and not when it is made. No list
reaches it: every next cursor decodes for the list that handed it out
(`Listings.NextCursorDecodes`).

A completion that refers to missing rows is reported differently by its two forms: a run without
its dataset is a conflict, which the worker turns into a failed job, while a decision without its
runs is a concurrent transition, which the worker raises as unavailable. The model keeps both.

## Model

| member | source | states |
|---|---|---|
| Lifecycle.BackoffBounds | src/llm_eval_control_plane/application/worker.py:402-405 | the delay before the next attempt never shrinks from attempt to attempt, stays between the base and the cap, starts at the base and doubles below the cap |
| Cells.MoveIsTransition | src/llm_eval_control_plane/domain/control_plane.py:263-328 | every move of the job automaton is exactly the record transition the source asks for, stamped no earlier than the last update |
| Cells.MoveKeepsInv | src/llm_eval_control_plane/adapters/control_plane_db.py:217-256 | every move keeps every table constraint, the closed form of the version, and the fit between the job and its attempts |
| Cells.RunningAttemptIsLast | src/llm_eval_control_plane/adapters/control_plane_db.py:389-395 | an attempt is running if and only if the job is running or cancel_requested and it is number attempt_count |
| Store.NextClaimIsFirst | src/llm_eval_control_plane/adapters/control_plane_db.py:1386-1397 | the job selected by a claim is claimable and strictly first among all claimable jobs in (available_at, created_at, job_id) |
| Store.LapsedBatchMembers | src/llm_eval_control_plane/adapters/control_plane_db.py:1664-1694 | the reaper's selection holds only held jobs whose lease was over at selection time, each once |
| Steps.NextInv | src/llm_eval_control_plane/adapters/control_plane_db.py:1220-1852 | every operation, with any arguments and clock readings, keeps the store invariant and never moves the clock back |
| Runs.RunLater | src/llm_eval_control_plane/domain/control_plane.py:196-208 | over any run a job only moves forward: identity and ended attempts fixed, counts, versions and times never falling, a terminal job never changing, a cancellation request leading only to canceled |
| Runs.ReachedJob | src/llm_eval_control_plane/adapters/control_plane_db.py:338-395 | in every reachable store: attempts are exactly 1..attempt_count, the running one is the last and exists iff the job is active, earlier ones were superseded, the last fits the job's status, every CHECK holds, and the version is 2n, 2n-1 or 2n+1 by status |
| Runs.LifecycleTerminates | src/llm_eval_control_plane/adapters/control_plane_db.py:2111-2137 | however long the run, a job's row changes at most 2*max_attempts+1 times |
| Runs.OneLiveToken | src/llm_eval_control_plane/adapters/control_plane_db.py:2096-2107 | at any instant at most one attempt number and token of a job passes the lease test |
| Runs.DeadTokenFenced | src/llm_eval_control_plane/adapters/control_plane_db.py:2074-2108 | once an attempt ended or its lease is over, in every continuation no heartbeat, retry, fail, acknowledgement or completion with its token, under any attempt number, changes a table |
| Runs.SecondCheckRollsBack | src/llm_eval_control_plane/adapters/control_plane_db.py:2159-2172 | a lease that was active when the rows were locked and is over at the last conditional write leaves every table as it was, evidence included, and the answer is that the lease is lost, unless the operation was refused for a stated reason before that write |
| Runs.RunEvidenceKept | src/llm_eval_control_plane/adapters/control_plane_db.py:2315-2318 | a stored run or decision row is there unchanged after every continuation |
| Runs.EvidenceIffSucceeded | src/llm_eval_control_plane/adapters/control_plane_db.py:2228-2346 | in every reachable store evidence for a resource exists iff a job owning it succeeded, and that job is its only owner and its last attempt succeeded |
| Runs.CancellationWins | src/llm_eval_control_plane/adapters/control_plane_db.py:2306-2314 | after a cancellation request, whatever comes next, the job is canceled or waiting for it, gets no further attempt, and no evidence for it exists |
| Runs.CompletionCompletes | src/llm_eval_control_plane/adapters/control_plane_db.py:2315-2337 | a completion answered as succeeded leaves the job succeeded through that attempt and token with that document stored |
| Runs.CompletionReplays | src/llm_eval_control_plane/adapters/control_plane_db.py:2289-2298 | replaying a completion with the same token and document, after any run, answers with the same record and changes no table |
| Queue.RunSpaced | src/llm_eval_control_plane/adapters/control_plane_db.py:1555-1573 | the spacing set when an attempt was superseded is kept by every run: the next attempt starts no earlier than its end plus the delay |
| Queue.RetryThenRun | src/llm_eval_control_plane/adapters/control_plane_db.py:1555-1573 | after an accepted retry with a delay, in every run, the next attempt starts at least that delay after this one finished |
| Queue.ReapThenRun | src/llm_eval_control_plane/adapters/control_plane_db.py:1739-1753 | after a reaper call requeued a job, in every run, its next attempt starts no earlier than the end of the lost one plus the backoff |
| Queue.AttemptsNeverOverlap | src/llm_eval_control_plane/adapters/control_plane_db.py:1555-1573 | in every reachable store an earlier attempt ended a second or more before a later one starts, and a lease_expired attempt ended no earlier than its lease |
| Queue.BoundedOvertaking | src/llm_eval_control_plane/adapters/control_plane_db.py:1386-1397 | while an available queued job keeps waiting, the claims made by anyone number at most the jobs ahead of it plus the submissions that came to stand before it |
| Queue.OvertakenExample | src/llm_eval_control_plane/adapters/control_plane_db.py:1386-1397 | a reachable store in which a waiting job with nobody ahead is passed by a claim of a job submitted later with an earlier stamp, and still waits |
| Queue.ClaimedWithinBound | src/llm_eval_control_plane/adapters/control_plane_db.py:1386-1397 | while no submission comes to stand before it, an available queued job is claimed or canceled at some step of any run with more claims, by anyone, than there were jobs ahead of it |
| Queue.BatchIsFirst | src/llm_eval_control_plane/adapters/control_plane_db.py:1664-1694 | the reaper's batch is the first min(limit, lapsed) jobs in strict (lease_expires_at, job_id) order |
| Queue.ReaperRefinement | src/llm_eval_control_plane/adapters/control_plane_db.py:1640-1766 | one reaper call recovers exactly that batch, each job as the single-job rule says and reported at its position, and touches no other job |
| Queue.ReaperLeavesNone | src/llm_eval_control_plane/adapters/control_plane_db.py:1640-1766 | with enough limit no lease that was over at selection time is left |
| JobRepository.InsertableIffFresh | src/llm_eval_control_plane/adapters/control_plane_db.py:379-395 | for a queued job the attempt insert meets the primary key, the unique token and the one-running-attempt index iff its token was never used for that job |
| JobRepository.Repository.LockActiveLease | src/llm_eval_control_plane/adapters/control_plane_db.py:2074-2108 | a row is returned iff the lease is active at the given time for this attempt number and token |
| JobRepository.Repository.FinishAttempt | src/llm_eval_control_plane/adapters/control_plane_db.py:2140-2172 | ends the attempt iff it is running under this token and, unless expired leases are allowed, its lease is not over at the write |
| JobRepository.Repository.UpdateJob | src/llm_eval_control_plane/adapters/control_plane_db.py:2111-2137 | writes the row and the next version iff the version is the one that was read |
| JobRepository.Repository.MoveAttemptAndJob | src/llm_eval_control_plane/adapters/control_plane_db.py:1565-1576 | both rows are written, or neither: lost lease and lost compare-and-set restore what was there |
| JobRepository.Repository.CancelActiveAttempt | src/llm_eval_control_plane/adapters/control_plane_db.py:2174-2204 | cancels the attempt and its job together, or changes nothing and reports the lease lost |
| JobRepository.Repository.BeginJob | src/llm_eval_control_plane/adapters/control_plane_db.py:1220-1280 | commits exactly the specified state and answer: created, replayed, one of three conflicts, or refused for its size |
| JobRepository.Repository.ClaimNextJob | src/llm_eval_control_plane/adapters/control_plane_db.py:1365-1459 | commits exactly the specified state and answer, with the lease started at the second clock reading, and undoes the job row when the attempt row is refused |
| JobRepository.Repository.HeartbeatJob | src/llm_eval_control_plane/adapters/control_plane_db.py:1461-1513 | commits exactly the specified state and answer: the lease renewed from lock time, or nothing |
| JobRepository.Repository.RetryJob | src/llm_eval_control_plane/adapters/control_plane_db.py:1515-1580 | commits exactly the specified state and answer, cancellation and exhausted attempts included |
| JobRepository.Repository.FailJob | src/llm_eval_control_plane/adapters/control_plane_db.py:1582-1638 | commits exactly the specified state and answer, cancellation included |
| JobRepository.Repository.ReapExpiredJobs | src/llm_eval_control_plane/adapters/control_plane_db.py:1640-1766 | the loop over the selected jobs commits exactly the specified sequence of recoveries |
| JobRepository.Repository.CancelJob | src/llm_eval_control_plane/adapters/control_plane_db.py:1768-1800 | commits exactly the specified state and answer; what they are for each of the six statuses is `Effects.CancelEffect` |
| JobRepository.Repository.AcknowledgeCancellation | src/llm_eval_control_plane/adapters/control_plane_db.py:1802-1852 | commits exactly the specified state and answer, replays by the canceled attempt included |
| JobRepository.Repository.CompleteRun | src/llm_eval_control_plane/adapters/control_plane_db.py:2228-2346 | commits exactly the specified state and answer, size refusals included, taking back evidence inserted before a failed second lease check; when it succeeds and what it leaves is `Effects.CompleteEffect` |
| JobRepository.Repository.CompleteReleaseDecision | src/llm_eval_control_plane/adapters/control_plane_db.py:2348-2462 | commits exactly the specified state and answer for decisions, with their own error for missing runs; when it succeeds and what it leaves is `Effects.CompleteEffect` |
| Effects.BeginCreates | src/llm_eval_control_plane/adapters/control_plane_db.py:1220-1280 | a new submission of lawful size stores exactly the proposed job, queued, and its payload body, stamped now, and answers with it |
| Effects.BeginOtherwise | src/llm_eval_control_plane/adapters/control_plane_db.py:1220-1280 | any other submission changes no row and answers with the job already under its key, or with the one of three conflicts or the size refusal that holds |
| Effects.ClaimEffect | src/llm_eval_control_plane/adapters/control_plane_db.py:1365-1459 | a claim starts the next attempt of the first due job by (available_at, created_at, job_id), writing exactly that job and one attempt leased for the seconds asked; without a due job it answers with none |
| Effects.HeartbeatEffect | src/llm_eval_control_plane/adapters/control_plane_db.py:1461-1513 | a heartbeat renews exactly the beat and the lease of its attempt, and is refused as lease lost iff the lease is over at the last write |
| Effects.RetryEffect | src/llm_eval_control_plane/adapters/control_plane_db.py:1515-1580 | a retry leaves the attempt ended with the code and the job queued exactly the delay later, or both canceled after a request; lease lost iff the lease is over at the last write |
| Effects.FailEffect | src/llm_eval_control_plane/adapters/control_plane_db.py:1582-1638 | a failure ends attempt and job together as failed with the code, or as canceled after a request; lease lost iff the lease is over at the last write |
| Effects.AcknowledgeEffect | src/llm_eval_control_plane/adapters/control_plane_db.py:1802-1852 | an acknowledgement cancels attempt and job when cancellation was asked for and the lease lasts, repeats for the canceled attempt, and is otherwise refused without change |
| Effects.CancelEffect | src/llm_eval_control_plane/adapters/control_plane_db.py:1768-1800 | for each of the six statuses what a cancellation leaves and answers: a queued job canceled, a running one cancel_requested, canceled and cancel_requested ones as they are, succeeded and failed ones refused |
| Effects.CompleteEffect | src/llm_eval_control_plane/adapters/control_plane_db.py:2289-2337 | with the lease live at the last write, lawful sizes, its own evidence and its references stored, a completion answers succeeded and leaves exactly the ended attempt, the succeeded job and this record; canceled after a request; lease lost iff the lease is over |
| Effects.CompleteOtherwise | src/llm_eval_control_plane/adapters/control_plane_db.py:2228-2314 | every other completion changes no row, and which of the refusals it gets is decided by the stated conditions in their order |
| Effects.LeaseLostMeansOver | src/llm_eval_control_plane/adapters/control_plane_db.py:2074-2108 | heartbeat, retry, failure, acknowledgement and completion of an active job answer lease lost only if this attempt's lease is not live at the last write |
| Effects.BatchEffect | src/llm_eval_control_plane/adapters/control_plane_db.py:1664-1694 | the reaper selects, in (lease_expires_at, job_id) order, the first lapsed jobs up to the limit and no other |
| Effects.ReapEffect | src/llm_eval_control_plane/adapters/control_plane_db.py:1640-1766 | one reaper call leaves every job as it was, or, when its lease had lapsed, requeued after the backoff, failed with its attempts used up, or canceled after a request, its attempt ended to match |
| Leases.ClaimAnswers | src/llm_eval_control_plane/application/worker.py:204-212 | a claim starts the next attempt of one queued job, leased from the second clock reading, and touches no other; it is consistent in every field the worker checks; without one, no job was claimable |
| Leases.HeartbeatAnswers | src/llm_eval_control_plane/application/worker.py:328-344 | to the holder of a claim, whatever others did, a heartbeat renews exactly that attempt from lock time and answers with the stored active job, or the lease was over at its write and nothing changed |
| Leases.RetryAnswers | src/llm_eval_control_plane/application/worker.py:399-422 | a retry by the holder queues the job for exactly the delay after it ended this attempt, or cancels both, touching no other job; or it is refused, changing nothing, because the lease was over |
| Leases.FailAnswers | src/llm_eval_control_plane/application/worker.py:424-440 | a failure by the holder ends the job and this attempt together as failed with the code, or as canceled, touching no other job; or it is refused, changing nothing, because the lease was over |
| Leases.AcknowledgeAnswers | src/llm_eval_control_plane/application/worker.py:346-364 | once stopping, an acknowledgement by the holder leaves job and attempt canceled, or is refused because the lease was over |
| Leases.CompleteAnswers | src/llm_eval_control_plane/application/worker.py:371-397 | a publication by the holder ends succeeded with this evidence, or canceled; or it is refused without change, as lease lost only if the lease was over, as a conflict only for missing references or a job that succeeded already, or as missing runs |
| Worker.WorkerService.Create | src/llm_eval_control_plane/application/worker.py:144-186 | a service exists iff the worker identifier matches its pattern, the configuration is within its bounds, twice the heartbeat fits the lease, and the cap is not below the base |
| Worker.WorkerService.MonitorHeartbeat | src/llm_eval_control_plane/application/worker.py:316-326 | the loop makes one heartbeat a turn, each after whatever others did; all but the last found the job running, and it stops at the first that did not; it raises only if the sleep or a heartbeat failed |
| Worker.WorkerService.Heartbeat | src/llm_eval_control_plane/application/worker.py:328-344 | the signal is what the tables say at the heartbeat's write: continue iff running, cancel iff cancellation was asked for, lost lease iff the lease is over, unavailable iff the database failed the call (`Worker.FindingMeans`) |
| Worker.WorkerService.HandleHeartbeatSignal | src/llm_eval_control_plane/application/worker.py:346-369 | a cancel signal is followed by one acknowledgement, reported as answered, and any other by no call; the outcome is true of the store after it |
| Worker.WorkerService.Publish | src/llm_eval_control_plane/application/worker.py:371-397 | one completion with exactly this evidence, reported as answered, and after an immutable conflict one failure with evidence_conflict; success only with this evidence published |
| Worker.WorkerService.RetryOrExhaust | src/llm_eval_control_plane/application/worker.py:399-422 | one call: a failure with retry_exhausted when attempts are used up, else a retry with transient_execution_failure after the backoff; reported as answered |
| Worker.WorkerService.FailClaim | src/llm_eval_control_plane/application/worker.py:424-440 | returns failed, canceled or lease lost, each true of the store, and raises iff the database failed the call |
| Worker.WorkerService.Process | src/llm_eval_control_plane/application/worker.py:218-255 | every call made for the claim, in order, is the one its predecessors and the execution call for, whichever of execution and monitor ends first, and the outcome is the report of the last |
| Worker.WorkerService.RunOnce | src/llm_eval_control_plane/application/worker.py:191-216 | with any operations by others between its calls and any call failed by the database: idle means nothing was claimable, else the calls it returns are the whole story of the claim, with the evidence, code or delay the execution calls for, and the outcome is true of the store; the invariant error is unreachable, and every cause of an unavailable error is named |
| Worker.FindingMeans | src/llm_eval_control_plane/application/worker.py:328-344 | continue, cancel, lost lease and unavailable are told exactly when the stored job is running, asked to stop, past its lease, or the call failed |
| Worker.StopHonoured | src/llm_eval_control_plane/application/worker.py:231-249 | the heartbeat that finds a request to cancel is the last, and one acknowledgement is the only call after it: nothing is retried, failed or published, and no error of the execution is reported |
| Worker.LostReported | src/llm_eval_control_plane/application/worker.py:231-249 | after a heartbeat that finds the lease over, or that the database failed, there is no call at all, and the worker reports the lost lease or that it is unavailable |
| Worker.SettlingReported | src/llm_eval_control_plane/application/worker.py:399-440 | a retry or failure that the database does not fail is reported lost iff the lease is over at its last write, else canceled iff that was asked for, else as made |
| Worker.UndisturbedPublishes | src/llm_eval_control_plane/application/worker.py:371-397 | if the last heartbeat finds the job running, nobody comes between, no call fails and the lease it renewed lasts, the evidence the execution produced is published and success reported |
| Submission.BeginSubmits | src/llm_eval_control_plane/adapters/control_plane_db.py:1220-1280 | an accepted enqueue is on record under its key and digest, new or replayed |
| Submission.ReplayFindsSameJob | src/llm_eval_control_plane/application/control_plane.py:1091-1110 | after any run a proposal under the same key creates nothing: same digest answers with that job, another digest is a conflict |
| Submission.OneJobPerKey | src/llm_eval_control_plane/adapters/control_plane_db.py:257-264 | in every reachable store at most one job per (kind, idempotency_key) and per (kind, resource_id) |
| Submission.ObservationsConsistent | dashboard/src/api/local-job-client.ts:115-122 | any earlier and later view of a job pass the client's consistency test |
| Service.ControlPlaneService.SubmitRun | src/llm_eval_control_plane/application/control_plane.py:907-975 | a replay is answered before validation; otherwise a valid request is enqueued exactly as one begin of the proposed job after whatever others did, with its answer; another request's key is refused |
| Service.SubmitTwice | src/llm_eval_control_plane/application/control_plane.py:1091-1110 | submitting a request twice, with anything between, answers with one job, and the two views are consistent |
| Runner.ValidatePlan | src/llm_eval_control_plane/application/runner.py:252-283 | the ordered evaluators, if and only if the plan is valid, which is spelled out by `Readings.PlanAccepted` |
| Runner.RunCase | src/llm_eval_control_plane/application/runner.py:72-180 | the nested loop yields the specified case evidence for every behaviour of target and evaluators |
| Runner.SummarizeMetric | src/llm_eval_control_plane/application/runner.py:325-367 | the counting loop yields the tally of the runner's own reading of each case; what it counts is `Readings.SummaryCounts` |
| Runner.Run | src/llm_eval_control_plane/application/runner.py:56-202 | the run is the specified function of plan, dataset and behaviour; what it stores is `Readings.RunRecords`, `Readings.CaseEvidence` and `Readings.SummaryCounts` |
| Runner.ReadingsAgree | src/llm_eval_control_plane/application/runner.py:330-357 | on every case of a valid plan the reading by evaluator and the reading by metric name agree, whatever failed; what it is, is `Readings.ReadingFromBehaviour` |
| Runner.StoredSummariesAgree | src/llm_eval_control_plane/application/runner.py:319-368 | every stored summary is the tally recomputed from the case evidence and meets its validator |
| Runner.CaseAccepted | src/llm_eval_control_plane/domain/results.py:57-104 | the case validator accepts the runner's evidence iff no accepted evaluator output names a metric twice |
| Runner.EvidenceRejectedIff | src/llm_eval_control_plane/application/runner.py:146-180 | a run of a valid plan is refused for its evidence iff some answered case has an accepted output that names a metric twice |
| Runner.RepeatedMetricExample | src/llm_eval_control_plane/application/runner.py:146-180 | a valid plan and a behaviour that answers one case with one metric twice: the run is refused |
| Runner.CompletedIffCases | src/llm_eval_control_plane/domain/results.py:345-353 | a run is stored as completed iff every case completed; summary error counts add no reason |
| Readings.PlanAccepted | src/llm_eval_control_plane/application/runner.py:252-283 | a plan is valid iff its target and evaluators are pinned, each evaluator declares metrics, and no two share a name and revision or a metric, nor one declares a metric twice |
| Readings.RunRecords | src/llm_eval_control_plane/application/runner.py:56-202 | a run is refused for its plan iff the plan is not sound, and a stored one records its identifier, dataset, target, mode, exactly the evaluators' references, and a case for each of the dataset's in order |
| Readings.CaseEvidence | src/llm_eval_control_plane/application/runner.py:72-180 | a case holds exactly the observations of the outputs that cover the declared metrics under the evaluator's reference, and a failure with its code for every other evaluator; its status is failed iff the target gave no response, with errors iff a failure or an observed error is there |
| Readings.ReadingFromBehaviour | src/llm_eval_control_plane/application/runner.py:325-367 | a metric of a case reads as an error iff the target gave no response, its owner delivered nothing or observed an error; as skipped or as a value iff its owner delivered that |
| Readings.SummaryCounts | src/llm_eval_control_plane/application/runner.py:319-368 | every stored summary belongs to a metric of the plan under its owner, its errors, skipped and scored count exactly the cases that behaved so, and its mean is their total over the scored |
| Readings.EveryMetricStored | src/llm_eval_control_plane/application/runner.py:319-368 | every metric of the plan has a stored summary under its evaluator |
| Comparison.AggregateCases | src/llm_eval_control_plane/application/comparison.py:357-381 | the counting loop yields the tally of the scoped values; what it counts is `Verdicts.ScopeCounted` |
| Comparison.CompareRuns | src/llm_eval_control_plane/application/comparison.py:40-187 | the decision or configuration error is the specified function of policy, dataset and runs; what it decides is `Verdicts.DecidedOrRefused`, `DecisionAggregate`, `DecisionGate` and `DecisionCase` |
| Decisions.MatchIffConsistent | src/llm_eval_control_plane/application/comparison.py:384-397 | stored summaries pass the check iff each is the tally of its own run's case evidence |
| Decisions.RunnerRunsNeverMismatch | src/llm_eval_control_plane/application/comparison.py:384-397 | for every plan, behaviour and dataset, comparing two runner-produced runs is never refused for stored aggregates |
| Decisions.SamePlanDecides | src/llm_eval_control_plane/application/comparison.py:190-237 | two runs of one plan are compared successfully iff every gate names a metric of the plan and a scope of the dataset; otherwise the gate is unknown |
| Duality.ComparisonDuality | src/llm_eval_control_plane/application/comparison.py:65-101 | swapping the runs is refused for the same reason or decides the mirror image: deltas negated, newly passing and failing exchanged, coverage verdicts equal |
| Duality.ChangesPartitionScope | src/llm_eval_control_plane/application/comparison.py:155-169 | the five change counts of a gate add up to the number of cases in its scope |
| Duality.DecisionPassBalance | src/llm_eval_control_plane/application/comparison.py:467-521 | newly passing less newly failing is the number of candidate values meeting the threshold, by inequality, less the baseline's, among comparable ones |
| Duality.ReleasePassesIff | src/llm_eval_control_plane/application/comparison.py:115-154 | the release passes iff every gate's aggregate has no error, something scored and as much scored and skipped on both sides, a candidate mean within 1e-12 of meeting the threshold, and a change of means within 1e-12 of the tolerated one |
| Duality.DecisionDeltas | src/llm_eval_control_plane/application/comparison.py:357-381 | when every case in scope is scored on both sides the aggregate delta is the mean of the case deltas |
| Verdicts.ReadsIff | src/llm_eval_control_plane/application/comparison.py:338-354 | a stored case reads as the first observation of the metric, and as an error when the target failed or nothing was observed |
| Verdicts.ScopeCounted | src/llm_eval_control_plane/application/comparison.py:357-381 | a recomputed aggregate counts the dataset's cases of the scope by what each reads, and its mean is their total over the scored |
| Verdicts.DecidedOrRefused | src/llm_eval_control_plane/application/comparison.py:190-237 | a decision needs every listed agreement of policy, dataset, runs, evaluators, summaries and gates, and each refusal names one that fails |
| Verdicts.DecisionAggregate | src/llm_eval_control_plane/application/comparison.py:65-101 | each aggregate of a decision belongs to a metric both runs stored under its evaluator and to a scope of the dataset, counts what the evidence says, and its delta is candidate mean less baseline mean |
| Verdicts.DecisionCoversScopes | src/llm_eval_control_plane/application/comparison.py:60-72 | every stored metric and every scope of the dataset has its aggregate |
| Verdicts.DecisionGate | src/llm_eval_control_plane/application/comparison.py:117-155 | each gate result is judged on the aggregate of its own metric and scope: coverage by counts, threshold and regression by inequalities with 1e-12, failure codes exactly for the checks that fail, passed iff all three hold |
| Verdicts.DecisionJudgesAll | src/llm_eval_control_plane/application/comparison.py:117-155 | every gate of the policy is judged, and the release passes iff every result does |
| Verdicts.DecisionCase | src/llm_eval_control_plane/application/comparison.py:467-521 | each compared case is a case of the dataset in the gate's scope, with what both runs' evidence reads, candidate less baseline as delta, and the one of five changes the inequalities give |
| Verdicts.DecisionListsCase | src/llm_eval_control_plane/application/comparison.py:156-169 | every case of every gate's scope is compared |
| Verdicts.DecisionFields | src/llm_eval_control_plane/application/comparison.py:173-187 | a decision names the policy, the dataset, each run's own target and identifier on its own side, and their mode |
| Verdicts.ErrorNeverReleased | src/llm_eval_control_plane/application/comparison.py:410-419 | for every plan and behaviour, a case in a gate's scope on which either run's target failed, or the metric's evaluator delivered nothing or observed an error, fails that gate's coverage, the gate and the release |
| Pagination.FiltersAreTupleOrder | src/llm_eval_control_plane/adapters/control_plane_db.py:1042-1054 | the OR-expanded filters of two and three columns are comparison of tuples in list order, both directions |
| Ordering.TextLessAtFirstDifference | src/llm_eval_control_plane/adapters/control_plane_db.py:1042-1054 | texts compare at the first place where they differ, a proper beginning coming first |
| Pagination.PageIsPrefix | src/llm_eval_control_plane/adapters/control_plane_db.py:2869-2909 | a page is exactly the first rows past the cursor; no next cursor means nothing is left, a next cursor leaves exactly the rows past it |
| Pagination.WalkOrdered | src/llm_eval_control_plane/adapters/control_plane_db.py:1042-1083 | all pages together are in one strict order past the starting cursor |
| Pagination.WalkNeverRepeats | src/llm_eval_control_plane/adapters/control_plane_db.py:1042-1083 | no row is repeated, whatever is inserted between pages |
| Pagination.WalkComplete | src/llm_eval_control_plane/adapters/control_plane_db.py:1042-1083 | a finished walk holds every row present at its start, however rows were inserted meanwhile |
| Pagination.WalkOfFixedTable | src/llm_eval_control_plane/adapters/control_plane_db.py:1042-1083 | on a fixed table, once the limits add up to the rows, the walk has ended and its pages are the ordered table |
| CaseListing.DecisionCasesAscend | src/llm_eval_control_plane/domain/comparison.py:344-354 | the cases of every decision are in strictly ascending (metric, slice, case) order, each key once |
| CaseListing.CasePageIsPage | src/llm_eval_control_plane/adapters/control_plane_db.py:3067-3127 | filtering the stored cases past the cursor gives the page of the ordered matching keys, next cursor included |
| CaseListing.DecisionCaseWalk | src/llm_eval_control_plane/adapters/control_plane_db.py:3067-3127 | under any filters and limits, a walk long enough ends and lists every matching case of the decision in its own order |
| CaseListing.ShownCase | src/llm_eval_control_plane/adapters/control_plane_db.py:3067-3127 | a page may show exactly the comparisons of the given gate scope, and of the metric, slice and change asked for, past the cursor |
| History.WalkShowsEveryRow | src/llm_eval_control_plane/adapters/control_plane_db.py:2814-2909 | a finished walk through runs, decisions, targets or target pairs, with any store operations between pages, shows every row that matched at its start exactly once, in strict order |
| History.ShownRow | src/llm_eval_control_plane/adapters/control_plane_db.py:2814-2909 | a list shows exactly the rows that match its filter, a run or decision under its own creation time and identifier, a target or pair under the name, revision and digest of the runs it comes from |
| History.CompareTargetIsKeyOrder | dashboard/src/api/suite-history-validation.ts:106-116 | the client's target comparison is the server's column order, with equality exactly for equal pins |
| History.HistoryPageAccepted | dashboard/src/api/suite-history-validation.ts:246-264 | every run or decision history page the server can send passes the newest-first check |
| History.TargetPageAccepted | dashboard/src/api/suite-history-validation.ts:118-141 | every target group page passes the client's order check |
| History.PairPageAccepted | dashboard/src/api/suite-history-validation.ts:143-182 | every target pair page passes the client's order check |
| History.OrderChecksIff | dashboard/src/api/suite-history-validation.ts:118-182 | the client accepts exactly the target and pair pages in the server's strict order |
| History.HistoryCheckIff | dashboard/src/api/suite-history-validation.ts:246-264 | the client accepts exactly the history pages in strict newest-first order without a repeated identity |
| History.TimestampOrder | dashboard/src/api/suite-history-validation.ts:55-61 | timestamps compare by whole seconds and then by fraction digits scaled to microseconds |
| Cursor.Base64RoundTrip | src/llm_eval_control_plane/adapters/control_plane_db.py:798-812 | decoding the stripped text with its padding put back returns the bytes, for every byte string |
| Cursor.AlphabetOrder | src/llm_eval_control_plane/adapters/control_plane_db.py:798-812 | the character of each value is the one at its place among capitals, small letters, digits, `-` and `_` |
| Cursor.GroupsOfSextets | src/llm_eval_control_plane/adapters/control_plane_db.py:798-812 | three bytes and their four characters are digits of one number, and one or two bytes leave zero bits over |
| Cursor.B64DecodeIff | src/llm_eval_control_plane/adapters/control_plane_db.py:812-814 | strict decoding takes exactly whole quads of the alphabet with at most two pads at the end |
| Cursor.CursorRoundTrip | src/llm_eval_control_plane/adapters/control_plane_db.py:779-847 | a cursor decodes to its key for its own stream and filters and is refused for any other, iff its document is at most 1536 bytes |
| Cursor.AcceptedCursor | src/llm_eval_control_plane/adapters/control_plane_db.py:801-847 | whatever decodes carries a canonical, checksummed document for the reader's own stream and filters |
| Cursor.CursorAcceptedIff | src/llm_eval_control_plane/adapters/control_plane_db.py:801-847 | a text is accepted for a key iff it has 1 to 2048 characters of the alphabet and carries the canonical document of version, stream, filters and key with their checksum |
| Listings.CursorFits | src/llm_eval_control_plane/adapters/control_plane_db.py:779-808 | from the bounds on names, slices, metrics, digests and revisions, the document of every cursor of every list is at most 1536 bytes |
| Listings.FiltersInjective | src/llm_eval_control_plane/adapters/control_plane_db.py:735-753 | two lists, or one list under two sets of filters, never share stream and filters |
| Listings.NextCursorDecodes | src/llm_eval_control_plane/adapters/control_plane_db.py:779-847 | every next cursor of every list decodes to the sort columns of its last row, which the list accepts, for that list and those filters, and is refused for any other |
| Listings.CursorCarriesSortKey | src/llm_eval_control_plane/adapters/control_plane_db.py:2814-2909 | the cursor of each list carries the columns the list is sorted by, in their order |
| Scanner.ContainsComment | src/llm_eval_control_plane/adapters/sql_policy.py:153-195 | the index and state loop finds a comment iff the recursive lexer meets one outside quotes |
| Scanner.PlainTextComments | src/llm_eval_control_plane/adapters/sql_policy.py:167-170 | without quotes, a comment is found iff `--` or an opening slash-star occurs anywhere |
| Scanner.QuotedIsClosed | src/llm_eval_control_plane/adapters/sql_policy.py:177-184 | every text quoted with quotes and backslashes doubled holds no comment and ends outside quotes, and what follows is read as if alone |
| Scanner.DollarQuotedIsClosed | src/llm_eval_control_plane/adapters/sql_policy.py:171-176 | every text between a dollar delimiter and its first closing occurrence holds no comment and ends outside quotes, whatever follows |
| Scanner.DelimiterMeans | src/llm_eval_control_plane/adapters/sql_policy.py:127-127 | a text starts with a dollar-quote delimiter iff it starts with two dollar signs around nothing, or around letters, digits and underscores of which the first is no digit |
| Scanner.PiecesRead | src/llm_eval_control_plane/adapters/sql_policy.py:153-195 | of any text in pieces, bare, single-quoted with either escape, double-quoted and dollar-quoted in any order, nothing is a comment and what follows is read as if alone, so a marker after it is found |
| Scanner.NeverClosed | src/llm_eval_control_plane/adapters/sql_policy.py:177-195 | a quote of any kind that is never closed holds no comment |
| Publisher.NextInv | src/llm_eval_control_plane/adapters/filesystem.py:91-132 | every step of every concurrent save keeps the directory invariant and every stored artifact |
| Publisher.DestinationNeverPartial | src/llm_eval_control_plane/adapters/filesystem.py:110-121 | at every instant of every run a destination is absent or holds one complete payload, for ever |
| Publisher.NormalReturnStored | src/llm_eval_control_plane/adapters/filesystem.py:91-132 | a save that returned normally finds its own bytes stored, then and ever after |
| Publisher.NeverBothSucceed | src/llm_eval_control_plane/adapters/filesystem.py:171-183 | two saves that returned normally for one run identifier stored the same payload |
| Publisher.AnswerStaysTrue | src/llm_eval_control_plane/adapters/filesystem.py:171-183 | what a save was told stays true: in every continuation an artifact of its run is stored, with its own bytes if it was saved, with other bytes of the same run if it met a conflict |
| Publisher.RetriesAgree | src/llm_eval_control_plane/adapters/filesystem.py:91-132 | two saves of one payload for one run, however far apart and among whatever others, are never one saved and one in conflict |
| Publisher.RunDirectory.Save | src/llm_eval_control_plane/adapters/filesystem.py:91-132 | written in any number of pieces, among any other calls, with an operating-system error at any one step: saved, conflict and corrupt each say what is stored under the name; it fails only for an error at a step it reached, or for its size; and alone it leaves no temporary file |
| Dashboard.NearestRankIsQuantile | src/llm_eval_control_plane/application/dashboard.py:206-208 | the nearest rank for any fraction is a sample that at least ceil(p*n) samples do not exceed, and fewer do not exceed any smaller value |
| Dashboard.FloatRanksExact | src/llm_eval_control_plane/application/dashboard.py:206-208 | the ranks computed in binary64 from 0.5 and 0.95 are the exact ceilings, for up to 2^46 samples |
| Dashboard.QuantilesOfPermutation | src/llm_eval_control_plane/application/dashboard.py:195-217 | the order of the samples makes no difference |
| Dashboard.RefusedIffMeanOutside | src/llm_eval_control_plane/domain/analytics.py:30-50 | the quantiles are always in order, and a summary is refused iff it shows a rounded mean outside the range of its samples |
| Dashboard.AcceptedByExtremes | src/llm_eval_control_plane/domain/analytics.py:48-49 | a sample is accepted when its least value taken n times averages no lower and its greatest no higher |
| Dashboard.AcceptedIffOwnAverages | src/llm_eval_control_plane/domain/analytics.py:48-49 | under any monotone idempotent rounding, every sample of size n is accepted iff every float averages to itself when taken n times |
| Dashboard.AcceptedIffPowerOfTwo | src/llm_eval_control_plane/domain/analytics.py:48-49 | in binary64, every sample of size n is accepted iff n is a power of two; for any other n some n equal samples between 0 and 1 are refused |
| Dashboard.SevenTenthsRefused | src/llm_eval_control_plane/application/dashboard.py:210-217 | three samples 0.7 are refused |
| Dashboard.CountScoreValues | src/llm_eval_control_plane/application/dashboard.py:108-129 | the counting loop fails iff the statistics of the scored values are refused, and else has the coverage of the aggregate and meets its validator |
| Dashboard.DecisionDeltasFit | src/llm_eval_control_plane/domain/comparison.py:78-105 | every comparison of every decision carries a delta iff both sides were scored |
| Dashboard.DeltasValid | src/llm_eval_control_plane/application/dashboard.py:82-105 | for every gate of every decision an accepted delta distribution meets its validator and counts exactly the incomparable cases |
| Dashboard.MeasureRun | src/llm_eval_control_plane/application/dashboard.py:142-182 | the one pass over the cases measures exactly the available values, and what it accepts meets its validators |
| Dashboard.SmallRunsLookAlike | src/llm_eval_control_plane/application/dashboard.py:200-204 | with fewer than twenty measurements of a kind, any two runs with the same outcomes show the same, whatever their latencies and usage |
| Reports.QuantilesShow | src/llm_eval_control_plane/application/dashboard.py:195-217 | every accepted summary counts its samples, is suppressed iff it has fewer than the size it must not reveal, and else shows the least and greatest float, as p50 and p95 the least floats that half and 19 of 20 do not exceed, and the rounded quotient of the rounded sum; it is refused iff that mean is below or above all floats |
| Reports.RunShows | src/llm_eval_control_plane/application/dashboard.py:142-182 | each operational figure shows exactly its own values with suppression below twenty, counts the cases without one and the failed targets, and all are refused iff one would show a mean outside its values |
| Reports.MeasuredOfOne | src/llm_eval_control_plane/application/dashboard.py:142-168 | a failed target gives its latency if it has one and no usage, a case without target neither, a response its latency, input, output and their sum |
| Reports.MeasuredInARow | src/llm_eval_control_plane/application/dashboard.py:142-168 | the values of cases in a row are those of the first and then of the rest |
| Reports.DeltasShow | src/llm_eval_control_plane/application/dashboard.py:98-104 | a delta distribution counts all comparisons of the gate and shows exactly the deltas there are |
| Reports.EvidenceOfGate | src/llm_eval_control_plane/application/dashboard.py:60-64 | a gate's evidence is the decision's comparisons of its metric and scope |

## Left out

- JobRepository.Repository.ClaimNextJob: does not model SKIP LOCKED; each repository method is one atomic step on one store, so a claim never passes over a row another transaction has locked.
- JobRepository.Repository.ReapExpiredJobs: does not model SKIP LOCKED, for the same reason.
- Queue.BoundedOvertaking: speaks of atomic claims; a claim that passes over a locked row is not counted.
- JobRepository.Repository.BeginJob: the payload limit is modelled; traceparent and the format of digests are not.
- JobRepository.Repository.CompleteRun: the configurable document limit is taken at its default of 64 MiB, and what the evidence document says inside is not modelled.
- JobRepository.Repository.CompleteReleaseDecision: the document limit is taken at its default, as for runs.
- Service.ControlPlaneService.SubmitRun: validating the plan and the executor against the resolved dataset is a boolean parameter.
- Runner.Run: leaves out the guards that compare suite pins, the measured latency and the run digest.
- Comparison.CompareRuns: leaves out the guards that compare suite pins, and the digests it checks and computes.
- Runner.SummarizeMetric: the stored mean is the exact quotient of the exact sum; its float is the same function of the same sum on both sides of the later check.
- Comparison.AggregateCases: the mean is exact, as for the runner.
- Duality.DecisionDeltas: holds of exact reals; float means and deltas satisfy it only up to rounding.
- Duality.ComparisonDuality: thresholds are compared over exact reals with the tolerance 1e-12; rounding is symmetric in sign and keeps the mirror image.
- History.HistoryPageAccepted: text is compared by code point, while the history query leaves the collation of its identity column to the database.
- Dashboard.RefusedIffMeanOutside: rounding has no largest float, so the OverflowError of a sum past it is not modelled; ranks are taken exactly, which `Dashboard.FloatRanksExact` justifies up to 2^46 samples.
- Dashboard.AcceptedIffPowerOfTwo: like every statement about binary64 here it leaves out overflow, and it stops at 2^52 samples.
- Dashboard.CountScoreValues: leaves out overflow.
- Dashboard.MeasureRun: leaves out overflow.
- Publisher.RunDirectory.Save: directory creation, permissions and the meaning of fsync for power loss are not part of the model, and an error while the temporary file is created, which escapes as it is, counts as a store failure.
- Row locks and transaction isolation: a repository method is atomic; what the database does to make it so is not modelled.
- Clocks: each reading of the database clock is an arbitrary advance given as a parameter; the service's own clock is unrelated to it.
- Regular expressions for names, identifiers and digests: only lengths and printable text are modelled, where a result needs them; worker identifiers, lease tokens and error codes have their full patterns.
- Canonical JSON and SHA-256: the cursor uses an abstract encoder with laws for its sizes, a parser that inverts it and an abstract checksum; run, decision and dataset digests are omitted.
- put_run, put_release_decision, suites and rows of the legacy migration: every store starts empty and evidence enters only through completion.
- Job lists filtered by status: statuses change between pages, so the walk guarantee does not apply to them.
- asyncio scheduling: whether the monitor or the execution ends first, and how many heartbeats come before, is a free choice of the schedule; latencies and tracing are omitted.
- What an executor computes: a run must carry its job's resource identifier, and any other check of its result is one of the failures building evidence can end with.
- submit_comparison, suite submissions and validate_comparison_inputs: they differ from submit_run in what is validated before the same enqueue.
- Usage, latency and response content of a case result: not read by summaries or comparison.
- Python's equality of 1, 1.0 and True in the cursor payload: the model's documents keep numbers and booleans apart.
- build_release_decision_distributions: the guards that match a decision with its pinned runs, before the statistics.
- HTTP, authentication, settings, the command line, panels, telemetry, sqlglot policies and DataBridge targets.
