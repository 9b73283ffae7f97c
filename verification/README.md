# The job pipeline, verified

This project models the background pipeline of the CV evaluator and the services that change the same
rows, and proves what they guarantee together.

The pipeline has no queue table. Workers claim `jobs` and `search_results` rows with one statement, do
slow work (scraping, embedding, the LLM) with no lock held, and write the outcome later. Meanwhile users
re-evaluate results, edit searches and delete their accounts, and the scheduler claims search runs. The
guarantees are about all interleavings of these steps.

## How the project is organised

| file | content |
|---|---|
| `Common`, `Strings`, `Ordering`, `Spacing`, `Sums` | shared vocabulary: options and ids, trimming and lower-casing, sorting by a strict total order, spaced instants, sums over sets |
| `SlidingWindow` | the API's rate limiter, against a limiter that keeps its full history |
| `RetryDelay`, `PortalLimiter`, `SlotDemands` | the retry delay in 64 bits; the per-portal limiter with doubling penalties, and that no call waits longer than its history demands |
| `Matcher`, `Answers` | normalising the LLM's answer, and what each part of the result is in terms of the answer |
| `Tables`, `Store`, `Worker` | the tables; the atomic steps on rows; what a worker gathers and writes (`EmbedOne`, `EvaluateOne`) |
| `Portals` | one portal of a search run: searching it with retries, storing each posting once |
| `Schedule`, `SearchEdits`, `Account`, `Results`, `Triage` | the services for saved searches, account deletion and triage, and what each call does to the columns |
| `Machine` | all of it as one state machine: the database, the clock, the workers and runs in flight; an event is one statement or transaction |
| `Integrity`, `Reachable` | the invariant of every reachable state |
| `Scores`, `Reports`, `JobReports`, `Ownership`, `Retries`, `ResultRetries`, `AttemptsBound`, `RunLease` | what runs of the machine guarantee about scores, claims, attempts and search runs |
| `Frames`, `Locking`, `Consistency`, `LockingSteps`, `Belongings`, `StepEffects`, `LockingInvariant` | the same machine at the granularity of row locks, and what every one of its steps keeps and adds |
| `LateRows`, `DeletionSafety`, `DeletedUsers`, `DeletionRace` | deleting an account in it: what a deletion leaves behind, when it is atomic, when its user stays deleted, and three runs in which they do not |
| `Paging`, `Listed`, `Summary`, `Counted`, `Breakdowns` | listing results page by page and which rows the pages show, the dashboard's counts and what each counts, the order of a breakdown |

The services are classes and methods over a `Database` whose tables they change; each method is proved
equal to a function on the database as a value (`DB`), and the machine and its invariants are stated over
those functions.

## What is proved, in short

- **Whatever overlaps, the data stays consistent.** In every reachable state, with workers that are never
  fenced and may write arbitrarily late, rows have their parents and one owner, unique indexes hold, a
  search has a next run exactly while it is enabled, and a result's copied score is its current
  evaluation's exactly while that is completed (`Reachable.ReachableIsGood`, `Scores.CopiedScoreAgrees`).
- **What is stored is what was reported.** Over whole runs an evaluation is, column by column, what the last
  report on its result and CV said, and a job has the description last fetched and the embedding last
  computed for it (`Reports.EvaluationsTellTheLastReport`, `JobReports.JobsTellTheLastReports`). A completed
  evaluation is its stored answer decoded, every number of which is the given one or the nearer end of its
  range (`Scores.ScoresFollowTheAnswer`, `Answers.DecodedIsAnswer`).
- **Ownership needs the lease, and only the lease.** While workers write before their claim is StaleTimeout
  old, no row has two workers and an embedded job stays embedded; a concrete run shows that a late write
  can take an embedded job back (`Ownership.OneWorkerPerRow`, `Ownership.LateWriteUndoesEmbedding`).
- **Attempts are bounded while nothing is reclaimed,** work on n jobs ends within n times MaxAttempts
  rounds, and a failed job waits out its delay (`Retries.AttemptsAreBounded`, `Retries.JobsSettle`,
  `Retries.RetriesWait`). With reclaims and late writers the bound can be lost in two ways: by a stale
  reclaim of a row on its last attempt, whatever MaxAttempts is, and, where it is more than one, by a late
  writer that judges by the attempts it claimed with and makes such a row ready again. It holds throughout a
  run exactly when neither happens (`AttemptsBound.BoundHoldsExactlyWhen`).
- **Row locks make transactions atomic, except for one kind of deletion.** In a machine with separate lock,
  write, commit and rollback steps, and one delete per table, every step is an event of the atomic machine
  exactly when each deletion that commits leaves nothing of its user
  (`DeletionSafety.TransactionsAreAtomicExactlyWhen`). It leaves exactly the rows that others committed for
  the user after the statement for their table; late results and evaluations are of searches and results it
  had not locked (`LateRows.DeletionLeavesExactlyTheLate`, `LateRows.LeavesNoneExactlyWhen`). That cannot
  happen while the user's requests store nothing meanwhile (`DeletionSafety.QuietRunsAreClean`); it does in a
  run in which a second session adds a search between two statements and the commit leaves its result behind
  (`DeletionRace.LateSearchLeavesResult`).
- **A deleted user stays deleted exactly when** nothing slipped in like that and no request stores a search,
  CV, CV section, API key or portal suggestion for them afterwards
  (`DeletedUsers.DeletedForGoodExactlyWhen`). Nothing prevents the latter. A request whose session was
  validated before the commit is served after it, and its search is due at once
  (`DeletedUsers.LateRequestIsServed`, `DeletionRace.LateRequestRevivesUser`); and when an account is deleted
  while one of its CVs is being processed, the CV's sections are stored afterwards and stay
  (`DeletedUsers.LateRowsAreStored`, `DeletionRace.LateSectionsStayForGood`, `DeletedUsers.LeftBehindForGood`).
- **A search's claims are apart** by the lease or its frequency, and a disabled search is never claimed
  (`RunLease.ClaimsAreApart`, `RunLease.DisabledIsNeverClaimed`).
- **Limiters, pages and counts** do what their documentation says, with the exact 64-bit condition for the
  two delays that double (`SlidingWindow.AnswersAsFullHistory`, `PortalLimiter.FewSlotsPerSpan`,
  `SlotDemands.SlotIsEarliest`, `Paging.PagesConcatenate`, `Listed.PagesListTheAsked`,
  `Summary.SummaryConserves`, `RetryDelay.BackoffClosedForm`).

## Where the code differs from its comments

- `internal/pipeline/contracts.go:6-18` says a row is claimed inside a transaction that also records the
  outcome, and that a crash rolls it back. The code claims in one short statement, holds nothing while it
  works and writes afterwards without fencing (`internal/pipeline/store.go:47-57`). The model follows the code.
- `internal/pipeline/pipeline.go:483-485` presents MaxAttempts as a bound on attempts. The claim statement
  does not check it for stale rows, and a late writer checks its own count, not the row's; see
  `AttemptsBound.BoundHoldsExactlyWhen`.
- `internal/services/account/account.go:50-56` says the locks keep late workers from recreating rows. That
  holds for the searches that exist when the deletion takes its locks; see
  `LateRows.DeletionLeavesExactlyTheLate` and `DeletionRace.LateSearchLeavesResult`.
- `internal/services/account/account.go:46-48` speaks of foreign keys that might be added later. There is one
  already: scores go with their evaluations (`internal/models/evaluation.go:53`). The model has that cascade.

## Model

| member | source | states |
|---|---|---|
| SlidingWindow.Limiter.constructor | internal/servers/ratelimit/ratelimit.go:34-41 | a limit of at least 1 and no hits |
| SlidingWindow.Limiter.Allow | internal/servers/ratelimit/ratelimit.go:52-69 | the new state and answer of one call, sweep included, are those of the step function |
| SlidingWindow.Limiter.RecentHits | internal/servers/ratelimit/ratelimit.go:72-80 | the index scan returns the hits left after dropping the leading ones outside the window |
| SlidingWindow.Limiter.Sweep | internal/servers/ratelimit/ratelimit.go:82-88 | exactly the keys with no hit left in the window are forgotten |
| SlidingWindow.AnswersAsFullHistory | internal/servers/ratelimit/ratelimit.go:49-88 | after any history with a nondecreasing clock, over any keys, the trimmed and swept limiter answers as one that keeps every event it allowed |
| SlidingWindow.StoredHitsSortedAndBounded | internal/servers/ratelimit/ratelimit.go:62-80 | stored hits are sorted, at most the limit, and not later than the clock |
| SlidingWindow.AtMostLimitPerWindow | internal/servers/ratelimit/ratelimit.go:33-69 | any half-open interval one window long holds at most limit allowed events of a key |
| SlidingWindow.RetryAfterIsExact | internal/servers/ratelimit/ratelimit.go:49-69 | a rejection's wait is positive and at most the window, and a later call of the key is rejected exactly until it has passed, whatever else is called meanwhile |
| RetryDelay.Backoff | internal/pipeline/pipeline.go:203-212 | the doubling loop computes the delay function, with 64-bit wrap-around |
| RetryDelay.BackoffClosedForm | internal/pipeline/pipeline.go:202-212 | every delay is min(base * 2^n, cap) if and only if the first doubling of the base that reaches the cap fits in 64 bits |
| RetryDelay.SmallDelaysFit | internal/pipeline/pipeline.go:202-212 | base and cap below 2^62 nanoseconds meet that condition |
| RetryDelay.BackoffMonotone | internal/pipeline/pipeline.go:202-212 | under it delays are positive, nondecreasing in the attempt and at most the cap |
| PortalLimiter.RateLimiter.constructor | internal/pipeline/ratelimit.go:25-59 | defaults are filled in and no portal has a state |
| PortalLimiter.RateLimiter.Reserve | internal/pipeline/ratelimit.go:93-105 | the slot booked and the wait for it are those of the step function |
| PortalLimiter.RateLimiter.ReportOutcome | internal/pipeline/ratelimit.go:115-138 | the penalty and next slot after a success, a cancelled call or a failure |
| PortalLimiter.SlotsAreSpaced | internal/pipeline/ratelimit.go:91-105 | over every history and any clock, slots k places apart are at least k intervals apart |
| PortalLimiter.FewSlotsPerSpan | internal/pipeline/ratelimit.go:91-105 | with a positive interval any closed span W holds at most W / interval + 1 slots of a portal |
| SlotDemands.SlotIsDemanded | internal/pipeline/ratelimit.go:91-138 | over every history, clock and interval, a slot is its call's own instant, an earlier slot of the portal plus its interval, or an earlier failure's instant plus its penalty |
| SlotDemands.SlotIsEarliest | internal/pipeline/ratelimit.go:91-138 | for an interval that is not negative it is the earliest instant those allow, so that no call waits longer than they demand and one they do not put off does not wait |
| PortalLimiter.NoSlotDuringPenalty | internal/pipeline/ratelimit.go:112-138 | for an interval that is not negative: after a failure reported at t with penalty p, no slot booked later is before t + p |
| PortalLimiter.PenaltiesAreRespectedExactlyWhen | internal/pipeline/ratelimit.go:112-138 | that holds over all histories if and only if the portal's interval is not negative; the defaults leave a portal's own negative one in place |
| PortalLimiter.PenaltyCountsFailures | internal/pipeline/ratelimit.go:112-138 | the penalty depends only on the failures in a row since the last success; cancelled calls and bookings do not count |
| PortalLimiter.PenaltyClosedForm | internal/pipeline/ratelimit.go:127-134 | for any interval, negative ones too: the k-th failure in a row sets min(interval * 2^(k-1), MaxPenalty) for all k if and only if the interval is zero, or positive with MaxPenalty below 2^62 |
| PortalLimiter.PortalsAreIndependent | internal/pipeline/ratelimit.go:82-138 | a portal's slots and state are those of its own calls alone |
| Matcher.CleanList | internal/services/matcher/matcher.go:220-232 | the loop returns the first items that are not blank, trimmed, up to the maximum |
| Matcher.CleanListIdempotent | internal/services/matcher/matcher.go:218-232 | cleaning a clean list changes nothing; it has no empty item and at most the maximum |
| Matcher.CleanRequirements | internal/services/matcher/matcher.go:236-262 | the loop returns the first well-formed requirements, normalised, up to the maximum |
| Matcher.CleanRequirementsIdempotent | internal/services/matcher/matcher.go:234-262 | cleaning clean requirements changes nothing |
| Matcher.KeepScores | internal/services/matcher/matcher.go:173-186 | the loop with its seen map returns the kept scores |
| Matcher.BreakdownKeepsFirstOfEach | internal/services/matcher/matcher.go:158-186 | each known criterion the LLM scored is kept exactly once, with its first score, as given from 0 to 100 and else the nearer of the two, and its reason, and nothing else is |
| Matcher.CapMissedMust | internal/services/matcher/matcher.go:192-197 | the loop caps the score exactly when some must-have is not met |
| Matcher.DecodeResponse | internal/services/matcher/matcher.go:164-199 | it succeeds exactly on a parsed answer and returns it normalised; null and unreadable answers are errors |
| Answers.DecodedIsAnswer | internal/services/matcher/matcher.go:158-266 | the score is the given one within 0 and 100, or within 0 and 69 when a must-have is missed; each criterion has its first score and reason likewise; strengths, missing skills and requirements are the first usable items of their own lists, and the summary is the given one, all trimmed |
| Answers.StoredRequirementsAreRead | internal/services/matcher/matcher.go:201-216 | the requirements of a stored answer are the first usable ones of those that can be read, even where nothing else can |
| Answers.MatchedIsAnswer | internal/services/matcher/matcher.go:100-136 | the evaluator returns the raw text whenever there is one, and either the answer decoded or an error |
| Matcher.DecodersAgree | internal/services/matcher/matcher.go:201-216 | both decoders find the same requirements in the same parsed answer |
| Matcher.MustHaveCaps | internal/services/matcher/matcher.go:158-199 | an answer whose requirements list a missed must-have scores as given up to 69, any other as given up to 100 |
| Store.ClaimOneJob | internal/pipeline/store.go:59-90 | it claims, of the unlocked jobs that are ready and due or whose worker is presumed dead, the one never put off or put off to the earliest time, then the oldest, then the smallest id, changing that row only; none only when there is none |
| Store.ClaimOneResult | internal/pipeline/store.go:92-123 | likewise for results, whose job must be embedded and not deleted |
| Store.SelectCV | internal/pipeline/store.go:29-45 | the newest CV by creation and id that the user has not deleted, or none exactly when there is none |
| Store.UpsertSearchResult | internal/pipeline/store.go:125-162 | a result is added exactly when its search is live and has no result for the job; the unique index stays |
| Store.UpsertEvaluation | internal/pipeline/store.go:183-206 | the row of the same result and CV is overwritten keeping its id and creation time, else a new one is added |
| Store.ReplaceScores | internal/pipeline/store.go:208-221 | the evaluation's scores are exactly the new ones; it fails exactly when two name one criterion |
| Store.SaveEvaluation | internal/pipeline/store.go:179-222 | evaluation and scores change together, and no other row does |
| Worker.ApplyFailure | internal/pipeline/pipeline.go:483-495 | the retry columns of a failed attempt: given up when permanent or at MaxAttempts, else ready after the delay |
| Worker.RecordJob | internal/pipeline/pipeline.go:447-480 | every column of the row after the write, whatever became of it since the claim: a fetched description is kept in any case, a success stores the embedding; a missing or deleted row is left alone |
| Worker.EmbedOne | internal/pipeline/pipeline.go:414-481 | for any portal and embedder, every column of the job before and after: the embedding is that of its own or the fetched description; a release gives the attempt back; a failure counts it and puts the job off |
| Worker.GatherResultUpdates | internal/pipeline/pipeline.go:542-564 | the four cases of an evaluation's outcome, applied to any row |
| Worker.RecordResult | internal/pipeline/pipeline.go:566-590 | the transaction's effect: evaluation, scores and result together, with every column of the result's work; nothing when the result is gone, and a full rollback when the scores conflict |
| Worker.RecordEvaluation | internal/pipeline/pipeline.go:576-589 | the part of the transaction that saves an evaluation and points the result at it |
| Worker.EvaluateOne | internal/pipeline/pipeline.go:508-637 | for any evaluator, every column of the result before and after, and its evaluation: completed with the evaluator's response or failed with its error, for the newest CV of the user; or put off for want of one |
| Portals.Search | internal/pipeline/pipeline.go:365-376 | the first answer of the portal within the attempts, stopping early only on shutdown |
| Portals.StorePosting | internal/pipeline/pipeline.go:379-395 | one posting: skipped when its id is blank, else a job and a result |
| Portals.RunPortal | internal/pipeline/pipeline.go:378-398 | the loop stores the postings in turn and stops at the first error |
| Portals.RunStoresEach | internal/pipeline/pipeline.go:355-399 | after a portal's run every posting has its job, and its result while the search is live |
| Portals.PostingIsStoredAsFound | internal/entities/jobs.go:16-35 | the columns of the job and of the result a posting adds, and that each is added only where there was none |
| Portals.RunSucceedsExactlyWhen | internal/storage/jobs/jobs.go:28-55 | the run succeeds exactly when every posting can be stored: its id is blank, or the portal has a name and its job is not deleted |
| Portals.InterruptedRunStoresBefore | internal/pipeline/pipeline.go:378-398 | otherwise it stops at the first posting that cannot, with all before it stored and nothing after |
| Portals.RunAdds | internal/storage/jobs/jobs.go:28-55 | a run, interrupted or not, adds at most one job and one result per posting and changes no row that was there |
| Portals.RerunChangesNothing | internal/pipeline/pipeline.go:355-399 | running a portal again over the same postings changes nothing |
| Schedule.Record.Validate | internal/services/jobsearches/jobsearches.go:219-243 | the first failing check, or the record with its default name |
| Schedule.Record.Set | internal/services/jobsearches/jobsearches.go:149-161 | exactly the given fields change, trimmed |
| Schedule.Record.Reschedule | internal/services/jobsearches/jobsearches.go:167-176 | the next run after enabling, disabling or changing the frequency |
| Schedule.CreateSearch | internal/services/jobsearches/jobsearches.go:85-111 | the new row, or the validation error and no change |
| Schedule.UpdateSearch | internal/services/jobsearches/jobsearches.go:140-182 | the changed row, or the error and no change |
| SearchEdits.CreateColumns | internal/services/jobsearches/jobsearches.go:85-111 | refused exactly for its texts, else one row more with the given columns, due at once unless disabled |
| SearchEdits.UpdateColumns | internal/services/jobsearches/jobsearches.go:140-182 | refused exactly for its texts or a search the user does not have, else the given columns and the next run: none, now, by the new frequency from the last run, or as it was |
| SearchEdits.UpdateTwice | internal/services/jobsearches/jobsearches.go:140-182 | saying the same again changes nothing |
| SearchEdits.EnablingIsDue | internal/services/jobsearches/jobsearches.go:167-176 | a search disabled is not due, and enabled again it is due at once |
| Schedule.RunSearchNow | internal/services/jobsearches/jobsearches.go:198-217 | the search is due now; a missing or disabled search is an error and no change |
| Schedule.ClaimSearchRun | internal/pipeline/sources/sources.go:59-71 | true exactly when the search was due, and then its next run is the lease's end |
| Schedule.MarkSearchRun | internal/pipeline/sources/sources.go:73-83 | last and next run, the latter none for a search disabled meanwhile |
| SearchEdits.DueAgainExactlyWhen | internal/pipeline/sources/sources.go:59-83 | a claimed search is due again exactly when its lease is over, a marked one exactly one period after its run began |
| Schedule.OneWinnerPerRun | internal/pipeline/sources/sources.go:59-71 | of any callers racing for one due run before the lease ends exactly one wins |
| Schedule.UpdateKeepsScheduled | internal/services/jobsearches/jobsearches.go:140-182 | an update keeps every search scheduled exactly while enabled |
| Account.Service.DeleteFrom | internal/services/account/account.go:116-123 | one delete removes exactly the rows its condition selects, with the scores of evaluations by their foreign key, and counts the former |
| Account.Service.Delete | internal/services/account/account.go:42-130 | the loop runs all statements and reports each count; an unknown user changes nothing |
| Account.DoomedFromTheStart | internal/services/account/account.go:46-48 | because children go first, each statement still selects all the rows it would have selected before the first |
| Account.DeleteErases | internal/services/account/account.go:42-155 | given ownership, what is left is the database without that user: all their rows gone, every other row and every job as it was |
| Account.ReportCountsRowsLost | internal/services/account/account.go:36-48 | each reported count is the number of rows the whole deletion takes from that table |
| Account.EveryStepKeepsParents | internal/services/account/account.go:46-48 | between any two statements no score, evaluation or result is without its parent, and no section has lost its CV |
| Results.OneOf | internal/services/results/results.go:448-465 | the loop with its seen map computes the chosen names or the error |
| Results.ChosenAreTheWanted | internal/services/results/results.go:448-465 | it fails exactly when a given name is not allowed, else returns every name given exactly once |
| Results.UpdateResultStatus | internal/services/results/results.go:610-629 | the status of a visible result, or the first error and no change |
| Results.ReEvaluateResult | internal/services/results/results.go:631-661 | a visible result that is done, failed or waiting is made due with no attempts, keeping its evaluation; else an error and no change |
| Triage.ReEvaluateColumns | internal/services/results/results.go:631-661 | exactly a result that is done, given up or put off is as if never tried, keeps its evaluation and score, and can be claimed at once if its job is embedded |
| Triage.UpdateStatusColumns | internal/services/results/results.go:610-629 | the status becomes the given one of four, up to space and case, or the first error is named |
| Reachable.StepKeepsGood | internal/pipeline/store.go:47-57 | every event keeps the invariant, however late its worker |
| Reachable.ReachableIsGood | internal/pipeline/store.go:47-57 | in every reachable state scores, evaluations and results have their parents, rows and the parents they have are of one owner, unique indexes hold, searches are scheduled exactly while enabled and copied scores agree |
| Integrity.TidyWrite | internal/pipeline/pipeline.go:566-590 | a worker's transaction keeps all of that, whatever changed since its claim |
| Integrity.ChangeKeepsCoherent | internal/models/searchresult.go:36-38 | saving an evaluation and copying its score keeps every result's copy in agreement |
| Scores.CopiedScoreAgrees | internal/models/searchresult.go:36-38 | a result's evaluation exists and is its own, and its score is copied exactly while completed, in every reachable state |
| Scores.DoneMeansCompleted | internal/pipeline/pipeline.go:556-587 | a done result points at a completed evaluation with its score, given an evaluator that responds when it does not fail |
| Scores.WriteKeepsDoneExactlyWhen | internal/pipeline/pipeline.go:542-587 | a write leaves that so exactly when the evaluator responds, the write only releases the result, or its current evaluation was completed before |
| Scores.MatcherOutcomes | internal/services/matcher/matcher.go:100-131 | what the matcher returns for any outcome of its LLM calls is an outcome the score properties assume of it |
| Scores.MatcherRespondsOnce | internal/services/matcher/matcher.go:115-199 | the matcher meets the condition and never breaks the unique index of scores |
| Scores.ReleaseKeepsScoreExactlyWhen | internal/pipeline/pipeline.go:544-587 | a result released by a shutdown keeps its score exactly when the matcher had not failed by then |
| Scores.ScoresFollowTheAnswer | internal/pipeline/store.go:179-222 | over whole runs each result and CV has one evaluation; a completed one has the score, strengths, missing skills, summary and score rows of its stored answer and no error, a failed one nothing of these |
| Reports.EvaluationsTellTheLastReport | internal/pipeline/pipeline.go:615-640 | over whole runs, late workers included, an evaluation and its score rows are what the last report on its result and CV said: the response, or the error's message and nothing else |
| JobReports.JobsTellTheLastReports | internal/pipeline/pipeline.go:447-466 | over whole runs a job has the embedding last reported for it and the description last fetched for it, embedded or not; an embedded job has an embedding; visited means described |
| Scores.MissedMustCapsStoredScores | internal/services/matcher/matcher.go:158-216 | over whole runs a result whose stored answer lists a missed must-have scores at most 69 |
| Ownership.StepKeepsExclusive | internal/pipeline/store.go:47-57 | a step that claims no row still held keeps every worker the only one of its row, with the row as its claim left it |
| Ownership.OneWorkerPerRow | internal/pipeline/store.go:52-57 | while workers write before their claim is StaleTimeout old no row has two workers |
| Ownership.EmbeddedForGood | internal/pipeline/pipeline.go:462-479 | in such runs an embedded job stays embedded |
| Ownership.StoredEvaluationsAreOfEmbeddedJobs | internal/pipeline/store.go:92-103 | in such runs the job of every stored evaluation is embedded |
| Ownership.WriteKeepsEmbeddedExactlyWhen | internal/pipeline/pipeline.go:462-479 | a write leaves an embedded job embedded exactly when it reports no error |
| Ownership.StaysEmbeddedExactlyWhen | internal/pipeline/pipeline.go:462-479 | over any run, late writers included, an embedded job stays embedded throughout exactly when no write to it reports an error |
| Ownership.LateWriteUndoesEmbedding | internal/pipeline/store.go:52-57 | a run in which a worker that outlived its lease takes an embedded job back |
| Retries.AttemptsAreBounded | internal/pipeline/pipeline.go:462-495 | in runs without stale reclaims ready rows have fewer than MaxAttempts attempts and claimed ones at most MaxAttempts |
| AttemptsBound.ClaimKeepsBoundExactlyWhen | internal/pipeline/store.go:59-71 | a claim keeps that bound exactly when it is not of a job whose last attempt is being made |
| AttemptsBound.ResultClaimKeepsBoundExactlyWhen | internal/pipeline/store.go:92-103 | the same for results |
| AttemptsBound.JobWriteKeepsBoundExactlyWhen | internal/pipeline/pipeline.go:447-495 | a write keeps it exactly when it reports no error, releases the row, gives it up, or the row's own attempts are below MaxAttempts |
| AttemptsBound.ResultWriteKeepsBoundExactlyWhen | internal/pipeline/pipeline.go:542-590 | the same for results |
| AttemptsBound.BoundHoldsExactlyWhen | internal/pipeline/pipeline.go:462-495 | over any run, late writers included, the bound holds throughout exactly when each claim and each write meets its condition |
| AttemptsBound.StaleReclaimExceedsTheBound | internal/pipeline/store.go:59-71 | whatever MaxAttempts is, a run of reclaims that makes one attempt more |
| AttemptsBound.LateFailureExceedsTheBound | internal/pipeline/pipeline.go:483-495 | whatever MaxAttempts above one is, a run in which a late failure makes a row ready that was tried as often as allowed |
| Retries.ClaimsAreBounded | internal/pipeline/pipeline.go:462-495 | however workers interleave, n jobs are claimed at most n * MaxAttempts times in a run without reclaims, releases or new postings |
| Retries.RetriesWait | internal/pipeline/pipeline.go:483-495 | after a failed attempt that is not the last, the job's next claim, whatever happens meanwhile, is not before the delay has passed |
| ResultRetries.WaitEndsExactlyWhen | internal/services/results/results.go:631-661 | a waiting result is claimed only when its time has come, and until then stays waiting through every event but a re-evaluation by its user |
| ResultRetries.ResultRetriesWait | internal/pipeline/pipeline.go:542-564 | after a failed evaluation that is not the last, or one without a CV, the next claim of the result is not before the delay has passed, unless its user asks for it |
| Retries.RoundUsesAttempt | internal/pipeline/pipeline.go:414-495 | each EmbedOne lowers the attempts left over all jobs |
| Retries.JobsSettle | internal/pipeline/pipeline.go:414-495 | n jobs are all embedded or failed after at most n * MaxAttempts rounds, and until then one is ready or will be |
| RunLease.ClaimsAreApart | internal/pipeline/pipeline.go:318-353 | claims of a search nobody edits, whose runs end before their leases, are at least the smaller of RunTimeout and its frequency apart |
| RunLease.EnabledMeansScheduled | internal/services/jobsearches/jobsearches.go:140-176 | in every reachable state a search has a next run exactly while it is enabled |
| RunLease.DisabledIsNeverClaimed | internal/pipeline/sources/sources.go:73-83 | a disabled search is not claimed until its user edits it, even when a run in flight marks it after it was disabled |
| LockingInvariant.StepKeepsInv | internal/services/account/account.go:50-71 | every lock, write, commit, rollback and statement, whatever users do, keeps rows consistent, pending changes what they would be now, and what a deletion deleted its user's |
| LockingSteps.InsertIsStored | internal/pipeline/store.go:134-157 | the commit of a pending insert is the atomic upsert |
| LockingSteps.RecordIsWritten | internal/pipeline/pipeline.go:567-590 | the commit of a pending evaluation is the atomic write |
| StepEffects.StepAffects | internal/services/account/account.go:132-155 | after any step but the commit of their own deletion a user's rows of a table are those of before, less the scores it replaces, plus the rows it adds for them |
| LateRows.LateResultExactlyWhen | internal/pipeline/store.go:125-162 | a step adds a user a result exactly when it commits an insert into a search of theirs, one that no deletion of theirs has locked |
| LateRows.LateEvaluationExactlyWhen | internal/pipeline/pipeline.go:567-590 | a step adds a user an evaluation exactly when it commits one of a result of theirs, one that no deletion of theirs has locked |
| LateRows.DeletionLeavesExactlyTheLate | internal/services/account/account.go:83-123 | for any run and table: of the rows that are the user's the commit leaves exactly those added since the statement for that table, and of the scores those of such evaluations |
| LateRows.LeavesNoneExactlyWhen | internal/services/account/account.go:83-123 | for any run and table: it leaves none exactly when no step added one since that statement |
| LateRows.OrphanedExactlyWhen | internal/services/account/account.go:91-96 | an evaluation stays without its result exactly when it came after the statement for evaluations and the result before the one for results |
| DeletionSafety.CommitIsAtomicExactlyWhen | internal/services/account/account.go:59-125 | the statements, run between other transactions, are the atomic deletion at its commit exactly when they leave nothing |
| DeletionSafety.LeavesNothingExactlyWhen | internal/services/account/account.go:59-125 | for any run, that is so exactly when no row of any table slipped past the statement for it |
| DeletionSafety.TransactionsAreAtomicExactlyWhen | internal/pipeline/store.go:125-177 | for any run with locks: every step is an event of the atomic machine or shows nothing, exactly when each deletion leaves nothing |
| DeletionSafety.CommittedStateIsReachable | internal/pipeline/store.go:125-177 | so every committed state of such a run is a reachable, good state of the atomic machine |
| DeletionSafety.CleanCommitErases | internal/services/account/account.go:42-56 | and a deletion's commit erases its user and changes no other row |
| DeletionSafety.LocksSuffice | internal/services/account/account.go:50-56 | while requests add a user no search during their deletion, nor a section, CV, key or suggestion after the statement for it, nothing slips past it, whatever workers and runs do |
| DeletionSafety.QuietRunsAreClean | internal/services/account/account.go:50-56 | a run in which that is so for all users leaves nothing of any deleted one |
| DeletedUsers.NothingAtCommitExactlyWhen | internal/services/account/account.go:42-56 | for any run: at the commit no row belongs to the user exactly when no result, search, section, CV, key or suggestion was late |
| DeletedUsers.NothingStaysExactlyWhen | internal/services/jobsearches/jobsearches.go:87-111 | once nothing of a user is left, that stays so exactly while no request adds a search, section, CV, key or suggestion for them |
| DeletedUsers.DeletedForGoodExactlyWhen | internal/services/account/account.go:50-56 | for any run: at every moment from the commit on nothing belongs to the user, if and only if nothing slipped in and no request adds a row afterwards |
| DeletedUsers.LeftBehindForGood | internal/services/account/account.go:57-67 | results, evaluations, searches, sections, CVs, keys and suggestions that are left of a user who is gone stay in every run |
| DeletedUsers.LateRequestIsServed | internal/services/jobsearches/jobsearches.go:87-111 | a valid request for a user who is gone stores a search, due at once when enabled |
| DeletedUsers.LateRowsAreStored | internal/services/users/user.go:255-302 | likewise sections, also of a CV that is gone, keys and suggestions are stored for a user who is gone |
| DeletionRace.CreatingKeepsLocksExactlyWhen | internal/services/account/account.go:72-81 | past its lock phase a deletion that has all searches of its user locked still has after a search is created exactly when that search is not the user's or is invalid |
| DeletionRace.LateSearchLeavesResult | internal/services/account/account.go:72-123 | a run, from an empty system to the commit, in which a search added during the deletion gets a result that is left without its search and user |
| DeletionRace.LateRequestRevivesUser | internal/services/users/account.go:178-191 | a run in which a deletion leaves nothing and a request served after it leaves a due search |
| DeletionRace.LateSectionsStayForGood | internal/services/users/user.go:234-302 | a run in which an account is deleted, with nothing left, while its CV is processed, and the CV's sections are stored for the user afterwards |
| Paging.Normalize | internal/services/results/results.go:398-446 | the parameters with their defaults, or the first error; the limit ends between 1 and 100 |
| Paging.ListOrderIsTotal | internal/services/results/results.go:317-321 | both sort orders are strict total orders on results, unscored ones included |
| Paging.FollowsIsAfter | internal/services/results/results.go:356-364 | the three-case cursor condition is "strictly after the cursor" in the sort order |
| Paging.PageIsSlice | internal/services/results/results.go:264-337 | the page after k rows is the next Limit rows of the sorted list, with more exactly when rows remain |
| Paging.ListGoesOnAfterCursor | internal/services/results/results.go:339-365 | from any own result, filtered out or not, the list goes on with what comes strictly after it |
| Paging.PagesConcatenate | internal/services/results/results.go:98-149 | the pages of a walk concatenate to the matching results in order, no gap and no repeat, their sizes adding up to TotalCount |
| Listed.PagesListTheAsked | internal/services/results/results.go:264-337 | the pages show exactly the user's results that exist and meet each filter given, said on the columns and the given parameters, each once, by age or by score with unscored ones last, then by id |
| Listed.PagesAreFull | internal/services/results/results.go:303-337 | each page gives the number of all of them, and all but the last have as many as the limit, 20 by default |
| Listed.PageShowsTheNext | internal/services/results/results.go:339-365 | after any own result, the first rows asked for that come after it, with more exactly when some are left |
| Listed.ListFailsExactlyWhen | internal/services/results/results.go:264-275 | refused exactly for a bad parameter, a search the user does not have, or a cursor not theirs |
| Listed.FirstBadIsNamed | internal/services/results/results.go:398-446 | the first bad parameter in their order is named |
| Paging.PagesEnd | internal/services/results/results.go:98-149 | the walk ends |
| Breakdowns.OrderBreakdown | internal/services/results/results.go:582-601 | the loops with their used flags compute the ordered breakdown |
| Breakdowns.OrderedIsPermutation | internal/services/results/results.go:582-601 | every score is shown exactly as often as it is stored |
| Breakdowns.OrderedIsRanked | internal/services/results/results.go:163-165 | known criteria come in the order of the list, the others after them |
| Breakdowns.OrderedIsStable | internal/services/results/results.go:582-601 | scores of one criterion, and those of unknown ones, keep their order |
| Summary.SummaryConserves | internal/services/results/results.go:198-222 | the total is the sum over statuses and over searches, new results are the sum of the searches' new ones, and the searches with new results are those with a positive count |
| Counted.CountsCount | internal/services/results/results.go:664-720 | which results each count counts, on their columns |
| Counted.StrongCountsCount | internal/services/results/results.go:664-720 | strong matches score 80 or more and are not dismissed; the new ones of them |
| Counted.StatusCountsCount | internal/services/results/results.go:664-742 | exactly the four statuses have a count, and which |
| Counted.SearchesAreCounted | internal/services/results/results.go:706-725 | the user's searches that are not deleted, oldest first, each with its name and its own counts |
| Summary.ReachableSummaryConserves | internal/services/results/results.go:664-741 | so the counts add up in every reachable state |

## Left out

- PostgreSQL and GORM: a statement is atomic, a transaction is atomic or, in `Locking`, a sequence of lock, write and commit steps at READ COMMITTED. A failing statement or connection is the loss of its worker or run.
- Deadlocks and lock timeouts: a transaction may roll back at any step, but the model does not say when the database makes it.
- Clocks: all processes share one nondecreasing clock in `Machine`; the limiters take any clock, or a nondecreasing one where stated. Time arithmetic is unbounded except in `RetryDelay` and `PortalLimiter`.
- Ids: ULIDs are numbers that are never generated twice.
- `jobsearches.Update` and `RunNow` read and then save without a lock; each call is one atomic step here.
- Sessions: no event checks that its user exists, since the source checks that in an earlier query (`ValidateSession`); so a request of any user may come at any time.
- The save in `jobsearches.Update` can insert a row that was deleted since it was read; with atomic calls this does not arise.
- Which due searches a scheduler tick tries, in what order and how many at once (`DueSearches`, `Tick`): any due search may be claimed at any time.
- The portals of one run are searched concurrently: their postings and results are events in any order; `Portals.RunPortal` is one portal's loop.
- Scrapers, the LLM, embeddings, PDF extraction and prompts are outcomes: success, failure, permanent failure or cancelled.
- JSON parsing: `Matcher.Raw` says what the two decoders can read.
- Case tables of Unicode: a mapping of characters, of which only idempotence is used where stated.
- The texts of errors, including the prefixes that wrapping adds, and the columns updated_at, model, prompt_version, titles and the like.
- Goroutines, timers, contexts, observers, HTTP handlers, sessions, telemetry and configuration other than the worker's settings.
- Names of API keys, addresses of portal suggestions and the checks on them: their events are the inserts that succeed. Revoking a key only marks it.
- Which sections a CV has, and that they are stored once: its request stores any set of new rows, at any time after the CV.
- Account export, profile edits, cover letters, URL normalisation, tag stripping and the web application.
- Conversion of rows to API objects, other than the order of a breakdown.
- The limiter's call counter is unbounded; in the source it is a machine integer that only matters modulo the sweep period.
- DeletionSafety.LocksSuffice: one direction, a condition on users alone; the exact condition is LeavesNothingExactlyWhen.
- PortalLimiter.NoSlotDuringPenalty: does not cover negative intervals, where it is false; PenaltiesAreRespectedExactlyWhen says so exactly.
