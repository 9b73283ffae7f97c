// What a worker does with a row it claimed, and what it writes afterwards
// (EmbedOne and EvaluateOne in internal/pipeline/pipeline.go).
module Worker {
  import opened Common
  import opened Strings
  import opened Matcher
  import opened RetryDelay
  import opened Tables
  import opened Store

  // ----- retry state

  // The columns that track a row's work; jobs and search results both have them.
  datatype Work<S> = Work(status: S, attempts: int, nextAttemptAt: Option<Time>, lastError: string)

  // The columns an outcome sets, gathered before they are written.
  class Updates<S> {
    var status: Option<S>
    var attempts: Option<int>
    var nextAttemptAt: Option<Option<Time>>
    var lastError: Option<string>

    constructor ()
      ensures status == None && attempts == None && nextAttemptAt == None && lastError == None
    {
      status, attempts, nextAttemptAt, lastError := None, None, None, None;
    }

    function On(w: Work<S>): Work<S>
      reads this
    {
      Work(if status.Some? then status.value else w.status,
           if attempts.Some? then attempts.value else w.attempts,
           if nextAttemptAt.Some? then nextAttemptAt.value else w.nextAttemptAt,
           if lastError.Some? then lastError.value else w.lastError)
    }
  }

  // Whether a failed attempt was the last one.
  predicate GivesUp(c: Config, attempts: int, cause: Failure) {
    cause.permanent || attempts >= c.maxAttempts
  }

  function Retried<S>(c: Config, w: Work<S>, ready: S, failed: S, attempts: int, cause: Failure, now: Time): Work<S> {
    if GivesUp(c, attempts, cause) then Work(failed, w.attempts, None, cause.message)
    else Work(ready, w.attempts, Some(now + Delay(c.baseBackoff, c.maxBackoff, Max(attempts - 1, 0))), cause.message)
  }

  method ApplyFailure<S>(c: Config, u: Updates<S>, ready: S, failed: S, attempts: int, cause: Failure, now: Time)
    modifies u
    ensures u.attempts == old(u.attempts)
    ensures u.lastError == Some(cause.message)
    ensures GivesUp(c, attempts, cause) ==> u.status == Some(failed) && u.nextAttemptAt == Some(None)
    ensures !GivesUp(c, attempts, cause) ==>
              && u.status == Some(ready)
              && u.nextAttemptAt == Some(Some(now + Delay(c.baseBackoff, c.maxBackoff, Max(attempts - 1, 0))))
  {
    u.lastError := Some(cause.message);
    if cause.permanent || attempts >= c.maxAttempts {
      u.status := Some(failed);
      u.nextAttemptAt := Some(None);
      return;
    }
    u.status := Some(ready);
    var delay := Backoff(c.baseBackoff, c.maxBackoff, attempts);
    u.nextAttemptAt := Some(Some(now + delay));
  }

  // ----- jobs

  datatype EmbedOutcome = EmbedOutcome(fetched: Option<string>, embedding: Vector, err: Option<Failure>)

  // The slow part of EmbedOne, given what the portal and the embedder answer.
  function EmbedStep(job: Job, details: Outcome<string, Failure>, embedded: Outcome<Vector, Failure>): EmbedOutcome {
    if TrimSpace(job.detail) == "" && details.Err? then EmbedOutcome(None, [], Some(details.error))
    else if TrimSpace(job.detail) == "" && TrimSpace(details.value) == "" then
      EmbedOutcome(None, [], Some(Failure(true, "permanent: job has no description")))
    else
      var fetched := if TrimSpace(job.detail) == "" then Some(details.value) else None;
      match embedded
      case Ok(v) => EmbedOutcome(fetched, v, None)
      case Err(e) => EmbedOutcome(fetched, [], Some(e))
  }

  function JobWork(j: Job): Work<JobStatus> {
    Work(j.status, j.attempts, j.nextAttemptAt, j.lastError)
  }

  function WithJobWork(j: Job, w: Work<JobStatus>): Job {
    j.(status := w.status, attempts := w.attempts, nextAttemptAt := w.nextAttemptAt, lastError := w.lastError,
       claimedAt := None)
  }

  function ReadyStatus(claimed: Job, out: EmbedOutcome): JobStatus {
    if out.fetched.GetOr(claimed.detail) != "" then JobDescribed else JobNew
  }

  function WrittenJobWork(c: Config, w: Work<JobStatus>, claimed: Job, out: EmbedOutcome, cancelled: bool, now: Time): Work<JobStatus> {
    if out.err.None? then Work(JobEmbedded, w.attempts, None, "")
    else if cancelled then w.(status := ReadyStatus(claimed, out), attempts := claimed.attempts - 1)
    else Retried(c, w, ReadyStatus(claimed, out), JobFailed, claimed.attempts, out.err.value, now)
  }

  method GatherJobUpdates(c: Config, claimed: Job, out: EmbedOutcome, cancelled: bool, now: Time) returns (updates: Updates<JobStatus>)
    ensures fresh(updates)
    ensures forall w: Work<JobStatus> :: updates.On(w) == WrittenJobWork(c, w, claimed, out, cancelled, now)
  {
    updates := new Updates<JobStatus>();
    var ready := JobNew;
    var detail := if out.fetched.Some? then out.fetched.value else claimed.detail;
    if detail != "" {
      ready := JobDescribed;
    }
    if out.err.None? {
      updates.status := Some(JobEmbedded);
      updates.nextAttemptAt := Some(None);
      updates.lastError := Some("");
    } else if cancelled {
      updates.status := Some(ready);
      updates.attempts := Some(claimed.attempts - 1);
    } else {
      ApplyFailure(c, updates, ready, JobFailed, claimed.attempts, out.err.value, now);
    }
  }

  // The job after the worker that claimed `claimed` wrote its outcome.
  function WrittenJob(c: Config, j: Job, claimed: Job, out: EmbedOutcome, cancelled: bool, now: Time): Job {
    var k := if out.fetched.Some? then j.(detail := out.fetched.value, visited := true) else j;
    var worked := WithJobWork(k, WrittenJobWork(c, JobWork(j), claimed, out, cancelled, now));
    if out.err.None? then worked.(embedding := Some(out.embedding)) else worked
  }

  function WriteJob(c: Config, db: DB, id: Id, claimed: Job, out: EmbedOutcome, cancelled: bool, now: Time): DB {
    if id in db.jobs && !db.jobs[id].deleted
    then db.(jobs := db.jobs[id := WrittenJob(c, db.jobs[id], claimed, out, cancelled, now)])
    else db
  }

  // The row a late or timely write leaves of the row it finds, column by column.
  predicate JobRowWritten(c: Config, row: Job, claimed: Job, after: Job, out: EmbedOutcome, cancelled: bool, now: Time) {
    var ready := if (if out.fetched.Some? then out.fetched.value else claimed.detail) != "" then JobDescribed else JobNew;
    && after.provider == row.provider && after.jobId == row.jobId && after.createdAt == row.createdAt
    && after.deleted == row.deleted && after.claimedAt == None
    && (if out.fetched.Some? then after.detail == out.fetched.value && after.visited
        else after.detail == row.detail && after.visited == row.visited)
    && match out.err
       case None =>
         && after.status == JobEmbedded && after.embedding == Some(out.embedding)
         && after.attempts == row.attempts && after.nextAttemptAt == None && after.lastError == ""
       case Some(e) =>
         && after.embedding == row.embedding
         && if cancelled then
              && after.status == ready && after.attempts == claimed.attempts - 1
              && after.nextAttemptAt == row.nextAttemptAt && after.lastError == row.lastError
            else
              && after.attempts == row.attempts && after.lastError == e.message
              && if e.permanent || claimed.attempts >= c.maxAttempts
                 then after.status == JobFailed && after.nextAttemptAt == None
                 else after.status == ready
                      && after.nextAttemptAt == Some(now + Delay(c.baseBackoff, c.maxBackoff, Max(claimed.attempts - 1, 0)))
  }

  lemma WrittenJobIsWritten(c: Config, row: Job, claimed: Job, out: EmbedOutcome, cancelled: bool, now: Time)
    ensures JobRowWritten(c, row, claimed, WrittenJob(c, row, claimed, out, cancelled, now), out, cancelled, now)
  {
  }

  lemma OneJobIsWritten(c: Config, db: DB, id: Id, claimed: Job, out: EmbedOutcome, cancelled: bool, now: Time)
    ensures WriteJob(c, db, id, claimed, out, cancelled, now).jobs
         == if id in db.jobs && !db.jobs[id].deleted
            then db.jobs[id := WrittenJob(c, db.jobs[id], claimed, out, cancelled, now)] else db.jobs
  {
  }

  method RecordJob(d: Database, c: Config, id: Id, claimed: Job, out: EmbedOutcome, cancelled: bool, now: Time)
    modifies d`jobs
    ensures d.Rows() == WriteJob(c, old(d.Rows()), id, claimed, out, cancelled, now)
    ensures if id in old(d.jobs) && !old(d.jobs)[id].deleted
            then id in d.jobs && JobRowWritten(c, old(d.jobs)[id], claimed, d.jobs[id], out, cancelled, now)
                 && d.jobs == old(d.jobs)[id := d.jobs[id]]
            else d.jobs == old(d.jobs)
  {
    OneJobIsWritten(c, d.Rows(), id, claimed, out, cancelled, now);
    if id in d.jobs {
      WrittenJobIsWritten(c, d.jobs[id], claimed, out, cancelled, now);
    }
    var updates := GatherJobUpdates(c, claimed, out, cancelled, now);
    if id in d.jobs && !d.jobs[id].deleted {
      var j := d.jobs[id];
      var k := WithJobWork(j, updates.On(JobWork(j)));
      if out.fetched.Some? {
        k := k.(detail := out.fetched.value, visited := true);
      }
      if out.err.None? {
        k := k.(embedding := Some(out.embedding));
      }
      d.jobs := d.jobs[id := k];
    }
  }

  // What one worker makes of a ready job: the description it fetched, if any,
  // and what came of embedding.
  ghost predicate HandledJob(c: Config, before: Job, after: Job, fetched: Option<string>,
                             embedded: Outcome<Vector, Failure>, cancelled: bool, later: Time) {
    var ready := if after.detail != "" then JobDescribed else JobNew;
    && after.provider == before.provider && after.jobId == before.jobId && after.createdAt == before.createdAt
    && !after.deleted && after.claimedAt == None
    && (match fetched
        case Some(text) => after.detail == text && after.visited
        case None => after.detail == before.detail && after.visited == before.visited)
    && (match embedded
        case Ok(v) =>
          && after.status == JobEmbedded && after.embedding == Some(v) && after.attempts == before.attempts + 1
          && after.nextAttemptAt == None && after.lastError == ""
        case Err(e) =>
          && after.embedding == before.embedding
          && if cancelled then
               && after.status == ready && after.attempts == before.attempts
               && after.nextAttemptAt == before.nextAttemptAt && after.lastError == before.lastError
             else
               && after.attempts == before.attempts + 1 && after.lastError == e.message
               && if e.permanent || before.attempts + 1 >= c.maxAttempts
                  then after.status == JobFailed && after.nextAttemptAt == None
                  else after.status == ready
                       && after.nextAttemptAt == Some(later + Delay(c.baseBackoff, c.maxBackoff, Max(before.attempts, 0))))
  }

  // The description to embed, or why there is none.
  function TextOf(detail: string, answer: Outcome<string, Failure>): Outcome<string, Failure> {
    if TrimSpace(detail) != "" then Ok(detail)
    else if answer.Ok? && TrimSpace(answer.value) == "" then Err(Failure(true, "permanent: job has no description"))
    else answer
  }

  lemma OneJobIsHandled(c: Config, job: Job, now: Time, answer: Outcome<string, Failure>, embed: string -> Outcome<Vector, Failure>,
                        cancelled: bool, later: Time)
    requires !job.deleted
    ensures var claimed := ClaimedJob(job, now);
            var read := TextOf(job.detail, answer);
            var text := if TrimSpace(job.detail) == "" && answer.Ok? then answer.value else job.detail;
            HandledJob(c, job, WrittenJob(c, claimed, claimed, EmbedStep(claimed, answer, embed(text)), cancelled, later),
                       if TrimSpace(job.detail) == "" && read.Ok? then Some(read.value) else None,
                       if read.Ok? then embed(read.value) else Err(read.error), cancelled, later)
  {
  }

  // One worker handling one job with nobody else at work. `details` and
  // `embed` stand for the portal and the embedder.
  method EmbedOne(d: Database, c: Config, now: Time, later: Time, cancelled: bool,
                  details: Job -> Outcome<string, Failure>, embed: string -> Outcome<Vector, Failure>)
    returns (found: Option<Id>)
    modifies d
    ensures found.None? ==> d.Rows() == old(d.Rows()) && ClaimableJobs(old(d.Rows()), now, now - c.staleTimeout, {}) == {}
    ensures found.Some? ==>
              && JobClaimable(old(d.Rows()), found.value, now, now - c.staleTimeout)
              && var claimed := ClaimJob(old(d.Rows()), found.value, now);
                 var job := claimed.jobs[found.value];
                 var text := if TrimSpace(job.detail) == "" && details(job).Ok? then details(job).value else job.detail;
                 d.Rows() == WriteJob(c, claimed, found.value, job, EmbedStep(job, details(job), embed(text)), cancelled, later)
    ensures found.Some? ==>
              && found.value in d.jobs && d.Rows() == old(d.Rows()).(jobs := old(d.jobs)[found.value := d.jobs[found.value]])
              && var before := old(d.jobs)[found.value];
                 var answer := details(before.(status := JobProcessing, claimedAt := Some(now), attempts := before.attempts + 1));
                 var read := TextOf(before.detail, answer);
                 HandledJob(c, before, d.jobs[found.value],
                            if TrimSpace(before.detail) == "" && read.Ok? then Some(read.value) else None,
                            if read.Ok? then embed(read.value) else Err(read.error), cancelled, later)
  {
    found := ClaimOneJob(d, now, now - c.staleTimeout, {});
    if found.None? {
      return;
    }
    var job := d.jobs[found.value];
    var answer := details(job);
    var text := if TrimSpace(job.detail) == "" && answer.Ok? then answer.value else job.detail;
    RecordJob(d, c, found.value, job, EmbedStep(job, answer, embed(text)), cancelled, later);
    OneJobIsHandled(c, old(d.jobs)[found.value], now, answer, embed, cancelled, later);
  }

  // ----- evaluations

  // What evaluating a claimed result came to: no CV was matched (the user has
  // none, or loading the job or the CV failed), or the matcher answered.
  datatype EvaluateOutcome = Unmatched(err: Option<Failure>) | Evaluated(cv: Id, m: Match)

  function StepError(out: EvaluateOutcome): Option<Failure> {
    match out
    case Unmatched(e) => e
    case Evaluated(_, m) => m.err
  }

  predicate HasResponse(out: EvaluateOutcome) {
    out.Evaluated? && out.m.resp.Some?
  }

  predicate Saves(out: EvaluateOutcome) {
    out.Evaluated? && (out.m.resp.Some? || out.m.err.Some?)
  }

  function Breakdown(out: EvaluateOutcome): seq<CriterionScore> {
    if HasResponse(out) then out.m.resp.value.breakdown else []
  }

  // One outcome to write: the claimed result and the attempts it then had, the
  // outcome, whether the worker was cut short, and the ids for new rows.
  datatype Write = Write(
    id: Id, attempts: int, out: EvaluateOutcome, cancelled: bool, now: Time, newId: Id, scoreIds: seq<Id>)

  ghost predicate HasIds(w: Write) {
    |w.scoreIds| == |Breakdown(w.out)| && Distinct(w.scoreIds)
  }

  // Writing two scores for one criterion breaks the unique index, which rolls
  // the whole transaction back.
  predicate Conflicts(w: Write) {
    !DistinctCriteria(Breakdown(w.out))
  }

  function ResultWork(r: SearchResult): Work<EvalStatus> {
    Work(r.evalStatus, r.attempts, r.nextAttemptAt, r.lastError)
  }

  function WithResultWork(r: SearchResult, w: Work<EvalStatus>): SearchResult {
    r.(evalStatus := w.status, attempts := w.attempts, nextAttemptAt := w.nextAttemptAt, lastError := w.lastError,
       claimedAt := None)
  }

  // Shutting down before there was an answer.
  predicate Released(w: Write) {
    w.cancelled && (StepError(w.out).Some? || !HasResponse(w.out))
  }

  predicate NoCv(w: Write) {
    w.out == Unmatched(None)
  }

  function WrittenWork(c: Config, k: Work<EvalStatus>, w: Write): Work<EvalStatus> {
    if Released(w) then k.(status := Pending, attempts := w.attempts - 1)
    else if NoCv(w) then Work(Pending, w.attempts - 1, Some(w.now + c.noCvRetry), "user has no CV")
    else if StepError(w.out).None? then Work(Done, k.attempts, None, "")
    else Retried(c, k, Pending, Failed, w.attempts, StepError(w.out).value, w.now)
  }

  function EvaluationRow(w: Write): Evaluation
    requires w.out.Evaluated?
  {
    var m := w.out.m;
    if m.resp.None? then
      Evaluation(w.id, w.out.cv, w.now, false, 0, [], [], "", m.raw, if m.err.Some? then m.err.value.message else "")
    else
      var r := m.resp.value;
      Evaluation(w.id, w.out.cv, w.now, true, r.overallScore, r.strengths, r.missingSkills, r.summary, m.raw, "")
  }

  function CopiedScore(e: Evaluation): Option<int> {
    if e.completed then Some(e.overallScore) else None
  }

  // What the transaction of a worker's outcome changes.
  ghost function WriteChange(c: Config, db: DB, w: Write): Change
    requires w.id in db.results && HasIds(w)
  {
    var r := db.results[w.id];
    var worked := WithResultWork(r, WrittenWork(c, ResultWork(r), w));
    if Saves(w.out) then
      var saved := Saving(db, EvaluationRow(w), Breakdown(w.out), w.newId, w.scoreIds);
      Change(w.id, worked.(evaluationId := Some(saved.id), overallScore := CopiedScore(saved.row)), Some(saved))
    else
      Change(w.id, worked, None)
  }

  ghost function WriteResult(c: Config, db: DB, w: Write): DB
    requires HasIds(w)
  {
    if w.id in db.results && !Conflicts(w) then Changed(db, WriteChange(c, db, w)) else db
  }

  method GatherResultUpdates(c: Config, w: Write) returns (updates: Updates<EvalStatus>)
    ensures fresh(updates)
    ensures forall k: Work<EvalStatus> :: updates.On(k) == WrittenWork(c, k, w)
  {
    updates := new Updates<EvalStatus>();
    if w.cancelled && (StepError(w.out).Some? || !HasResponse(w.out)) {
      updates.status := Some(Pending);
      updates.attempts := Some(w.attempts - 1);
    } else if w.out == Unmatched(None) {
      updates.status := Some(Pending);
      updates.attempts := Some(w.attempts - 1);
      updates.nextAttemptAt := Some(Some(w.now + c.noCvRetry));
      updates.lastError := Some("user has no CV");
    } else if StepError(w.out).None? {
      updates.status := Some(Done);
      updates.nextAttemptAt := Some(None);
      updates.lastError := Some("");
    } else {
      ApplyFailure(c, updates, Pending, Failed, w.attempts, StepError(w.out).value, w.now);
    }
  }

  // The work columns a late or timely write leaves of the row it finds.
  predicate ResultRowWritten(c: Config, row: SearchResult, after: SearchResult, w: Write) {
    && after.searchId == row.searchId && after.userId == row.userId && after.jobId == row.jobId
    && after.createdAt == row.createdAt && after.status == row.status && after.claimedAt == None
    && if w.cancelled && (w.out.Unmatched? || w.out.m.err.Some? || w.out.m.resp.None?) then
         && after.evalStatus == Pending && after.attempts == w.attempts - 1
         && after.nextAttemptAt == row.nextAttemptAt && after.lastError == row.lastError
       else if w.out == Unmatched(None) then
         && after.evalStatus == Pending && after.attempts == w.attempts - 1
         && after.nextAttemptAt == Some(w.now + c.noCvRetry) && after.lastError == "user has no CV"
       else match (if w.out.Unmatched? then w.out.err else w.out.m.err)
            case None =>
              && after.evalStatus == Done && after.attempts == row.attempts
              && after.nextAttemptAt == None && after.lastError == ""
            case Some(e) =>
              && after.attempts == row.attempts && after.lastError == e.message
              && if e.permanent || w.attempts >= c.maxAttempts
                 then after.evalStatus == Failed && after.nextAttemptAt == None
                 else after.evalStatus == Pending
                      && after.nextAttemptAt == Some(w.now + Delay(c.baseBackoff, c.maxBackoff, Max(w.attempts - 1, 0)))
  }

  lemma RowIsResultWritten(c: Config, db: DB, w: Write)
    requires HasIds(w)
    ensures w.id in db.results && !Conflicts(w) ==>
              var next := WriteResult(c, db, w);
              && w.id in next.results && ResultRowWritten(c, db.results[w.id], next.results[w.id], w)
              && next.results == db.results[w.id := next.results[w.id]]
    ensures w.id !in db.results || Conflicts(w) ==> WriteResult(c, db, w) == db
  {
    if w.id in db.results && !Conflicts(w) {
      RowIsWritten(db, WriteChange(c, db, w));
      ChangedRowIsResultWritten(c, db, w);
    }
  }

  lemma ChangedRowIsResultWritten(c: Config, db: DB, w: Write)
    requires w.id in db.results && HasIds(w)
    ensures ResultRowWritten(c, db.results[w.id], WriteChange(c, db, w).row, w)
    ensures WriteChange(c, db, w).id == w.id
  {
  }

  // The transaction that writes the outcome of EvaluateOne.
  method RecordResult(d: Database, c: Config, w: Write)
    requires HasIds(w) && UniqueEvaluations(d.Rows()) && w.newId !in d.evaluations
    modifies d
    ensures d.Rows() == WriteResult(c, old(d.Rows()), w)
    ensures if w.id in old(d.results) && DistinctCriteria(Breakdown(w.out))
            then w.id in d.results && ResultRowWritten(c, old(d.results)[w.id], d.results[w.id], w)
                 && d.results == old(d.results)[w.id := d.results[w.id]]
            else d.Rows() == old(d.Rows())
  {
    RowIsResultWritten(c, d.Rows(), w);
    var updates := GatherResultUpdates(c, w);
    if w.id !in d.results {
      return;
    }
    var worked := WithResultWork(d.results[w.id], updates.On(ResultWork(d.results[w.id])));
    if Saves(w.out) {
      RecordEvaluation(d, c, w, worked);
    } else {
      d.results := d.results[w.id := worked];
    }
  }

  // Its part with an evaluation to save.
  method RecordEvaluation(d: Database, c: Config, w: Write, worked: SearchResult)
    requires HasIds(w) && UniqueEvaluations(d.Rows()) && w.newId !in d.evaluations
    requires w.id in d.results && Saves(w.out)
    requires worked == WithResultWork(d.results[w.id], WrittenWork(c, ResultWork(d.results[w.id]), w))
    modifies d
    ensures d.Rows() == WriteResult(c, old(d.Rows()), w)
  {
    var begin := d.Rows();
    var e := EvaluationRow(w);
    var ok, saved := SaveEvaluation(d, e, Breakdown(w.out), w.newId, w.scoreIds);
    if !ok {
      d.Rollback(begin);
      return;
    }
    d.results := d.results[w.id := worked.(evaluationId := Some(saved), overallScore := CopiedScore(e))];
  }

  // ----- one evaluation

  // The slow part of EvaluateOne: loading the job, selecting a CV, and what
  // the matcher then answers.
  function EvaluateStep(db: DB, r: SearchResult, cv: Option<Id>, m: Match): EvaluateOutcome {
    if r.jobId !in db.jobs || db.jobs[r.jobId].deleted then Unmatched(Some(Failure(false, "load job: record not found")))
    else match cv
         case Some(id) => Evaluated(id, m)
         case None => Unmatched(None)
  }

  // The CV EvaluateOne works with, if any.
  ghost predicate Selects(db: DB, userId: Id, cv: Option<Id>) {
    match cv
    case Some(id) => IsLatestCV(db, userId, id)
    case None => HasNoCV(db, userId)
  }

  // What one worker writes for the result it claimed, with nobody else at work.
  ghost predicate IsEvaluationOf(c: Config, claimed: DB, w: Write, matcher: (Id, Id) -> Match)
    requires w.id in claimed.results
  {
    var r := claimed.results[w.id];
    && w.attempts == r.attempts
    && exists cv :: Selects(claimed, r.userId, cv) && w.out == EvaluateStep(claimed, r, cv, matcher(cv.GetOr(0), r.jobId))
  }

  // The columns of a response.
  predicate Shows(row: Evaluation, out: Response) {
    && row.overallScore == out.overallScore && row.strengths == out.strengths
    && row.missingSkills == out.missingSkills && row.summary == out.summary
  }

  // ... and those of none.
  predicate ShowsNothing(row: Evaluation) {
    row.overallScore == 0 && row.strengths == [] && row.missingSkills == [] && row.summary == ""
  }

  // The row is what the evaluator answered: completed with the response, or
  // failed with the error and nothing else.
  predicate TellsMatch(row: Evaluation, m: Match) {
    && row.raw == m.raw
    && (match m.resp
        case Some(out) => row.completed && Shows(row, out) && row.error == ""
        case None => !row.completed && ShowsNothing(row) && m.err.Some? && row.error == m.err.value.message)
  }

  // What one worker makes of a ready result, given what the evaluator answered
  // (None without a CV): the columns of its evaluation, and those of its work.
  ghost predicate HandledResult(c: Config, before: SearchResult, after: SearchResult, m: Option<Match>,
                                cancelled: bool, later: Time) {
    && after.searchId == before.searchId && after.userId == before.userId && after.jobId == before.jobId
    && after.createdAt == before.createdAt && after.status == before.status && after.claimedAt == None
    && (if m.Some? && (m.value.resp.Some? || m.value.err.Some?)
        then after.overallScore == (match m.value.resp case Some(out) => Some(out.overallScore) case None => None)
        else after.evaluationId == before.evaluationId && after.overallScore == before.overallScore)
    && if cancelled && (m.None? || m.value.err.Some? || m.value.resp.None?) then
         && after.evalStatus == Pending && after.attempts == before.attempts
         && after.nextAttemptAt == before.nextAttemptAt && after.lastError == before.lastError
       else if m.None? then
         && after.evalStatus == Pending && after.attempts == before.attempts
         && after.nextAttemptAt == Some(later + c.noCvRetry) && after.lastError == "user has no CV"
       else if m.value.err.None? then
         && after.evalStatus == Done && after.attempts == before.attempts + 1
         && after.nextAttemptAt == None && after.lastError == ""
       else
         && after.attempts == before.attempts + 1 && after.lastError == m.value.err.value.message
         && if m.value.err.value.permanent || before.attempts + 1 >= c.maxAttempts
            then after.evalStatus == Failed && after.nextAttemptAt == None
            else after.evalStatus == Pending
                 && after.nextAttemptAt == Some(later + Delay(c.baseBackoff, c.maxBackoff, Max(before.attempts, 0)))
  }

  // The result's evaluation, where there is one to save.
  ghost predicate SavedFor(next: DB, id: Id, cv: Id, m: Match) {
    && id in next.results && next.results[id].evaluationId.Some? && next.results[id].evaluationId.value in next.evaluations
    && var row := next.evaluations[next.results[id].evaluationId.value];
       row.resultId == id && row.cvId == cv && TellsMatch(row, m)
  }

  // What was answered with the CV, if there was one.
  function AnsweredWith(cv: Option<Id>, jobId: Id, matcher: (Id, Id) -> Match): Option<Match> {
    match cv
    case Some(id) => Some(matcher(id, jobId))
    case None => None
  }

  lemma OneRowIsHandled(c: Config, db: DB, w: Write, now: Time, cv: Option<Id>, m: Match)
    requires w.id in db.results && HasIds(w) && w.attempts == db.results[w.id].attempts + 1
    requires w.out == match cv case Some(id) => Evaluated(id, m) case None => Unmatched(None)
    ensures HandledResult(c, db.results[w.id], WriteChange(c, ClaimResult(db, w.id, now), w).row,
                          if cv.Some? then Some(m) else None, w.cancelled, w.now)
  {
  }

  lemma ItsEvaluationIsSaved(c: Config, db: DB, w: Write, cv: Id, m: Match)
    requires w.id in db.results && HasIds(w) && w.out == Evaluated(cv, m) && (m.resp.Some? || m.err.Some?)
    ensures SavedFor(Changed(db, WriteChange(c, db, w)), w.id, cv, m)
  {
  }

  // One worker handling one result. `matcher` stands for the evaluator, given
  // the CV and the job; `ids` gives the ids of new rows.
  method EvaluateOne(d: Database, c: Config, now: Time, later: Time, cancelled: bool, matcher: (Id, Id) -> Match,
                     newId: Id, ids: nat -> seq<Id>)
    returns (found: Option<Id>, ghost w: Option<Write>)
    requires UniqueEvaluations(d.Rows()) && newId !in d.evaluations
    requires forall n :: |ids(n)| == n && Distinct(ids(n))
    modifies d
    ensures found.None? ==> d.Rows() == old(d.Rows()) && ClaimableResults(old(d.Rows()), now, now - c.staleTimeout, {}) == {}
    ensures found.Some? ==>
              && ResultClaimable(old(d.Rows()), found.value, now, now - c.staleTimeout)
              && w.Some? && w.value.id == found.value && w.value.cancelled == cancelled && w.value.now == later
              && var claimed := ClaimResult(old(d.Rows()), found.value, now);
                 && IsEvaluationOf(c, claimed, w.value, matcher) && HasIds(w.value)
                 && d.Rows() == WriteResult(c, claimed, w.value)
    ensures found.Some? ==>
              && found.value in d.results
              && exists cv: Option<Id> ::
                   && Selects(old(d.Rows()), old(d.results)[found.value].userId, cv)
                   && var before := old(d.results)[found.value];
                      var m := AnsweredWith(cv, before.jobId, matcher);
                      if m.Some? && m.value.resp.Some? && !DistinctCriteria(m.value.resp.value.breakdown)
                      then d.Rows() == ClaimResult(old(d.Rows()), found.value, now)
                      else
                        && HandledResult(c, before, d.results[found.value], m, cancelled, later)
                        && (m.Some? && (m.value.resp.Some? || m.value.err.Some?) ==>
                              SavedFor(d.Rows(), found.value, cv.value, m.value))
  {
    w := None;
    found := ClaimOneResult(d, now, now - c.staleTimeout, {});
    if found.None? {
      return;
    }
    var result := d.results[found.value];
    ghost var claimed := d.Rows();
    var out := Unmatched(Some(Failure(false, "load job: record not found")));
    var cv := SelectCV(d, result.userId);
    if result.jobId in d.jobs && !d.jobs[result.jobId].deleted {
      if cv.Some? {
        out := Evaluated(cv.value, matcher(cv.value, result.jobId));
      } else {
        out := Unmatched(None);
      }
    }
    assert Selects(claimed, result.userId, cv);
    assert out == EvaluateStep(claimed, result, cv, matcher(cv.GetOr(0), result.jobId));
    var write := Write(found.value, result.attempts, out, cancelled, later, newId, ids(|Breakdown(out)|));
    w := Some(write);
    RecordResult(d, c, write);
    HandledByWrite(c, old(d.Rows()), write, now, cv, matcher);
  }

  lemma HandledByWrite(c: Config, db: DB, w: Write, now: Time, cv: Option<Id>, matcher: (Id, Id) -> Match)
    requires w.id in db.results && HasIds(w) && w.attempts == db.results[w.id].attempts + 1
    requires w.out == match cv case Some(id) => Evaluated(id, matcher(id, db.results[w.id].jobId)) case None => Unmatched(None)
    ensures var next := WriteResult(c, ClaimResult(db, w.id, now), w);
            var m := AnsweredWith(cv, db.results[w.id].jobId, matcher);
            && w.id in next.results
            && if m.Some? && m.value.resp.Some? && !DistinctCriteria(m.value.resp.value.breakdown)
               then next == ClaimResult(db, w.id, now)
               else
                 && HandledResult(c, db.results[w.id], next.results[w.id], m, w.cancelled, w.now)
                 && (m.Some? && (m.value.resp.Some? || m.value.err.Some?) ==> SavedFor(next, w.id, cv.value, m.value))
  {
    var claimed := ClaimResult(db, w.id, now);
    var m := matcher(cv.GetOr(0), db.results[w.id].jobId);
    OneRowIsHandled(c, db, w, now, cv, m);
    RowIsWritten(claimed, WriteChange(c, claimed, w));
    if cv.Some? && (m.resp.Some? || m.err.Some?) {
      ItsEvaluationIsSaved(c, claimed, w, cv.value, m);
    }
  }

  lemma RowIsWritten(db: DB, change: Change)
    ensures change.id in Changed(db, change).results && Changed(db, change).results[change.id] == change.row
    ensures Changed(db, change).results == db.results[change.id := change.row]
  {
    SavingKeepsResults(db.(results := db.results[change.id := change.row]), change.saved);
  }

  lemma SavingKeepsResults(db: DB, saved: Option<Saved>)
    ensures saved.Some? ==> WithSaved(db, saved.value).results == db.results
  {
  }
}
