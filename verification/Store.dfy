// The atomic steps on rows (internal/pipeline/store.go): claiming jobs and
// results, recording what a search found, and saving an evaluation.
module Store {
  import opened Common
  import opened Matcher
  import opened Ordering
  import opened Tables

  // ----- claiming

  predicate Ready(nextAttemptAt: Option<Time>, now: Time) {
    nextAttemptAt.None? || nextAttemptAt.value <= now
  }

  // A claim made before `stale` is taken to be a dead worker's.
  predicate Stale(claimedAt: Option<Time>, stale: Time) {
    claimedAt.Some? && claimedAt.value < stale
  }

  predicate JobReady(j: Job, now: Time) {
    (j.status == JobNew || j.status == JobDescribed) && Ready(j.nextAttemptAt, now)
  }

  predicate JobClaimable(db: DB, id: Id, now: Time, stale: Time) {
    && id in db.jobs
    && !db.jobs[id].deleted
    && (JobReady(db.jobs[id], now) || (db.jobs[id].status == JobProcessing && Stale(db.jobs[id].claimedAt, stale)))
  }

  function ClaimedJob(j: Job, now: Time): Job {
    j.(status := JobProcessing, claimedAt := Some(now), attempts := j.attempts + 1)
  }

  function ClaimJob(db: DB, id: Id, now: Time): DB
    requires id in db.jobs
  {
    db.(jobs := db.jobs[id := ClaimedJob(db.jobs[id], now)])
  }

  predicate ResultReady(r: SearchResult, now: Time) {
    r.evalStatus == Pending && Ready(r.nextAttemptAt, now)
  }

  predicate JobIsEmbedded(db: DB, id: Id) {
    id in db.jobs && !db.jobs[id].deleted && db.jobs[id].status == JobEmbedded
  }

  predicate ResultClaimable(db: DB, id: Id, now: Time, stale: Time) {
    && id in db.results
    && JobIsEmbedded(db, db.results[id].jobId)
    && (ResultReady(db.results[id], now)
        || (db.results[id].evalStatus == Processing && Stale(db.results[id].claimedAt, stale)))
  }

  function ClaimedResult(r: SearchResult, now: Time): SearchResult {
    r.(evalStatus := Processing, claimedAt := Some(now), attempts := r.attempts + 1)
  }

  function ClaimResult(db: DB, id: Id, now: Time): DB
    requires id in db.results
  {
    db.(results := db.results[id := ClaimedResult(db.results[id], now)])
  }

  // Rows are claimed in the order of next_attempt_at (nulls first), created_at and id.
  datatype ClaimKey = ClaimKey(nextAttemptAt: Option<Time>, createdAt: Time, id: Id)

  predicate ClaimedBefore(a: ClaimKey, b: ClaimKey) {
    if a.nextAttemptAt != b.nextAttemptAt then
      a.nextAttemptAt.None? || (b.nextAttemptAt.Some? && a.nextAttemptAt.value < b.nextAttemptAt.value)
    else if a.createdAt != b.createdAt then a.createdAt < b.createdAt
    else a.id < b.id
  }

  function JobKey(db: DB, id: Id): ClaimKey
    requires id in db.jobs
  {
    ClaimKey(db.jobs[id].nextAttemptAt, db.jobs[id].createdAt, id)
  }

  function ResultKey(db: DB, id: Id): ClaimKey
    requires id in db.results
  {
    ClaimKey(db.results[id].nextAttemptAt, db.results[id].createdAt, id)
  }

  function ClaimableJobs(db: DB, now: Time, stale: Time, locked: set<Id>): set<ClaimKey> {
    set id | id in db.jobs && id !in locked && JobClaimable(db, id, now, stale) :: JobKey(db, id)
  }

  function ClaimableResults(db: DB, now: Time, stale: Time, locked: set<Id>): set<ClaimKey> {
    set id | id in db.results && id !in locked && ResultClaimable(db, id, now, stale) :: ResultKey(db, id)
  }

  // A row is to be worked on: it is ready and its time has come, or its worker
  // has not been heard of since `stale`.
  predicate Startable(ready: bool, processing: bool, next: Option<Time>, claimedAt: Option<Time>, now: Time, stale: Time) {
    || (ready && (next.Some? ==> next.value <= now))
    || (processing && claimedAt.Some? && claimedAt.value < stale)
  }

  // Rows never put off come first, then those put off to an earlier time; then
  // the older row, and then the smaller id.
  predicate ComesFirst(next: Option<Time>, created: Time, id: Id, otherNext: Option<Time>, otherCreated: Time, other: Id) {
    || (next.None? && otherNext.Some?)
    || (next.Some? && otherNext.Some? && next.value < otherNext.value)
    || (next == otherNext && (created < otherCreated || (created == otherCreated && id < other)))
  }

  predicate StartableJob(j: Job, now: Time, stale: Time) {
    !j.deleted && Startable(j.status == JobNew || j.status == JobDescribed, j.status == JobProcessing,
                            j.nextAttemptAt, j.claimedAt, now, stale)
  }

  predicate StartableResult(db: DB, r: SearchResult, now: Time, stale: Time) {
    && r.jobId in db.jobs && db.jobs[r.jobId].status == JobEmbedded && !db.jobs[r.jobId].deleted
    && Startable(r.evalStatus == Pending, r.evalStatus == Processing, r.nextAttemptAt, r.claimedAt, now, stale)
  }

  // Claims the first claimable job that no other statement has locked.
  method ClaimOneJob(d: Database, now: Time, stale: Time, locked: set<Id>) returns (claimed: Option<Id>)
    modifies d
    ensures claimed.None? ==> ClaimableJobs(old(d.Rows()), now, stale, locked) == {} && d.Rows() == old(d.Rows())
    ensures claimed.Some? ==>
              && JobClaimable(old(d.Rows()), claimed.value, now, stale) && claimed.value !in locked
              && First(ClaimableJobs(old(d.Rows()), now, stale, locked), ClaimedBefore, JobKey(old(d.Rows()), claimed.value))
              && d.Rows() == ClaimJob(old(d.Rows()), claimed.value, now)
    ensures claimed.None? ==>
              && d.Rows() == old(d.Rows())
              && forall o :: o in d.jobs && o !in locked ==> !StartableJob(d.jobs[o], now, stale)
    ensures claimed.Some? ==>
              && claimed.value in old(d.jobs) && claimed.value !in locked
              && var j := old(d.jobs)[claimed.value];
                 && StartableJob(j, now, stale)
                 && d.Rows() == old(d.Rows()).(jobs := old(d.jobs)[claimed.value :=
                      j.(status := JobProcessing, claimedAt := Some(now), attempts := j.attempts + 1)])
                 && forall o :: o in old(d.jobs) && o !in locked && o != claimed.value && StartableJob(old(d.jobs)[o], now, stale) ==>
                      ComesFirst(j.nextAttemptAt, j.createdAt, claimed.value,
                                 old(d.jobs)[o].nextAttemptAt, old(d.jobs)[o].createdAt, o)
  {
    assert forall o :: o in d.jobs && o !in locked && StartableJob(d.jobs[o], now, stale) ==>
        JobKey(d.Rows(), o) in ClaimableJobs(d.Rows(), now, stale, locked);
    var keys := ClaimableJobs(d.Rows(), now, stale, locked);
    if keys == {} {
      return None;
    }
    FirstExists(keys, ClaimedBefore);
    var key :| key in keys && First(keys, ClaimedBefore, key);
    d.jobs := d.jobs[key.id := ClaimedJob(d.jobs[key.id], now)];
    return Some(key.id);
  }

  // Claims the first claimable result that no other statement has locked.
  method ClaimOneResult(d: Database, now: Time, stale: Time, locked: set<Id>) returns (claimed: Option<Id>)
    modifies d
    ensures claimed.None? ==> ClaimableResults(old(d.Rows()), now, stale, locked) == {} && d.Rows() == old(d.Rows())
    ensures claimed.Some? ==>
              && ResultClaimable(old(d.Rows()), claimed.value, now, stale) && claimed.value !in locked
              && First(ClaimableResults(old(d.Rows()), now, stale, locked), ClaimedBefore, ResultKey(old(d.Rows()), claimed.value))
              && d.Rows() == ClaimResult(old(d.Rows()), claimed.value, now)
    ensures claimed.None? ==>
              && d.Rows() == old(d.Rows())
              && forall o :: o in d.results && o !in locked ==> !StartableResult(d.Rows(), d.results[o], now, stale)
    ensures claimed.Some? ==>
              && claimed.value in old(d.results) && claimed.value !in locked
              && var r := old(d.results)[claimed.value];
                 && StartableResult(old(d.Rows()), r, now, stale)
                 && d.Rows() == old(d.Rows()).(results := old(d.results)[claimed.value :=
                      r.(evalStatus := Processing, claimedAt := Some(now), attempts := r.attempts + 1)])
                 && forall o :: o in old(d.results) && o !in locked && o != claimed.value
                                && StartableResult(old(d.Rows()), old(d.results)[o], now, stale) ==>
                      ComesFirst(r.nextAttemptAt, r.createdAt, claimed.value,
                                 old(d.results)[o].nextAttemptAt, old(d.results)[o].createdAt, o)
  {
    assert forall o :: o in d.results && o !in locked && StartableResult(d.Rows(), d.results[o], now, stale) ==>
        ResultKey(d.Rows(), o) in ClaimableResults(d.Rows(), now, stale, locked);
    var keys := ClaimableResults(d.Rows(), now, stale, locked);
    if keys == {} {
      return None;
    }
    FirstExists(keys, ClaimedBefore);
    var key :| key in keys && First(keys, ClaimedBefore, key);
    d.results := d.results[key.id := ClaimedResult(d.results[key.id], now)];
    return Some(key.id);
  }

  // ----- selecting a CV

  // The newest CV the user has not deleted (LatestCVSelector).
  predicate IsLatestCV(db: DB, userId: Id, cv: Id) {
    && cv in db.cvs && db.cvs[cv].userId == userId && !db.cvs[cv].deleted
    && forall o :: o in db.cvs && db.cvs[o].userId == userId && !db.cvs[o].deleted ==>
         db.cvs[o].createdAt < db.cvs[cv].createdAt || (db.cvs[o].createdAt == db.cvs[cv].createdAt && o <= cv)
  }

  predicate HasNoCV(db: DB, userId: Id) {
    forall o :: o in db.cvs ==> db.cvs[o].userId != userId || db.cvs[o].deleted
  }

  datatype CVKey = CVKey(createdAt: Time, id: Id)

  predicate Newer(a: CVKey, b: CVKey) {
    a.createdAt > b.createdAt || (a.createdAt == b.createdAt && a.id > b.id)
  }

  method SelectCV(d: Database, userId: Id) returns (cv: Option<Id>)
    ensures match cv
            case Some(id) => IsLatestCV(d.Rows(), userId, id)
            case None => HasNoCV(d.Rows(), userId)
    ensures cv.None? ==> forall o :: o in d.cvs && d.cvs[o].userId == userId ==> d.cvs[o].deleted
    ensures cv.Some? ==>
              && cv.value in d.cvs && d.cvs[cv.value].userId == userId && !d.cvs[cv.value].deleted
              && forall o :: o in d.cvs && d.cvs[o].userId == userId && !d.cvs[o].deleted && o != cv.value ==>
                   || d.cvs[o].createdAt < d.cvs[cv.value].createdAt
                   || (d.cvs[o].createdAt == d.cvs[cv.value].createdAt && o < cv.value)
  {
    var keys := set id | id in d.cvs && d.cvs[id].userId == userId && !d.cvs[id].deleted :: CVKey(d.cvs[id].createdAt, id);
    if keys == {} {
      assert forall o :: o in d.cvs && d.cvs[o].userId == userId && !d.cvs[o].deleted ==> CVKey(d.cvs[o].createdAt, o) in keys;
      return None;
    }
    FirstExists(keys, Newer);
    var key :| key in keys && First(keys, Newer, key);
    assert forall o :: o in d.cvs && d.cvs[o].userId == userId && !d.cvs[o].deleted ==> CVKey(d.cvs[o].createdAt, o) in keys;
    return Some(key.id);
  }

  // ----- what a search found

  predicate LiveSearch(db: DB, id: Id) {
    id in db.searches && !db.searches[id].deleted
  }

  predicate ResultKnown(db: DB, searchId: Id, jobId: Id) {
    exists r :: r in db.results && db.results[r].searchId == searchId && db.results[r].jobId == jobId
  }

  function NewResult(searchId: Id, userId: Id, jobId: Id, now: Time): SearchResult {
    SearchResult(searchId, userId, jobId, now, "new", Pending, 0, None, None, "", None, None)
  }

  function UpsertResult(db: DB, id: Id, searchId: Id, userId: Id, jobId: Id, now: Time): DB {
    if LiveSearch(db, searchId) && !ResultKnown(db, searchId, jobId)
    then db.(results := db.results[id := NewResult(searchId, userId, jobId, now)])
    else db
  }

  method UpsertSearchResult(d: Database, id: Id, searchId: Id, userId: Id, jobId: Id, now: Time)
    requires id !in d.results && UniqueResults(d.Rows())
    modifies d
    ensures d.Rows() == UpsertResult(old(d.Rows()), id, searchId, userId, jobId, now)
    ensures if searchId in d.searches && !d.searches[searchId].deleted
               && forall r :: r in old(d.results) ==> old(d.results)[r].searchId != searchId || old(d.results)[r].jobId != jobId
            then d.Rows() == old(d.Rows()).(results := old(d.results)[id :=
                   SearchResult(searchId, userId, jobId, now, "new", Pending, 0, None, None, "", None, None)])
            else d.Rows() == old(d.Rows())
    ensures UniqueResults(d.Rows())
  {
    if !(searchId in d.searches && !d.searches[searchId].deleted) {
      return;
    }
    if ResultKnown(d.Rows(), searchId, jobId) {
      return; // on conflict do nothing
    }
    d.results := d.results[id := NewResult(searchId, userId, jobId, now)];
  }

  predicate JobKnown(db: DB, provider: string, jobId: string) {
    exists j :: j in db.jobs && db.jobs[j].provider == provider && db.jobs[j].jobId == jobId
  }

  function NewJob(provider: string, jobId: string, detail: string, now: Time): Job {
    Job(provider, jobId, now, if detail != "" then JobDescribed else JobNew, 0, None, None, "", detail, detail != "", None, false)
  }

  // Stores a posting once per portal and portal id (Upsert in internal/storage/jobs/jobs.go).
  function UpsertJob(db: DB, id: Id, job: Job): DB {
    if JobKnown(db, job.provider, job.jobId) then db else db.(jobs := db.jobs[id := job])
  }

  // ----- evaluations

  predicate IsFor(db: DB, e: Id, resultId: Id, cvId: Id) {
    e in db.evaluations && db.evaluations[e].resultId == resultId && db.evaluations[e].cvId == cvId
  }

  ghost function EvaluationOf(db: DB, resultId: Id, cvId: Id): Option<Id> {
    if exists e :: IsFor(db, e, resultId, cvId)
    then var e :| IsFor(db, e, resultId, cvId); Some(e)
    else None
  }

  // The row an evaluation is saved to: the one of its (result, CV), or a new one.
  ghost function SavedTo(db: DB, e: Evaluation, newId: Id): Id {
    match EvaluationOf(db, e.resultId, e.cvId)
    case Some(id) => id
    case None => newId
  }

  function ScoresOf(scores: map<Id, Score>, evaluationId: Id): set<Id> {
    set s | s in scores && scores[s].evaluationId == evaluationId
  }

  ghost predicate Distinct(ids: seq<Id>) {
    forall i, j :: 0 <= i < j < |ids| ==> ids[i] != ids[j]
  }

  function IdSet(ids: seq<Id>): set<Id> {
    set i | i in ids
  }

  lemma {:induction false} DistinctCount(ids: seq<Id>)
    requires Distinct(ids)
    ensures |IdSet(ids)| == |ids|
  {
    if ids == [] {
      assert IdSet(ids) == {};
    } else {
      var rest := ids[..|ids| - 1];
      DistinctCount(rest);
      assert ids == rest + [ids[|ids| - 1]];
      assert IdSet(ids) == IdSet(rest) + {ids[|ids| - 1]};
    }
  }

  function ScoreRows(evaluationId: Id, breakdown: seq<CriterionScore>, ids: seq<Id>): map<Id, Score>
    requires |ids| == |breakdown| && Distinct(ids)
  {
    map i | 0 <= i < |ids| :: ids[i] := Score(evaluationId, breakdown[i])
  }

  // What a transaction that writes an evaluation outcome changes: the result's
  // row and, when there is an evaluation to save, that row and its scores.
  datatype Saved = Saved(id: Id, row: Evaluation, oldScores: set<Id>, newScores: map<Id, Score>)

  datatype Change = Change(id: Id, row: SearchResult, saved: Option<Saved>)

  function WithSaved(db: DB, s: Saved): DB {
    db.(evaluations := db.evaluations[s.id := s.row], scores := (db.scores - s.oldScores) + s.newScores)
  }

  function Changed(db: DB, c: Change): DB {
    var next := db.(results := db.results[c.id := c.row]);
    match c.saved
    case None => next
    case Some(s) => WithSaved(next, s)
  }

  ghost function SavedRow(db: DB, e: Evaluation, newId: Id): Evaluation {
    var id := SavedTo(db, e, newId);
    if id in db.evaluations then e.(createdAt := db.evaluations[id].createdAt) else e
  }

  ghost function Saving(db: DB, e: Evaluation, breakdown: seq<CriterionScore>, newId: Id, ids: seq<Id>): Saved
    requires |ids| == |breakdown| && Distinct(ids)
  {
    var id := SavedTo(db, e, newId);
    Saved(id, SavedRow(db, e, newId), ScoresOf(db.scores, id), ScoreRows(id, breakdown, ids))
  }

  lemma OnlyOneEvaluation(db: DB, e: Id, resultId: Id, cvId: Id)
    requires UniqueEvaluations(db) && IsFor(db, e, resultId, cvId)
    ensures EvaluationOf(db, resultId, cvId) == Some(e)
  {
  }

  // Inserts the evaluation, or overwrites the one of its (result, CV), and reads its id back.
  method UpsertEvaluation(d: Database, e: Evaluation, newId: Id) returns (id: Id)
    requires UniqueEvaluations(d.Rows()) && newId !in d.evaluations
    modifies d`evaluations
    ensures id == SavedTo(old(d.Rows()), e, newId)
    ensures d.evaluations == old(d.evaluations)[id := SavedRow(old(d.Rows()), e, newId)]
    ensures if id in old(d.evaluations)
            then old(d.evaluations)[id].resultId == e.resultId && old(d.evaluations)[id].cvId == e.cvId
                 && d.evaluations == old(d.evaluations)[id := e.(createdAt := old(d.evaluations)[id].createdAt)]
            else id == newId && d.evaluations == old(d.evaluations)[newId := e]
                 && forall o :: o in old(d.evaluations) ==>
                      old(d.evaluations)[o].resultId != e.resultId || old(d.evaluations)[o].cvId != e.cvId
  {
    id := newId;
    var row := e;
    if other :| other in d.evaluations && IsFor(d.Rows(), other, e.resultId, e.cvId) {
      OnlyOneEvaluation(d.Rows(), other, e.resultId, e.cvId);
      id := other;
      row := e.(createdAt := d.evaluations[other].createdAt);
    }
    d.evaluations := d.evaluations[id := row];
  }

  // Replaces an evaluation's scores. ok is false, and the caller must roll
  // back, when two of them name one criterion: the table's unique index.
  method ReplaceScores(d: Database, id: Id, breakdown: seq<CriterionScore>, ids: seq<Id>) returns (ok: bool)
    requires |ids| == |breakdown| && Distinct(ids)
    modifies d`scores
    ensures ok <==> DistinctCriteria(breakdown)
    ensures ok ==> d.scores == (old(d.scores) - ScoresOf(old(d.scores), id)) + ScoreRows(id, breakdown, ids)
  {
    d.scores := d.scores - ScoresOf(d.scores, id);
    ok := DistinctCriteria(breakdown);
    if ok {
      d.scores := d.scores + ScoreRows(id, breakdown, ids);
    }
  }

  // Saves the evaluation and its scores together (ok as in ReplaceScores).
  method SaveEvaluation(d: Database, e: Evaluation, breakdown: seq<CriterionScore>, newId: Id, ids: seq<Id>)
    returns (ok: bool, id: Id)
    requires UniqueEvaluations(d.Rows()) && newId !in d.evaluations
    requires |ids| == |breakdown| && Distinct(ids)
    modifies d`evaluations, d`scores
    ensures ok <==> DistinctCriteria(breakdown)
    ensures id == SavedTo(old(d.Rows()), e, newId)
    ensures ok ==> d.Rows() == WithSaved(old(d.Rows()), Saving(old(d.Rows()), e, breakdown, newId, ids))
  {
    id := UpsertEvaluation(d, e, newId);
    ok := ReplaceScores(d, id, breakdown, ids);
  }
}
