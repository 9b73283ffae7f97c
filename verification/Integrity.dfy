// What every reachable state of the machine satisfies, whatever the
// interleaving and however late a worker writes: rows have their parents and
// belong to one user, unique indexes hold, searches are scheduled exactly
// while enabled, and a result's copied score agrees with its evaluation.
module Integrity {
  import opened Common
  import opened Matcher
  import opened Tables
  import opened Store
  import opened Worker
  import opened Schedule
  import opened Account
  import opened Machine

  // ----- the invariant

  ghost predicate IdsUsed(s: Sys) {
    && s.db.users <= s.used && s.db.searches.Keys <= s.used && s.db.jobs.Keys <= s.used
    && s.db.results.Keys <= s.used && s.db.evaluations.Keys <= s.used && s.db.scores.Keys <= s.used
    && s.db.cvs.Keys <= s.used
    && (forall w :: w in s.workers ==> w in s.used && s.workers[w].id in s.used)
    && (forall r :: r in s.runs ==> r in s.used && s.runs[r].searchId in s.used)
  }

  ghost predicate JobsKnown(db: DB) {
    forall r :: r in db.results ==> db.results[r].jobId in db.jobs
  }

  ghost predicate StatusesKnown(db: DB) {
    forall r :: r in db.results ==> db.results[r].status in RESULT_STATUSES
  }

  // What a worker remembers of its row is still true of it, if it still exists.
  ghost predicate TaskTrue(db: DB, t: Task) {
    match t
    case EmbedTask(id, _, _) => id in db.jobs
    case EvalTask(id, r, _, cv) =>
      id in db.results ==>
        && db.results[id].userId == r.userId && db.results[id].jobId == r.jobId
        && (cv.Some? && cv.value.Some? ==> cv.value.value in db.cvs && db.cvs[cv.value.value].userId == r.userId)
  }

  ghost predicate TasksTrue(s: Sys) {
    forall w :: w in s.workers ==> TaskTrue(s.db, s.workers[w])
  }

  ghost predicate RunsTrue(s: Sys) {
    forall r :: r in s.runs ==>
      (s.runs[r].searchId in s.db.searches ==> s.db.searches[s.runs[r].searchId].userId == s.runs[r].userId)
  }

  // A result's pointer and copied score agree with its current evaluation.
  ghost predicate ScoreAgrees(db: DB, r: SearchResult, id: Id) {
    match r.evaluationId
    case None => r.overallScore.None?
    case Some(e) => e in db.evaluations && db.evaluations[e].resultId == id && r.overallScore == CopiedScore(db.evaluations[e])
  }

  ghost predicate Coherent(db: DB) {
    forall r :: r in db.results ==> ScoreAgrees(db, db.results[r], r)
  }

  // A section names a CV that exists or existed.
  ghost predicate SectionCVsUsed(db: DB, used: set<Id>) {
    forall k :: k in db.sections ==> db.sections[k].cvId in used
  }

  ghost predicate Tidy(db: DB) {
    && Owned(db) && JobsKnown(db) && StatusesKnown(db)
    && Indexed(db) && Scheduled(db) && Coherent(db)
  }

  ghost predicate Good(s: Sys) {
    IdsUsed(s) && SectionCVsUsed(s.db, s.used) && TasksTrue(s) && RunsTrue(s) && Tidy(s.db)
  }

  // ----- a worker's write

  // A save to a fresh row or to the one of the same result and CV.
  ghost predicate Fits(db: DB, s: Saved) {
    if s.id in db.evaluations
    then db.evaluations[s.id].resultId == s.row.resultId && db.evaluations[s.id].cvId == s.row.cvId
    else EvaluationOf(db, s.row.resultId, s.row.cvId) == None
  }

  ghost predicate ReplacesScores(db: DB, s: Saved) {
    s.oldScores == ScoresOf(db.scores, s.id) && forall k :: k in s.newScores ==> s.newScores[k].evaluationId == s.id
  }

  // A row that stays where it belongs.
  ghost predicate SamePlace(row: SearchResult, before: SearchResult) {
    row.searchId == before.searchId && row.userId == before.userId && row.jobId == before.jobId
  }

  // A change that copies the score it saves.
  ghost predicate CopiesScore(db: DB, c: Change)
    requires c.id in db.results
  {
    match c.saved
    case None => c.row.evaluationId == db.results[c.id].evaluationId && c.row.overallScore == db.results[c.id].overallScore
    case Some(s) => s.row.resultId == c.id && c.row.evaluationId == Some(s.id) && c.row.overallScore == CopiedScore(s.row)
  }

  lemma SavingFits(db: DB, e: Evaluation, breakdown: seq<CriterionScore>, newId: Id, ids: seq<Id>)
    requires |ids| == |breakdown| && Distinct(ids) && newId !in db.evaluations
    ensures var s := Saving(db, e, breakdown, newId, ids);
            Fits(db, s) && ReplacesScores(db, s) && s.row.(createdAt := e.createdAt) == e
  {
  }

  lemma WriteIsProper(c: Config, db: DB, w: Write)
    requires HasIds(w) && w.id in db.results && w.newId !in db.evaluations
    ensures var change := WriteChange(c, db, w);
            && change.id == w.id && SamePlace(change.row, db.results[w.id]) && change.row.status == db.results[w.id].status
            && CopiesScore(db, change)
    ensures WriteChange(c, db, w).saved.Some? <==> Saves(w.out)
    ensures Saves(w.out) ==>
              var s := WriteChange(c, db, w).saved.value;
              Fits(db, s) && ReplacesScores(db, s) && s.row.cvId == w.out.cv
  {
    if Saves(w.out) {
      SavingFits(db, EvaluationRow(w), Breakdown(w.out), w.newId, w.scoreIds);
    }
  }

  lemma RowKeepsOwned(db: DB, id: Id, row: SearchResult)
    requires Owned(db) && id in db.results
    requires row.searchId == db.results[id].searchId && row.userId == db.results[id].userId
    ensures Owned(db.(results := db.results[id := row]))
  {
  }

  lemma SaveKeepsOwned(db: DB, s: Saved)
    requires Owned(db) && ReplacesScores(db, s)
    requires s.row.resultId in db.results && s.row.cvId in db.cvs
    requires db.cvs[s.row.cvId].userId == db.results[s.row.resultId].userId
    ensures Owned(WithSaved(db, s))
  {
    var next := WithSaved(db, s);
    assert EvaluationsOwned(next);
    assert ScoresOwned(next);
  }

  lemma SaveKeepsEvaluationsUnique(db: DB, s: Saved)
    requires UniqueEvaluations(db) && Fits(db, s)
    ensures UniqueEvaluations(WithSaved(db, s))
  {
    var next := WithSaved(db, s);
    forall o | o in db.evaluations && o != s.id
      ensures db.evaluations[o].resultId != s.row.resultId || db.evaluations[o].cvId != s.row.cvId
    {
      assert !IsFor(db, o, s.row.resultId, s.row.cvId) || s.id in db.evaluations;
    }
  }

  lemma SaveKeepsScoresUnique(db: DB, s: Saved)
    requires UniqueScores(db) && ReplacesScores(db, s) && UniqueScores(db.(scores := s.newScores))
    ensures UniqueScores(WithSaved(db, s))
  {
  }

  lemma NewScoresUnique(db: DB, id: Id, breakdown: seq<CriterionScore>, ids: seq<Id>)
    requires |ids| == |breakdown| && Distinct(ids) && DistinctCriteria(breakdown)
    ensures UniqueScores(db.(scores := ScoreRows(id, breakdown, ids)))
  {
    var rows := ScoreRows(id, breakdown, ids);
    forall a, b | a in rows && b in rows && a != b
      ensures rows[a].content.criterion != rows[b].content.criterion
    {
      var i :| 0 <= i < |ids| && ids[i] == a;
      var j :| 0 <= j < |ids| && ids[j] == b;
    }
  }

  // Saving an evaluation touches the score of no result but its own.
  lemma ChangeKeepsCoherent(db: DB, c: Change)
    requires Coherent(db) && c.id in db.results && CopiesScore(db, c)
    requires c.saved.Some? ==> Fits(db, c.saved.value)
    ensures Coherent(Changed(db, c))
  {
    var next := Changed(db, c);
    forall r | r in next.results
      ensures ScoreAgrees(next, next.results[r], r)
    {
      if r != c.id {
        assert ScoreAgrees(db, db.results[r], r);
      } else {
        assert ScoreAgrees(db, db.results[c.id], c.id);
      }
    }
  }

  // ----- every statement keeps the database tidy

  // Coherence reads only results and evaluations.
  lemma CoherentElsewhere(db: DB, next: DB)
    requires Coherent(db) && next.results == db.results && next.evaluations == db.evaluations
    ensures Coherent(next)
  {
    forall r | r in next.results
      ensures ScoreAgrees(next, next.results[r], r)
    {
      assert ScoreAgrees(db, db.results[r], r);
    }
  }

  lemma JobKeepsRest(db: DB, id: Id, job: Job)
    requires Owned(db) && JobsKnown(db) && StatusesKnown(db) && Scheduled(db)
    ensures var next := db.(jobs := db.jobs[id := job]);
            Owned(next) && JobsKnown(next) && StatusesKnown(next) && Scheduled(next)
  {
  }

  lemma JobKeepsIndexed(db: DB, id: Id, job: Job)
    requires Indexed(db)
    requires if id in db.jobs then job.provider == db.jobs[id].provider && job.jobId == db.jobs[id].jobId
             else !JobKnown(db, job.provider, job.jobId)
    ensures Indexed(db.(jobs := db.jobs[id := job]))
  {
    assert UniqueJobs(db.(jobs := db.jobs[id := job]));
  }

  lemma TidyJob(db: DB, id: Id, job: Job)
    requires Tidy(db)
    requires if id in db.jobs then job.provider == db.jobs[id].provider && job.jobId == db.jobs[id].jobId
             else !JobKnown(db, job.provider, job.jobId)
    ensures Tidy(db.(jobs := db.jobs[id := job]))
  {
    JobKeepsRest(db, id, job);
    JobKeepsIndexed(db, id, job);
    CoherentElsewhere(db, db.(jobs := db.jobs[id := job]));
  }

  lemma RowKeepsIndexed(db: DB, id: Id, row: SearchResult)
    requires Indexed(db) && id in db.results && SamePlace(row, db.results[id])
    ensures Indexed(db.(results := db.results[id := row]))
  {
    var next := db.(results := db.results[id := row]);
    assert UniqueResults(next);
  }

  lemma RowKeepsRest(db: DB, id: Id, row: SearchResult)
    requires JobsKnown(db) && StatusesKnown(db) && Scheduled(db)
    requires id in db.results && SamePlace(row, db.results[id]) && row.status in RESULT_STATUSES
    ensures var next := db.(results := db.results[id := row]);
            JobsKnown(next) && StatusesKnown(next) && Scheduled(next)
  {
  }

  lemma TidyRow(db: DB, id: Id, row: SearchResult)
    requires Tidy(db) && id in db.results && SamePlace(row, db.results[id])
    requires row.status in RESULT_STATUSES
    requires row.evaluationId == db.results[id].evaluationId && row.overallScore == db.results[id].overallScore
    ensures Tidy(db.(results := db.results[id := row]))
  {
    RowKeepsOwned(db, id, row);
    RowKeepsIndexed(db, id, row);
    RowKeepsRest(db, id, row);
    ChangeKeepsCoherent(db, Change(id, row, None));
  }

  lemma TidySave(db: DB, s: Saved)
    requires Owned(db) && Indexed(db)
    requires Fits(db, s) && ReplacesScores(db, s) && UniqueScores(db.(scores := s.newScores))
    requires s.row.resultId in db.results && s.row.cvId in db.cvs
    requires db.cvs[s.row.cvId].userId == db.results[s.row.resultId].userId
    ensures Owned(WithSaved(db, s)) && Indexed(WithSaved(db, s))
  {
    SaveKeepsOwned(db, s);
    SaveKeepsEvaluationsUnique(db, s);
    SaveKeepsScoresUnique(db, s);
  }

  lemma SaveKeepsRest(db: DB, s: Saved)
    requires JobsKnown(db) && StatusesKnown(db) && Scheduled(db)
    ensures var next := WithSaved(db, s);
            JobsKnown(next) && StatusesKnown(next) && Scheduled(next)
  {
  }

  // What a change must bring along to leave the database tidy.
  ghost predicate Acceptable(db: DB, c: Change) {
    && c.id in db.results && SamePlace(c.row, db.results[c.id]) && c.row.status in RESULT_STATUSES && CopiesScore(db, c)
    && (c.saved.Some? ==>
          var s := c.saved.value;
          && Fits(db, s) && ReplacesScores(db, s) && UniqueScores(db.(scores := s.newScores))
          && s.row.cvId in db.cvs && db.cvs[s.row.cvId].userId == db.results[c.id].userId)
  }

  lemma FitsAnyResults(db: DB, results: map<Id, SearchResult>, s: Saved)
    requires Fits(db, s)
    ensures Fits(db.(results := results), s)
  {
    var next := db.(results := results);
    assert forall e :: IsFor(next, e, s.row.resultId, s.row.cvId) <==> IsFor(db, e, s.row.resultId, s.row.cvId);
  }

  lemma TidyChange(db: DB, c: Change)
    requires Tidy(db) && Acceptable(db, c)
    ensures Tidy(Changed(db, c))
  {
    ChangeKeepsCoherent(db, c);
    RowKeepsOwned(db, c.id, c.row);
    RowKeepsIndexed(db, c.id, c.row);
    RowKeepsRest(db, c.id, c.row);
    if c.saved.Some? {
      var placed := db.(results := db.results[c.id := c.row]);
      FitsAnyResults(db, placed.results, c.saved.value);
      TidySave(placed, c.saved.value);
      SaveKeepsRest(placed, c.saved.value);
    }
  }

  lemma WriteIsAcceptable(c: Config, db: DB, w: Write)
    requires StatusesKnown(db) && HasIds(w) && w.newId !in db.evaluations
    requires w.id in db.results && !Conflicts(w)
    requires w.out.Evaluated? ==> w.out.cv in db.cvs && db.cvs[w.out.cv].userId == db.results[w.id].userId
    ensures Acceptable(db, WriteChange(c, db, w))
  {
    WriteIsProper(c, db, w);
    if Saves(w.out) {
      NewScoresUnique(db, SavedTo(db, EvaluationRow(w), w.newId), Breakdown(w.out), w.scoreIds);
    }
  }

  lemma TidyWrite(c: Config, db: DB, w: Write)
    requires Tidy(db) && HasIds(w) && w.newId !in db.evaluations
    requires w.id in db.results && w.out.Evaluated?
         ==> w.out.cv in db.cvs && db.cvs[w.out.cv].userId == db.results[w.id].userId
    ensures Tidy(WriteResult(c, db, w))
  {
    if w.id in db.results && !Conflicts(w) {
      WriteIsAcceptable(c, db, w);
      TidyChange(db, WriteChange(c, db, w));
    }
  }

  lemma NewResultKeepsIndexed(db: DB, id: Id, row: SearchResult)
    requires Indexed(db) && id !in db.results && !ResultKnown(db, row.searchId, row.jobId)
    ensures Indexed(db.(results := db.results[id := row]))
  {
    assert UniqueResults(db.(results := db.results[id := row]));
  }

  lemma NewResultKeepsRest(db: DB, id: Id, row: SearchResult)
    requires Owned(db) && JobsKnown(db) && StatusesKnown(db) && Scheduled(db)
    requires id !in db.results && row.jobId in db.jobs && row.status in RESULT_STATUSES
    requires row.searchId in db.searches && db.searches[row.searchId].userId == row.userId
    ensures var next := db.(results := db.results[id := row]);
            Owned(next) && JobsKnown(next) && StatusesKnown(next) && Scheduled(next)
  {
  }

  lemma TidyNewResult(db: DB, id: Id, searchId: Id, userId: Id, jobId: Id, now: Time)
    requires Tidy(db) && id !in db.results && jobId in db.jobs
    requires searchId in db.searches ==> db.searches[searchId].userId == userId
    ensures Tidy(UpsertResult(db, id, searchId, userId, jobId, now))
  {
    if LiveSearch(db, searchId) && !ResultKnown(db, searchId, jobId) {
      var row := NewResult(searchId, userId, jobId, now);
      NewResultKeepsIndexed(db, id, row);
      NewResultKeepsRest(db, id, row);
      NewResultKeepsCoherent(db, id, row);
    }
  }

  lemma NewResultKeepsCoherent(db: DB, id: Id, row: SearchResult)
    requires Coherent(db) && id !in db.results && row.evaluationId.None? && row.overallScore.None?
    ensures Coherent(db.(results := db.results[id := row]))
  {
    var next := db.(results := db.results[id := row]);
    forall r | r in next.results
      ensures ScoreAgrees(next, next.results[r], r)
    {
      if r != id {
        assert ScoreAgrees(db, db.results[r], r);
      }
    }
  }

  lemma SearchKeepsRest(db: DB, id: Id, s: Tables.Search)
    requires Owned(db) && JobsKnown(db) && StatusesKnown(db) && Scheduled(db)
    requires id in db.searches ==> s.userId == db.searches[id].userId
    requires s.enabled <==> s.nextRunAt.Some?
    ensures var next := db.(searches := db.searches[id := s]);
            Owned(next) && JobsKnown(next) && StatusesKnown(next) && Scheduled(next)
  {
  }

  lemma TidySearch(db: DB, id: Id, s: Tables.Search)
    requires Tidy(db)
    requires id in db.searches ==> s.userId == db.searches[id].userId
    requires s.enabled <==> s.nextRunAt.Some?
    ensures Tidy(db.(searches := db.searches[id := s]))
  {
    var next := db.(searches := db.searches[id := s]);
    SearchKeepsRest(db, id, s);
    CoherentElsewhere(db, next);
    IndexedElsewhere(db, next);
  }

  lemma IndexedElsewhere(db: DB, next: DB)
    requires Indexed(db)
    requires next.jobs == db.jobs && next.results == db.results && next.evaluations == db.evaluations && next.scores == db.scores
    ensures Indexed(next)
  {
  }

  lemma TidyUser(db: DB, id: Id)
    requires Tidy(db)
    ensures Tidy(db.(users := db.users + {id}))
  {
    CoherentElsewhere(db, db.(users := db.users + {id}));
    IndexedElsewhere(db, db.(users := db.users + {id}));
  }

  // A new CV has no sections yet.
  ghost predicate NoSectionOf(db: DB, cv: Id) {
    forall k :: k in db.sections ==> db.sections[k].cvId != cv
  }

  lemma CVKeepsRest(db: DB, id: Id, cv: CV)
    requires Owned(db) && JobsKnown(db) && StatusesKnown(db) && Scheduled(db)
    requires if id in db.cvs then cv.userId == db.cvs[id].userId else NoSectionOf(db, id)
    ensures var next := db.(cvs := db.cvs[id := cv]);
            Owned(next) && JobsKnown(next) && StatusesKnown(next) && Scheduled(next)
  {
  }

  lemma TidyCV(db: DB, id: Id, cv: CV)
    requires Tidy(db)
    requires if id in db.cvs then cv.userId == db.cvs[id].userId else NoSectionOf(db, id)
    ensures Tidy(db.(cvs := db.cvs[id := cv]))
  {
    CVKeepsRest(db, id, cv);
    CoherentElsewhere(db, db.(cvs := db.cvs[id := cv]));
    IndexedElsewhere(db, db.(cvs := db.cvs[id := cv]));
  }

  lemma ElsewhereKeepsTidy(db: DB, next: DB)
    requires Tidy(db) && next == db.(sections := next.sections, apiKeys := next.apiKeys, suggestions := next.suggestions)
    requires SectionsAgree(next)
    ensures Tidy(next)
  {
    ElsewhereKeepsRest(db, next);
    CoherentElsewhere(db, next);
    IndexedElsewhere(db, next);
  }

  lemma ElsewhereKeepsRest(db: DB, next: DB)
    requires Owned(db) && JobsKnown(db) && StatusesKnown(db) && Scheduled(db)
    requires next == db.(sections := next.sections, apiKeys := next.apiKeys, suggestions := next.suggestions)
    requires SectionsAgree(next)
    ensures Owned(next) && JobsKnown(next) && StatusesKnown(next) && Scheduled(next)
  {
  }

  lemma ErasedKeepsRest(db: DB, u: Id)
    requires Owned(db) && JobsKnown(db) && StatusesKnown(db) && Scheduled(db)
    ensures JobsKnown(Erased(db, u)) && StatusesKnown(Erased(db, u)) && Scheduled(Erased(db, u))
  {
  }

  lemma ErasedKeepsOwned(db: DB, u: Id)
    requires Owned(db)
    ensures Owned(Erased(db, u))
  {
    var next := Erased(db, u);
    assert ResultsOwned(next);
    assert EvaluationsOwned(next);
    assert ScoresOwned(next);
    assert SectionsAgree(next);
  }

  lemma ErasedKeepsIndexed(db: DB, u: Id)
    requires Indexed(db)
    ensures Indexed(Erased(db, u))
  {
  }

  lemma ErasedKeepsCoherent(db: DB, u: Id)
    requires Coherent(db)
    ensures Coherent(Erased(db, u))
  {
    var next := Erased(db, u);
    forall r | r in next.results
      ensures ScoreAgrees(next, next.results[r], r)
    {
      assert ScoreAgrees(db, db.results[r], r);
    }
  }

  lemma TidyErased(db: DB, u: Id)
    requires Tidy(db)
    ensures Tidy(Erased(db, u)) && AfterSteps(db, u, |STEPS|) == Erased(db, u)
  {
    DeleteErases(db, u);
    ErasedKeepsOwned(db, u);
    ErasedKeepsRest(db, u);
    ErasedKeepsIndexed(db, u);
    ErasedKeepsCoherent(db, u);
  }
}
