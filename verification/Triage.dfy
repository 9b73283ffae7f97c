// What a user's triage of a result does to its columns, and when the result is
// claimed again.
module Triage {
  import opened Common
  import opened Strings
  import opened Tables
  import opened Store
  import opened Results

  // The user's result, whose search and job still exist.
  predicate IsShown(db: DB, u: Id, id: Id) {
    && id in db.results
    && var row := db.results[id];
       && row.userId == u
       && row.searchId in db.searches && !db.searches[row.searchId].deleted
       && row.jobId in db.jobs && !db.jobs[row.jobId].deleted
  }

  predicate CanAskAgain(row: SearchResult, now: Time) {
    || row.evalStatus == Done || row.evalStatus == Failed
    || (row.evalStatus == Pending && row.nextAttemptAt.Some? && now < row.nextAttemptAt.value)
  }

  // Only a result that is done, given up or put off is evaluated again: it is
  // as if never tried, keeps its evaluation and score, and is claimed at once,
  // provided its job is embedded.
  lemma ReEvaluateColumns(db: DB, u: Id, id: Id, now: Time, at: Time, stale: Time)
    ensures var o := ReEvaluate(db, u, id, now);
            && (!IsShown(db, u, id) ==> o == Err(NotFound))
            && (IsShown(db, u, id) && !CanAskAgain(db.results[id], now) ==> o == Err(InProgress))
            && (IsShown(db, u, id) && CanAskAgain(db.results[id], now) ==>
                  var was := db.results[id];
                  && o == Ok(db.(results := db.results[id :=
                       SearchResult(was.searchId, was.userId, was.jobId, was.createdAt, was.status, Pending, 0, None, None, "",
                                    was.evaluationId, was.overallScore)]))
                  && (ResultClaimable(o.value, id, at, stale) <==> db.jobs[was.jobId].status == JobEmbedded))
  {
  }

  // A status is one of four, up to white space and case, and changes nothing else.
  lemma UpdateStatusColumns(lower: CaseMap, db: DB, u: Id, id: Id, status: string)
    ensures var name := ToLower(lower, TrimSpace(status));
            UpdateStatus(lower, db, u, id, status) ==
              if name == "" then Err(BadParam("status", true))
              else if name !in ["new", "saved", "applied", "dismissed"] then Err(BadParam("status", false))
              else if !IsShown(db, u, id) then Err(NotFound)
              else Ok(db.(results := db.results[id := db.results[id].(status := name)]))
  {
  }

  // Giving the same status again changes nothing.
  lemma UpdateStatusTwice(lower: CaseMap, db: DB, u: Id, id: Id, status: string)
    requires UpdateStatus(lower, db, u, id, status).Ok?
    ensures UpdateStatus(lower, UpdateStatus(lower, db, u, id, status).value, u, id, status)
         == UpdateStatus(lower, db, u, id, status)
  {
    var once := UpdateStatus(lower, db, u, id, status).value;
    assert once.results[id := once.results[id].(status := ToLower(lower, TrimSpace(status)))] == once.results;
  }
}
