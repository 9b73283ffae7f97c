// One portal of a search run (runPortal in internal/pipeline/pipeline.go):
// searching it with retries, and storing what it found.
module Portals {
  import opened Common
  import opened Strings
  import opened Tables
  import opened Store

  datatype Posting = Posting(id: string, detail: string)

  // The run a posting is stored for.
  datatype Target = Target(searchId: Id, userId: Id, provider: string, now: Time)

  // ----- searching

  // Searches until an answer, the last attempt or a shutdown.
  method Search<T>(attempts: int, answer: nat -> Outcome<T, Failure>, cancelled: nat -> bool)
    returns (out: Outcome<T, Failure>, made: nat)
    ensures 1 <= made <= Max(1, attempts) && out == answer(made)
    ensures forall i: nat :: 1 <= i < made ==> answer(i).Err? && !cancelled(i)
    ensures out.Err? ==> made >= attempts || cancelled(made)
  {
    made := 1;
    out := answer(1);
    while out.Err? && made < attempts && !cancelled(made)
      invariant 1 <= made <= Max(1, attempts) && out == answer(made)
      invariant forall i: nat :: 1 <= i < made ==> answer(i).Err? && !cancelled(i)
    {
      made := made + 1;
      out := answer(made);
    }
  }

  // ----- storing

  predicate IsJob(db: DB, j: Id, provider: string, postingId: string) {
    j in db.jobs && db.jobs[j].provider == provider && db.jobs[j].jobId == postingId && !db.jobs[j].deleted
  }

  ghost function JobOf(db: DB, provider: string, postingId: string): Option<Id> {
    if exists j :: IsJob(db, j, provider, postingId)
    then var j :| IsJob(db, j, provider, postingId); Some(j)
    else None
  }

  lemma OnlyOneJob(db: DB, j: Id, provider: string, postingId: string)
    requires UniqueJobs(db) && IsJob(db, j, provider, postingId)
    ensures JobOf(db, provider, postingId) == Some(j)
  {
  }

  // One posting: nothing for a blank id, else a job and its result. A job
  // that was deleted cannot be stored again, which ends the portal's run.
  ghost function AfterPosting(db: DB, t: Target, p: Posting, jobId: Id, resultId: Id): Outcome<DB, DB> {
    if TrimSpace(p.id) == "" then Ok(db)
    else if t.provider == "" then Err(db)
    else
      var next := UpsertJob(db, jobId, NewJob(t.provider, p.id, p.detail, t.now));
      match JobOf(next, t.provider, p.id)
      case Some(j) => Ok(UpsertResult(next, resultId, t.searchId, t.userId, j, t.now))
      case None => Err(next)
  }

  // The ids are those of the job and of the result each posting may need.
  ghost function AfterPostings(db: DB, t: Target, ps: seq<Posting>, ids: seq<(Id, Id)>): Outcome<DB, DB>
    requires |ids| == |ps|
  {
    if ps == [] then Ok(db)
    else
      var last := |ps| - 1;
      match AfterPostings(db, t, ps[..last], ids[..last])
      case Ok(mid) => AfterPosting(mid, t, ps[last], ids[last].0, ids[last].1)
      case Err(mid) => Err(mid)
  }

  method StorePosting(d: Database, t: Target, p: Posting, jobId: Id, resultId: Id) returns (ok: bool)
    requires UniqueJobs(d.Rows()) && UniqueResults(d.Rows()) && jobId !in d.jobs && resultId !in d.results
    modifies d
    ensures AfterPosting(old(d.Rows()), t, p, jobId, resultId) == if ok then Ok(d.Rows()) else Err(d.Rows())
    ensures UniqueJobs(d.Rows()) && UniqueResults(d.Rows())
    ensures d.jobs.Keys <= old(d.jobs).Keys + {jobId} && d.results.Keys <= old(d.results).Keys + {resultId}
  {
    if TrimSpace(p.id) == "" {
      return true;
    }
    if t.provider == "" {
      return false;
    }
    if !JobKnown(d.Rows(), t.provider, p.id) {
      d.jobs := d.jobs[jobId := NewJob(t.provider, p.id, p.detail, t.now)];
    }
    if j :| j in d.jobs && IsJob(d.Rows(), j, t.provider, p.id) {
      OnlyOneJob(d.Rows(), j, t.provider, p.id);
      UpsertSearchResult(d, resultId, t.searchId, t.userId, j, t.now);
      return true;
    }
    return false;
  }

  // New ids, no job id and no result id given twice.
  ghost predicate NewIds(db: DB, ids: seq<(Id, Id)>) {
    && (forall i :: 0 <= i < |ids| ==> ids[i].0 !in db.jobs && ids[i].1 !in db.results)
    && (forall i, j :: 0 <= i < j < |ids| ==> ids[i].0 != ids[j].0 && ids[i].1 != ids[j].1)
  }

  method RunPortal(d: Database, t: Target, ps: seq<Posting>, ids: seq<(Id, Id)>) returns (ok: bool)
    requires UniqueJobs(d.Rows()) && UniqueResults(d.Rows()) && |ids| == |ps| && NewIds(d.Rows(), ids)
    modifies d
    ensures AfterPostings(old(d.Rows()), t, ps, ids) == if ok then Ok(d.Rows()) else Err(d.Rows())
  {
    for i := 0 to |ps|
      invariant AfterPostings(old(d.Rows()), t, ps[..i], ids[..i]) == Ok(d.Rows())
      invariant UniqueJobs(d.Rows()) && UniqueResults(d.Rows())
      invariant forall k :: i <= k < |ps| ==> ids[k].0 !in d.jobs && ids[k].1 !in d.results
    {
      ok := StorePosting(d, t, ps[i], ids[i].0, ids[i].1);
      NextPosting(old(d.Rows()), t, ps, ids, i);
      if !ok {
        StopsAt(old(d.Rows()), t, ps, ids, i + 1);
        return;
      }
    }
    assert ps[..|ps|] == ps && ids[..|ids|] == ids;
    return true;
  }

  lemma NextPosting(db: DB, t: Target, ps: seq<Posting>, ids: seq<(Id, Id)>, i: nat)
    requires i < |ps| == |ids| && AfterPostings(db, t, ps[..i], ids[..i]).Ok?
    ensures AfterPostings(db, t, ps[..i + 1], ids[..i + 1])
         == AfterPosting(AfterPostings(db, t, ps[..i], ids[..i]).value, t, ps[i], ids[i].0, ids[i].1)
  {
    assert ps[..i + 1][..i] == ps[..i] && ids[..i + 1][..i] == ids[..i];
  }

  // After an error the rest is not stored.
  lemma {:induction false} StopsAt(db: DB, t: Target, ps: seq<Posting>, ids: seq<(Id, Id)>, i: nat)
    requires i <= |ps| == |ids| && AfterPostings(db, t, ps[..i], ids[..i]).Err?
    ensures AfterPostings(db, t, ps, ids) == AfterPostings(db, t, ps[..i], ids[..i])
    decreases |ps|
  {
    if i == |ps| {
      assert ps[..i] == ps && ids[..i] == ids;
    } else {
      var last := |ps| - 1;
      assert ps[..last][..i] == ps[..i] && ids[..last][..i] == ids[..i];
      StopsAt(db, t, ps[..last], ids[..last], i);
    }
  }

  // ----- each posting is stored once

  // The posting needs nothing more: its job is stored, and so is its result
  // unless its search is gone.
  ghost predicate Stored(db: DB, t: Target, p: Posting) {
    TrimSpace(p.id) == ""
    || (t.provider != "" && JobOf(db, t.provider, p.id).Some?
        && (LiveSearch(db, t.searchId) ==> ResultKnown(db, t.searchId, JobOf(db, t.provider, p.id).value)))
  }

  lemma UpsertKeepsUnique(db: DB, id: Id, job: Job)
    requires UniqueJobs(db) && id !in db.jobs
    ensures UniqueJobs(UpsertJob(db, id, job))
  {
  }

  lemma UpsertKeepsJobs(db: DB, id: Id, job: Job, provider: string, postingId: string)
    requires UniqueJobs(db) && id !in db.jobs && JobOf(db, provider, postingId).Some?
    ensures JobOf(UpsertJob(db, id, job), provider, postingId) == JobOf(db, provider, postingId)
  {
    UpsertKeepsUnique(db, id, job);
    OnlyOneJob(UpsertJob(db, id, job), JobOf(db, provider, postingId).value, provider, postingId);
  }

  lemma SameJobsSameJobOf(db: DB, next: DB, provider: string, postingId: string)
    requires UniqueJobs(db) && next.jobs == db.jobs
    ensures JobOf(next, provider, postingId) == JobOf(db, provider, postingId)
  {
    if j :| IsJob(db, j, provider, postingId) {
      OnlyOneJob(db, j, provider, postingId);
      assert IsJob(next, j, provider, postingId);
      OnlyOneJob(next, j, provider, postingId);
    } else {
      assert forall j :: IsJob(next, j, provider, postingId) ==> IsJob(db, j, provider, postingId);
    }
  }

  lemma UpsertKnowsResult(db: DB, id: Id, searchId: Id, userId: Id, jobId: Id, now: Time)
    requires id !in db.results
    ensures var next := UpsertResult(db, id, searchId, userId, jobId, now);
            && (LiveSearch(db, searchId) ==> ResultKnown(next, searchId, jobId))
            && (forall s, j :: ResultKnown(db, s, j) ==> ResultKnown(next, s, j))
  {
    var next := UpsertResult(db, id, searchId, userId, jobId, now);
    if LiveSearch(db, searchId) && !ResultKnown(db, searchId, jobId) {
      assert next.results[id].searchId == searchId;
    }
    forall s, j | ResultKnown(db, s, j)
      ensures ResultKnown(next, s, j)
    {
      var r :| r in db.results && db.results[r].searchId == s && db.results[r].jobId == j;
      assert r in next.results && next.results[r] == db.results[r];
    }
  }

  lemma PostingIsStored(db: DB, t: Target, p: Posting, jobId: Id, resultId: Id)
    requires UniqueJobs(db) && jobId !in db.jobs && resultId !in db.results && AfterPosting(db, t, p, jobId, resultId).Ok?
    ensures var next := AfterPosting(db, t, p, jobId, resultId).value;
            Stored(next, t, p) && UniqueJobs(next)
  {
    if TrimSpace(p.id) != "" {
      var mid := UpsertJob(db, jobId, NewJob(t.provider, p.id, p.detail, t.now));
      UpsertKeepsUnique(db, jobId, NewJob(t.provider, p.id, p.detail, t.now));
      var j := JobOf(mid, t.provider, p.id).value;
      UpsertKnowsResult(mid, resultId, t.searchId, t.userId, j, t.now);
      SameJobsSameJobOf(mid, AfterPosting(db, t, p, jobId, resultId).value, t.provider, p.id);
    }
  }

  lemma JobKeepsStored(db: DB, t: Target, id: Id, job: Job, q: Posting)
    requires UniqueJobs(db) && id !in db.jobs && Stored(db, t, q)
    ensures Stored(UpsertJob(db, id, job), t, q)
  {
    if TrimSpace(q.id) != "" {
      UpsertKeepsJobs(db, id, job, t.provider, q.id);
    }
  }

  lemma ResultKeepsStored(db: DB, t: Target, id: Id, jobId: Id, q: Posting)
    requires UniqueJobs(db) && id !in db.results && Stored(db, t, q)
    ensures Stored(UpsertResult(db, id, t.searchId, t.userId, jobId, t.now), t, q)
  {
    var next := UpsertResult(db, id, t.searchId, t.userId, jobId, t.now);
    UpsertKnowsResult(db, id, t.searchId, t.userId, jobId, t.now);
    SameJobsSameJobOf(db, next, t.provider, q.id);
  }

  lemma PostingKeepsStored(db: DB, t: Target, p: Posting, jobId: Id, resultId: Id, q: Posting)
    requires UniqueJobs(db) && jobId !in db.jobs && resultId !in db.results && AfterPosting(db, t, p, jobId, resultId).Ok?
    requires Stored(db, t, q)
    ensures Stored(AfterPosting(db, t, p, jobId, resultId).value, t, q)
  {
    if TrimSpace(p.id) != "" {
      var job := NewJob(t.provider, p.id, p.detail, t.now);
      var mid := UpsertJob(db, jobId, job);
      UpsertKeepsUnique(db, jobId, job);
      JobKeepsStored(db, t, jobId, job, q);
      ResultKeepsStored(mid, t, resultId, JobOf(mid, t.provider, p.id).value, q);
    }
  }

  ghost predicate AllStored(db: DB, t: Target, ps: seq<Posting>) {
    forall p :: p in ps ==> Stored(db, t, p)
  }

  lemma PostingKeepsAllStored(db: DB, t: Target, p: Posting, jobId: Id, resultId: Id, ps: seq<Posting>)
    requires UniqueJobs(db) && jobId !in db.jobs && resultId !in db.results && AfterPosting(db, t, p, jobId, resultId).Ok?
    requires AllStored(db, t, ps)
    ensures AllStored(AfterPosting(db, t, p, jobId, resultId).value, t, ps + [p])
    ensures UniqueJobs(AfterPosting(db, t, p, jobId, resultId).value)
  {
    PostingIsStored(db, t, p, jobId, resultId);
    forall q | q in ps
      ensures Stored(AfterPosting(db, t, p, jobId, resultId).value, t, q)
    {
      PostingKeepsStored(db, t, p, jobId, resultId, q);
    }
  }

  // Rows are only added to jobs and results, with these ids.
  ghost predicate Adds(db: DB, next: DB, jobIds: set<Id>, resultIds: set<Id>) {
    && next.users == db.users && next.searches == db.searches && next.cvs == db.cvs && next.sections == db.sections
    && next.evaluations == db.evaluations && next.scores == db.scores
    && next.apiKeys == db.apiKeys && next.suggestions == db.suggestions
    && next.jobs.Keys <= db.jobs.Keys + jobIds && next.results.Keys <= db.results.Keys + resultIds
    && (forall j :: j in db.jobs ==> j in next.jobs && next.jobs[j] == db.jobs[j])
    && (forall j :: j in next.jobs && j !in db.jobs ==> !next.jobs[j].deleted)
    && (forall r :: r in db.results ==> r in next.results && next.results[r] == db.results[r])
  }

  // The rows a run leaves, whether or not it came to its end.
  function RowsAfter(o: Outcome<DB, DB>): DB {
    match o
    case Ok(db) => db
    case Err(db) => db
  }

  lemma PostingAdds(db: DB, t: Target, p: Posting, jobId: Id, resultId: Id)
    requires jobId !in db.jobs && resultId !in db.results
    ensures Adds(db, RowsAfter(AfterPosting(db, t, p, jobId, resultId)), {jobId}, {resultId})
  {
    NothingAdds(db, {jobId}, {resultId});
    if TrimSpace(p.id) != "" && t.provider != "" {
      var mid := UpsertJob(db, jobId, NewJob(t.provider, p.id, p.detail, t.now));
      JobAdds(db, jobId, NewJob(t.provider, p.id, p.detail, t.now));
      NothingAdds(mid, {}, {resultId});
      if JobOf(mid, t.provider, p.id).Some? {
        ResultAdds(mid, resultId, t, JobOf(mid, t.provider, p.id).value);
      }
      AddsThenAdds(db, mid, RowsAfter(AfterPosting(db, t, p, jobId, resultId)), jobId, resultId);
    }
  }

  lemma JobAdds(db: DB, id: Id, job: Job)
    requires id !in db.jobs && !job.deleted
    ensures Adds(db, UpsertJob(db, id, job), {id}, {})
  {
    NewJobAdds(db, id, job);
    NothingAdds(db, {id}, {});
  }

  lemma NothingAdds(db: DB, jobIds: set<Id>, resultIds: set<Id>)
    ensures Adds(db, db, jobIds, resultIds)
  {
  }

  lemma NewJobAdds(db: DB, id: Id, job: Job)
    requires id !in db.jobs && !job.deleted
    ensures Adds(db, db.(jobs := db.jobs[id := job]), {id}, {})
  {
  }

  lemma AddsThenAdds(a: DB, b: DB, c: DB, jobId: Id, resultId: Id)
    requires Adds(a, b, {jobId}, {}) && Adds(b, c, {}, {resultId})
    ensures Adds(a, c, {jobId}, {resultId})
  {
  }

  lemma ResultAdds(db: DB, id: Id, t: Target, jobId: Id)
    requires id !in db.results
    ensures Adds(db, UpsertResult(db, id, t.searchId, t.userId, jobId, t.now), {}, {id})
  {
    if !LiveSearch(db, t.searchId) || ResultKnown(db, t.searchId, jobId) {
      assert UpsertResult(db, id, t.searchId, t.userId, jobId, t.now) == db;
    }
  }

  function JobIds(ids: seq<(Id, Id)>): set<Id> {
    set i | 0 <= i < |ids| :: ids[i].0
  }

  function ResultIds(ids: seq<(Id, Id)>): set<Id> {
    set i | 0 <= i < |ids| :: ids[i].1
  }

  lemma LastIds(ids: seq<(Id, Id)>)
    requires ids != []
    ensures JobIds(ids) == JobIds(ids[..|ids| - 1]) + {ids[|ids| - 1].0}
    ensures ResultIds(ids) == ResultIds(ids[..|ids| - 1]) + {ids[|ids| - 1].1}
  {
    var rest := ids[..|ids| - 1];
    assert ids == rest + [ids[|ids| - 1]];
  }

  lemma AddsBoth(a: DB, b: DB, c: DB, ids: seq<(Id, Id)>)
    requires ids != [] && Adds(a, b, JobIds(ids[..|ids| - 1]), ResultIds(ids[..|ids| - 1]))
    requires Adds(b, c, {ids[|ids| - 1].0}, {ids[|ids| - 1].1})
    ensures Adds(a, c, JobIds(ids), ResultIds(ids))
  {
    LastIds(ids);
  }

  lemma LastIdsAreNew(db: DB, mid: DB, ids: seq<(Id, Id)>)
    requires ids != [] && NewIds(db, ids) && Adds(db, mid, JobIds(ids[..|ids| - 1]), ResultIds(ids[..|ids| - 1]))
    ensures ids[|ids| - 1].0 !in mid.jobs && ids[|ids| - 1].1 !in mid.results
  {
  }

  lemma AddsFewer(a: DB, b: DB, ids: seq<(Id, Id)>)
    requires ids != [] && Adds(a, b, JobIds(ids[..|ids| - 1]), ResultIds(ids[..|ids| - 1]))
    ensures Adds(a, b, JobIds(ids), ResultIds(ids))
  {
    LastIds(ids);
  }

  // A portal's run, interrupted or not, adds at most one job and one result
  // for each posting, and changes no row that was there.
  lemma {:induction false} RunAdds(db: DB, t: Target, ps: seq<Posting>, ids: seq<(Id, Id)>)
    requires |ids| == |ps| && NewIds(db, ids)
    ensures Adds(db, RowsAfter(AfterPostings(db, t, ps, ids)), JobIds(ids), ResultIds(ids))
  {
    if ps != [] {
      var last := |ps| - 1;
      var before := AfterPostings(db, t, ps[..last], ids[..last]);
      RunAdds(db, t, ps[..last], ids[..last]);
      if before.Ok? {
        LastIdsAreNew(db, before.value, ids);
        PostingAdds(before.value, t, ps[last], ids[last].0, ids[last].1);
        AddsBoth(db, before.value, RowsAfter(AfterPostings(db, t, ps, ids)), ids);
      } else {
        AddsFewer(db, RowsAfter(before), ids);
      }
    }
  }

  // ... and when it came to its end every posting is stored.
  lemma {:induction false} RunStoresEach(db: DB, t: Target, ps: seq<Posting>, ids: seq<(Id, Id)>)
    requires UniqueJobs(db) && |ids| == |ps| && NewIds(db, ids) && AfterPostings(db, t, ps, ids).Ok?
    ensures UniqueJobs(AfterPostings(db, t, ps, ids).value)
    ensures AllStored(AfterPostings(db, t, ps, ids).value, t, ps)
  {
    if ps != [] {
      var last := |ps| - 1;
      RunStoresEach(db, t, ps[..last], ids[..last]);
      RunAdds(db, t, ps[..last], ids[..last]);
      LastIsStored(db, AfterPostings(db, t, ps[..last], ids[..last]).value, t, ps, ids);
    }
  }

  lemma LastIsStored(db: DB, mid: DB, t: Target, ps: seq<Posting>, ids: seq<(Id, Id)>)
    requires |ids| == |ps| && NewIds(db, ids) && ps != [] && UniqueJobs(mid)
    requires Adds(db, mid, JobIds(ids[..|ids| - 1]), ResultIds(ids[..|ids| - 1])) && AllStored(mid, t, ps[..|ps| - 1])
    requires AfterPosting(mid, t, ps[|ps| - 1], ids[|ps| - 1].0, ids[|ps| - 1].1).Ok?
    ensures var next := AfterPosting(mid, t, ps[|ps| - 1], ids[|ps| - 1].0, ids[|ps| - 1].1).value;
            UniqueJobs(next) && AllStored(next, t, ps)
  {
    var last := |ps| - 1;
    LastIdsAreNew(db, mid, ids);
    PostingKeepsAllStored(mid, t, ps[last], ids[last].0, ids[last].1, ps[..last]);
    assert ps[..last] + [ps[last]] == ps;
  }

  lemma StoredIsNotStoredAgain(db: DB, t: Target, p: Posting, jobId: Id, resultId: Id)
    requires Stored(db, t, p)
    ensures AfterPosting(db, t, p, jobId, resultId) == Ok(db)
  {
    if TrimSpace(p.id) != "" {
      assert IsJob(db, JobOf(db, t.provider, p.id).value, t.provider, p.id);
    }
  }

  // Running a portal again over the same postings changes nothing.
  lemma {:induction false} RerunChangesNothing(db: DB, t: Target, ps: seq<Posting>, ids: seq<(Id, Id)>)
    requires |ids| == |ps| && AllStored(db, t, ps)
    ensures AfterPostings(db, t, ps, ids) == Ok(db)
  {
    if ps != [] {
      var last := |ps| - 1;
      RerunChangesNothing(db, t, ps[..last], ids[..last]);
      StoredIsNotStoredAgain(db, t, ps[last], ids[last].0, ids[last].1);
    }
  }

  // ----- what a posting stores, column by column

  predicate IsOf(j: Job, provider: string, postingId: string) {
    j.provider == provider && j.jobId == postingId
  }

  // The posting's job is stored as found, unless it was stored before.
  ghost predicate JobAsPosted(db: DB, next: DB, t: Target, p: Posting, id: Id) {
    if exists j :: j in db.jobs && IsOf(db.jobs[j], t.provider, p.id) then next.jobs == db.jobs
    else next.jobs == db.jobs[id := Job(t.provider, p.id, t.now, if p.detail == "" then JobNew else JobDescribed, 0, None, None, "",
                                        p.detail, p.detail != "", None, false)]
  }

  // Its search, unless it is gone or has the job, gets a new result of it.
  ghost predicate ResultAsPosted(db: DB, next: DB, t: Target, j: Id, id: Id) {
    if t.searchId in db.searches && !db.searches[t.searchId].deleted
       && forall r :: r in db.results ==> db.results[r].searchId != t.searchId || db.results[r].jobId != j
    then next.results == db.results[id :=
           SearchResult(t.searchId, t.userId, j, t.now, "new", Pending, 0, None, None, "", None, None)]
    else next.results == db.results
  }

  lemma JobIsAsPosted(db: DB, t: Target, p: Posting, id: Id)
    ensures JobAsPosted(db, UpsertJob(db, id, NewJob(t.provider, p.id, p.detail, t.now)), t, p, id)
  {
    if j :| j in db.jobs && IsOf(db.jobs[j], t.provider, p.id) {
      assert JobKnown(db, t.provider, p.id);
    }
  }

  lemma ResultIsAsPosted(db: DB, t: Target, j: Id, id: Id)
    ensures ResultAsPosted(db, UpsertResult(db, id, t.searchId, t.userId, j, t.now), t, j, id)
  {
    if r :| r in db.results && db.results[r].searchId == t.searchId && db.results[r].jobId == j {
      assert ResultKnown(db, t.searchId, j);
    }
  }

  // A posting with an id is stored as one job and one result of it, new ones
  // only where there were none; one without an id is not stored.
  lemma PostingIsStoredAsFound(db: DB, t: Target, p: Posting, jobId: Id, resultId: Id)
    requires UniqueJobs(db) && jobId !in db.jobs && AfterPosting(db, t, p, jobId, resultId).Ok?
    ensures var next := AfterPosting(db, t, p, jobId, resultId).value;
            if TrimSpace(p.id) == "" then next == db
            else
              && JobAsPosted(db, next, t, p, jobId)
              && exists j :: j in next.jobs && IsOf(next.jobs[j], t.provider, p.id) && !next.jobs[j].deleted
                             && ResultAsPosted(db, next, t, j, resultId)
  {
    if TrimSpace(p.id) != "" {
      var mid := UpsertJob(db, jobId, NewJob(t.provider, p.id, p.detail, t.now));
      JobIsAsPosted(db, t, p, jobId);
      var j := JobOf(mid, t.provider, p.id).value;
      assert IsJob(mid, j, t.provider, p.id);
      ResultIsAsPosted(mid, t, j, resultId);
    }
  }

  // ----- when a run comes to its end

  // The posting's job was stored once and has been deleted.
  ghost predicate JobGone(db: DB, provider: string, postingId: string) {
    exists j :: j in db.jobs && db.jobs[j].provider == provider && db.jobs[j].jobId == postingId && db.jobs[j].deleted
  }

  ghost predicate Storable(db: DB, t: Target, p: Posting) {
    TrimSpace(p.id) == "" || (t.provider != "" && !JobGone(db, t.provider, p.id))
  }

  lemma GoneIsNotFound(db: DB, provider: string, postingId: string)
    requires UniqueJobs(db) && JobGone(db, provider, postingId)
    ensures JobKnown(db, provider, postingId) && JobOf(db, provider, postingId).None?
  {
    var gone :| gone in db.jobs && db.jobs[gone].provider == provider && db.jobs[gone].jobId == postingId
                && db.jobs[gone].deleted;
    forall j
      ensures !IsJob(db, j, provider, postingId)
    {
    }
  }

  lemma NotGoneIsFound(db: DB, t: Target, p: Posting, id: Id)
    requires id !in db.jobs && !JobGone(db, t.provider, p.id)
    ensures JobOf(UpsertJob(db, id, NewJob(t.provider, p.id, p.detail, t.now)), t.provider, p.id).Some?
  {
    var next := UpsertJob(db, id, NewJob(t.provider, p.id, p.detail, t.now));
    if JobKnown(db, t.provider, p.id) {
      var j :| j in db.jobs && db.jobs[j].provider == t.provider && db.jobs[j].jobId == p.id;
      assert IsJob(next, j, t.provider, p.id);
    } else {
      assert IsJob(next, id, t.provider, p.id);
    }
  }

  lemma PostingSucceedsExactlyWhen(db: DB, t: Target, p: Posting, jobId: Id, resultId: Id)
    requires UniqueJobs(db) && jobId !in db.jobs
    ensures AfterPosting(db, t, p, jobId, resultId).Ok? <==> Storable(db, t, p)
    ensures !Storable(db, t, p) ==> AfterPosting(db, t, p, jobId, resultId) == Err(db)
  {
    if TrimSpace(p.id) != "" && t.provider != "" {
      if JobGone(db, t.provider, p.id) {
        GoneIsNotFound(db, t.provider, p.id);
      } else {
        NotGoneIsFound(db, t, p, jobId);
      }
    }
  }

  // Storing postings deletes no job.
  lemma AddedJobsAreNotGone(db: DB, next: DB, provider: string, postingId: string)
    requires forall j :: j in db.jobs ==> j in next.jobs && next.jobs[j] == db.jobs[j]
    requires forall j :: j in next.jobs && j !in db.jobs ==> !next.jobs[j].deleted
    ensures JobGone(next, provider, postingId) <==> JobGone(db, provider, postingId)
  {
    if JobGone(db, provider, postingId) {
      var j :| j in db.jobs && db.jobs[j].provider == provider && db.jobs[j].jobId == postingId && db.jobs[j].deleted;
      assert j in next.jobs && next.jobs[j].deleted;
    }
  }

  lemma RunKeepsStorable(db: DB, t: Target, ps: seq<Posting>, ids: seq<(Id, Id)>, q: Posting)
    requires |ids| == |ps| && NewIds(db, ids)
    ensures Storable(RowsAfter(AfterPostings(db, t, ps, ids)), t, q) <==> Storable(db, t, q)
  {
    RunAdds(db, t, ps, ids);
    AddedJobsAreNotGone(db, RowsAfter(AfterPostings(db, t, ps, ids)), t.provider, q.id);
  }

  lemma NewIdsBefore(db: DB, ids: seq<(Id, Id)>, k: nat)
    requires NewIds(db, ids) && k <= |ids|
    ensures NewIds(db, ids[..k])
  {
  }

  // A portal's run comes to its end exactly when its portal has a name and no
  // posting's job was deleted, blank ids aside.
  lemma {:induction false} RunSucceedsExactlyWhen(db: DB, t: Target, ps: seq<Posting>, ids: seq<(Id, Id)>)
    requires UniqueJobs(db) && |ids| == |ps| && NewIds(db, ids)
    ensures AfterPostings(db, t, ps, ids).Ok? <==> forall p :: p in ps ==> Storable(db, t, p)
  {
    if ps != [] {
      var last := |ps| - 1;
      assert ps == ps[..last] + [ps[last]];
      NewIdsBefore(db, ids, last);
      RunSucceedsExactlyWhen(db, t, ps[..last], ids[..last]);
      if AfterPostings(db, t, ps[..last], ids[..last]).Ok? {
        LastSucceedsExactlyWhen(db, t, ps, ids);
      }
    }
  }

  lemma LastSucceedsExactlyWhen(db: DB, t: Target, ps: seq<Posting>, ids: seq<(Id, Id)>)
    requires UniqueJobs(db) && |ids| == |ps| && NewIds(db, ids) && ps != []
    requires AfterPostings(db, t, ps[..|ps| - 1], ids[..|ps| - 1]).Ok?
    ensures AfterPostings(db, t, ps, ids).Ok? <==> Storable(db, t, ps[|ps| - 1])
    ensures AfterPostings(db, t, ps, ids).Err? ==>
              RowsAfter(AfterPostings(db, t, ps, ids)) == AfterPostings(db, t, ps[..|ps| - 1], ids[..|ps| - 1]).value
  {
    var last := |ps| - 1;
    BeforeLast(db, t, ps, ids);
    PostingSucceedsExactlyWhen(AfterPostings(db, t, ps[..last], ids[..last]).value, t, ps[last], ids[last].0, ids[last].1);
  }

  lemma BeforeLast(db: DB, t: Target, ps: seq<Posting>, ids: seq<(Id, Id)>)
    requires UniqueJobs(db) && |ids| == |ps| && NewIds(db, ids) && ps != []
    requires AfterPostings(db, t, ps[..|ps| - 1], ids[..|ps| - 1]).Ok?
    ensures var mid := AfterPostings(db, t, ps[..|ps| - 1], ids[..|ps| - 1]).value;
            && UniqueJobs(mid) && ids[|ps| - 1].0 !in mid.jobs
            && (Storable(mid, t, ps[|ps| - 1]) <==> Storable(db, t, ps[|ps| - 1]))
  {
    var last := |ps| - 1;
    var before, first := ps[..last], ids[..last];
    NewIdsBefore(db, ids, last);
    RunStoresEach(db, t, before, first);
    RunAdds(db, t, before, first);
    LastIdsAreNew(db, AfterPostings(db, t, before, first).value, ids);
    RunKeepsStorable(db, t, before, first, ps[last]);
  }

  // Where it stops, at the first posting that cannot be stored, exactly the
  // postings before that one are stored.
  lemma InterruptedRunStoresBefore(db: DB, t: Target, ps: seq<Posting>, ids: seq<(Id, Id)>, i: nat)
    requires UniqueJobs(db) && i < |ps| == |ids| && NewIds(db, ids)
    requires !Storable(db, t, ps[i]) && forall p :: p in ps[..i] ==> Storable(db, t, p)
    ensures AfterPostings(db, t, ps[..i], ids[..i]).Ok?
    ensures AfterPostings(db, t, ps, ids) == Err(AfterPostings(db, t, ps[..i], ids[..i]).value)
    ensures AllStored(RowsAfter(AfterPostings(db, t, ps, ids)), t, ps[..i])
  {
    assert ps[..i + 1][..i] == ps[..i] && ids[..i + 1][..i] == ids[..i];
    NewIdsBefore(db, ids, i);
    NewIdsBefore(db, ids, i + 1);
    RunSucceedsExactlyWhen(db, t, ps[..i], ids[..i]);
    LastSucceedsExactlyWhen(db, t, ps[..i + 1], ids[..i + 1]);
    StopsAt(db, t, ps, ids, i + 1);
    RunStoresEach(db, t, ps[..i], ids[..i]);
  }
}
