// What every step of the machine with locks keeps, in any interleaving:
// pending changes stay what they would be now, and a deletion's pending
// deletes stay deletes of its user's rows.
module LockingSteps {
  import opened Common
  import opened Matcher
  import opened Tables
  import opened Store
  import opened Worker
  import opened Account
  import opened Machine
  import opened Integrity
  import opened Reachable
  import opened Frames
  import opened Consistency
  import opened Locking
  import opened Belongings

  // ----- the invariant

  // What a transaction rests on, and that its pending change is still the one
  // it would make now.
  ghost predicate TxTrue(c: Config, s: Sys, t: Txn) {
    match t
    case Inserting(run, searchId, jobId, row) =>
      && run in s.runs && s.runs[run].searchId == searchId && jobId in s.db.jobs && LiveSearch(s.db, searchId)
      && (row.Some? && row.value.NewRow? ==> row.value.at <= s.now && !ResultKnown(s.db, searchId, jobId))
    case Recording(w, e, id, change) =>
      && e.ResultWritten? && e.w == w && CanWork(c, s, e) && s.workers[w].id == id && id in s.db.results
      && (change.Some? ==> !Conflicts(WriteOf(s, e)) && change.value == WriteChange(c, s.db, WriteOf(s, e)))
  }

  ghost predicate TxsTrue(c: Config, f: Fine) {
    forall tx :: tx in f.open ==> TxTrue(c, f.s, f.open[tx])
  }

  // Two transactions that would change the same row.
  ghost predicate Clash(a: Txn, b: Txn) {
    || (a.Recording? && b.Recording? && a.id == b.id)
    || (a.Inserting? && b.Inserting? && a.row.Some? && a.row.value.NewRow? && b.row.Some? && b.row.value.NewRow?
        && a.searchId == b.searchId && a.jobId == b.jobId)
  }

  ghost predicate TxsApart(f: Fine) {
    forall a, b :: a in f.open && b in f.open && a != b ==>
      TxIds(f.open[a]) !! TxIds(f.open[b]) && !Clash(f.open[a], f.open[b])
  }

  ghost predicate IdsApart(f: Fine) {
    f.s.used <= f.taken
    && forall tx :: tx in f.open ==> TxIds(f.open[tx]) <= f.taken && TxIds(f.open[tx]) !! f.s.used
  }

  // A transaction has no row that a deletion has locked or deleted.
  ghost predicate Compatible(d: Deletion, t: Txn) {
    match t
    case Inserting(_, searchId, _, _) => searchId !in d.searchLocks
    case Recording(_, _, id, _) =>
      && id !in d.resultLocks
      && (SavedIn(t).Some? ==>
            SavedIn(t).value.id !in GoneFrom(d, 1) && SavedIn(t).value.oldScores !! GoneFrom(d, 0))
  }

  ghost predicate LocksHeld(f: Fine) {
    forall u, tx :: u in f.deletions && tx in f.open ==> Compatible(f.deletions[u], f.open[tx])
  }

  // What a deletion has deleted is locked, and of what is still committed it
  // is the user's.
  ghost predicate DeletionHolds(s: Sys, u: Id, d: Deletion) {
    && u in s.db.users && GoneFrom(d, 2) <= d.resultLocks && GoneFrom(d, 3) <= d.searchLocks
    && (d.stage.DeleteRows? ==>
          && |d.stage.gone| <= |STEPS| && TakesTheirs(s.db, d.stage.gone, u) && ScoresFollow(s.db, d.stage.gone)
          && forall n :: 0 <= n < |d.stage.gone| ==> d.stage.gone[n] <= s.used)
  }

  ghost predicate DeletionsHold(f: Fine) {
    forall u :: u in f.deletions ==> DeletionHolds(f.s, u, f.deletions[u])
  }

  ghost predicate Inv(c: Config, f: Fine) {
    Consistent(f.s) && TxsTrue(c, f) && TxsApart(f) && IdsApart(f) && LocksHeld(f) && DeletionsHold(f)
  }

  ghost predicate FineInitial(f: Fine) {
    Initial(f.s) && f.taken == {} && f.open == map[] && f.deletions == map[]
  }

  lemma InitialHolds(c: Config, f: Fine)
    requires FineInitial(f)
    ensures Inv(c, f)
  {
    InitialIsConsistent(f.s);
  }

  // ----- pending changes stay what they are

  // The evaluation of a result and CV, and its scores, are the same in both.
  ghost predicate EvaluationKept(db: DB, next: DB, r: Id, cv: Id) {
    && (forall e :: IsFor(db, e, r, cv) <==> IsFor(next, e, r, cv))
    && (forall e :: IsFor(db, e, r, cv) ==>
          next.evaluations[e] == db.evaluations[e] && ScoresOf(next.scores, e) == ScoresOf(db.scores, e))
  }

  lemma SavedToStays(db: DB, next: DB, e: Evaluation, newId: Id)
    requires UniqueEvaluations(db) && UniqueEvaluations(next) && EvaluationKept(db, next, e.resultId, e.cvId)
    ensures SavedTo(next, e, newId) == SavedTo(db, e, newId)
    ensures SavedTo(db, e, newId) == newId || IsFor(db, SavedTo(db, e, newId), e.resultId, e.cvId)
  {
    if o :| IsFor(db, o, e.resultId, e.cvId) {
      OnlyOneEvaluation(db, o, e.resultId, e.cvId);
      OnlyOneEvaluation(next, o, e.resultId, e.cvId);
    } else {
      assert forall o :: !IsFor(next, o, e.resultId, e.cvId);
    }
  }

  // What of the state a pending change rests on.
  ghost predicate Sound(s: Sys) {
    IdsUsed(s) && RefsUsed(s.db, s.used) && UniqueEvaluations(s.db)
  }

  lemma NewIdHasNoScores(s: Sys, id: Id)
    requires Sound(s) && id !in s.used
    ensures id !in s.db.evaluations && ScoresOf(s.db.scores, id) == {}
  {
  }

  lemma SavingStays(db: DB, next: DB, e: Evaluation, breakdown: seq<CriterionScore>, newId: Id, ids: seq<Id>)
    requires UniqueEvaluations(db) && UniqueEvaluations(next) && EvaluationKept(db, next, e.resultId, e.cvId)
    requires newId !in db.evaluations && newId !in next.evaluations
    requires ScoresOf(db.scores, newId) == ScoresOf(next.scores, newId)
    requires |ids| == |breakdown| && Distinct(ids)
    ensures Saving(next, e, breakdown, newId, ids) == Saving(db, e, breakdown, newId, ids)
  {
    SavedToStays(db, next, e, newId);
  }

  lemma ChangeStays(c: Config, s: Sys, next: Sys, w: Write)
    requires Sound(s) && Sound(next) && HasIds(w) && w.newId !in s.used && w.newId !in next.used
    requires w.id in s.db.results && w.id in next.db.results && next.db.results[w.id] == s.db.results[w.id]
    requires Saves(w.out) ==> EvaluationKept(s.db, next.db, w.id, w.out.cv)
    ensures WriteChange(c, next.db, w) == WriteChange(c, s.db, w)
  {
    NewIdHasNoScores(s, w.newId);
    NewIdHasNoScores(next, w.newId);
    SameChange(c, s.db, next.db, w);
  }

  lemma SameChange(c: Config, db: DB, next: DB, w: Write)
    requires UniqueEvaluations(db) && UniqueEvaluations(next)
    requires Saves(w.out) ==> EvaluationKept(db, next, w.id, w.out.cv)
    requires HasIds(w) && w.newId !in db.evaluations && w.newId !in next.evaluations
    requires ScoresOf(db.scores, w.newId) == ScoresOf(next.scores, w.newId)
    requires w.id in db.results && w.id in next.results && next.results[w.id] == db.results[w.id]
    ensures WriteChange(c, next, w) == WriteChange(c, db, w)
  {
    if Saves(w.out) {
      SavingStays(db, next, EvaluationRow(w), Breakdown(w.out), w.newId, w.scoreIds);
    }
  }

  // A worker that is left alone can still write what it could.
  lemma WorkerStillCan(c: Config, s: Sys, next: Sys, e: WorkEvent)
    requires CanWork(c, s, e) && e.ResultWritten? && s.now <= next.now
    requires e.w in next.workers && next.workers[e.w] == s.workers[e.w]
    requires ({e.newId} + IdSet(e.scoreIds)) !! next.used
    ensures CanWork(c, next, e) && WriteOf(next, e) == WriteOf(s, e)
  {
    forall i | 0 <= i < |e.scoreIds|
      ensures e.scoreIds[i] !in next.used
    {
      assert e.scoreIds[i] in IdSet(e.scoreIds);
    }
  }

  // The evaluation a transaction would save over, if it saves one.
  ghost predicate PendingKept(db: DB, next: DB, t: Txn)
    requires t.Recording?
  {
    t.change.Some? && t.event.ResultWritten? && Saves(t.event.out) ==> EvaluationKept(db, next, t.id, t.event.out.cv)
  }

  lemma RecordingStays(c: Config, s: Sys, next: Sys, t: Txn)
    requires Sound(s) && Sound(next) && t.Recording? && TxTrue(c, s, t)
    requires s.now <= next.now && TxIds(t) !! next.used
    requires t.w in next.workers && next.workers[t.w] == s.workers[t.w]
    requires t.id in next.db.results && next.db.results[t.id] == s.db.results[t.id]
    requires PendingKept(s.db, next.db, t)
    ensures TxTrue(c, next, t)
  {
    WorkerStillCan(c, s, next, t.event);
    if t.change.Some? {
      ChangeStays(c, s, next, WriteOf(s, t.event));
    }
  }

  lemma SameEvaluationsKept(db: DB, next: DB, r: Id, cv: Id)
    requires next.evaluations == db.evaluations && next.scores == db.scores
    ensures EvaluationKept(db, next, r, cv)
  {
    assert forall e :: IsFor(db, e, r, cv) <==> IsFor(next, e, r, cv);
  }

  lemma InsertingStays(c: Config, s: Sys, next: Sys, t: Txn)
    requires t.Inserting? && TxTrue(c, s, t) && s.now <= next.now
    requires t.run in next.runs && next.runs[t.run] == s.runs[t.run]
    requires t.jobId in next.db.jobs && LiveSearch(next.db, t.searchId)
    requires t.row.Some? && t.row.value.NewRow? ==> !ResultKnown(next.db, t.searchId, t.jobId)
    ensures TxTrue(c, next, t)
  {
  }

  // ----- single statements

  lemma StatementKeepsInserting(c: Config, s: Sys, next: Sys, e: Event, t: Txn)
    requires Steady(s, s.db, next.db, e) && Undisturbed(s, next, e) && t.Inserting? && TxTrue(c, s, t)
    requires RunOf(e) != Some(t.run) && SearchRow(s, e) != Some(t.searchId)
    ensures TxTrue(c, next, t)
  {
    SameKeysKnown(s.db, next.db, ResultRow(e), t.searchId, t.jobId);
    InsertingStays(c, s, next, t);
  }

  lemma SameKeysKnown(db: DB, next: DB, row: Option<Id>, searchId: Id, jobId: Id)
    requires ResultsSteady(db, next, row)
    ensures ResultKnown(next, searchId, jobId) == ResultKnown(db, searchId, jobId)
  {
    if ResultKnown(db, searchId, jobId) {
      var r :| r in db.results && db.results[r].searchId == searchId && db.results[r].jobId == jobId;
      assert r in next.results && SamePlace(next.results[r], db.results[r]);
    }
    if ResultKnown(next, searchId, jobId) {
      var r :| r in next.results && next.results[r].searchId == searchId && next.results[r].jobId == jobId;
      assert r in db.results && SamePlace(next.results[r], db.results[r]);
    }
  }

  lemma StatementKeepsRecording(c: Config, s: Sys, next: Sys, e: Event, t: Txn)
    requires Steady(s, s.db, next.db, e) && Undisturbed(s, next, e) && t.Recording? && TxTrue(c, s, t)
    requires Sound(s) && Sound(next) && TxIds(t) !! next.used
    requires WorkerOf(e) != Some(t.w) && ResultRow(e) != Some(t.id)
    ensures TxTrue(c, next, t)
  {
    if t.change.Some? && Saves(t.event.out) {
      SameEvaluationsKept(s.db, next.db, t.id, t.event.out.cv);
    }
    RecordingStays(c, s, next, t);
  }

  lemma StatementKeepsTxs(c: Config, f: Fine, next: Sys, e: Event)
    requires Sound(f.s) && Sound(next) && TxsTrue(c, f) && IdsApart(f) && Unlocked(f, e)
    requires Steady(f.s, f.s.db, next.db, e) && Undisturbed(f.s, next, e) && (next.used - f.s.used) !! f.taken
    ensures forall tx :: tx in f.open ==> TxTrue(c, next, f.open[tx])
  {
    forall tx | tx in f.open
      ensures TxTrue(c, next, f.open[tx])
    {
      var t := f.open[tx];
      assert TxTrue(c, f.s, t) && TxIds(t) <= f.taken && TxIds(t) !! f.s.used;
      if t.Inserting? {
        assert SearchShared(f, t.searchId);
        StatementKeepsInserting(c, f.s, next, e, t);
      } else {
        assert ResultRecorded(f, t.id);
        assert TxIds(t) !! next.used;
        StatementKeepsRecording(c, f.s, next, e, t);
      }
    }
  }

  lemma StatementKeepsIdsApart(c: Config, f: Fine, e: Event)
    requires IdsUsed(f.s) && IdsApart(f) && CanStep(c, f, One(e))
    ensures IdsApart(Next(c, f, One(e)))
  {
    EventsLeaveOthersAlone(c, f.s, e);
    var next := Next(c, f, One(e));
    forall tx | tx in f.open
      ensures TxIds(f.open[tx]) <= next.taken && TxIds(f.open[tx]) !! next.s.used
    {
      assert TxIds(f.open[tx]) <= f.taken && TxIds(f.open[tx]) !! f.s.used;
    }
  }

  // ----- committing an insert

  predicate Inserts(f: Fine, tx: Id) {
    tx in f.open && f.open[tx].Inserting? && f.open[tx].row.Some? && f.open[tx].row.value.NewRow?
  }

  function StoredBy(f: Fine, tx: Id): Event
    requires Inserts(f, tx)
  {
    var t := f.open[tx];
    Searching(ResultStored(t.run, t.jobId, t.row.value.id, t.row.value.at))
  }

  lemma InsertIsStored(c: Config, f: Fine, tx: Id)
    requires TxsTrue(c, f) && IdsApart(f) && Inserts(f, tx)
    ensures Can(c, f.s, StoredBy(f, tx)) && f.open[tx].run in f.s.runs
    ensures After(c, f.s, StoredBy(f, tx)) == AfterCommit(f, tx)
  {
    assert TxTrue(c, f.s, f.open[tx]) && TxIds(f.open[tx]) !! f.s.used;
    assert f.open[tx].row.value.id in TxIds(f.open[tx]);
  }

  lemma NewRowElsewhere(db: DB, id: Id, row: SearchResult, searchId: Id, jobId: Id)
    requires id !in db.results && !ResultKnown(db, searchId, jobId)
    requires row.searchId != searchId || row.jobId != jobId
    ensures !ResultKnown(db.(results := db.results[id := row]), searchId, jobId)
  {
  }

  lemma InsertKeepsRecording(c: Config, f: Fine, tx: Id, t: Txn)
    requires Sound(f.s) && Inserts(f, tx) && f.open[tx].run in f.s.runs && Sound(AfterCommit(f, tx))
    requires TxIds(f.open[tx]) !! f.s.used
    requires t.Recording? && TxTrue(c, f.s, t) && TxIds(t) !! f.s.used && TxIds(t) !! TxIds(f.open[tx])
    ensures TxTrue(c, AfterCommit(f, tx), t)
  {
    assert f.open[tx].row.value.id in TxIds(f.open[tx]);
    if t.change.Some? && Saves(t.event.out) {
      SameEvaluationsKept(f.s.db, AfterCommit(f, tx).db, t.id, t.event.out.cv);
    }
    RecordingStays(c, f.s, AfterCommit(f, tx), t);
  }

  lemma InsertKeepsInserting(c: Config, f: Fine, tx: Id, t: Txn)
    requires IdsUsed(f.s) && Inserts(f, tx) && f.open[tx].run in f.s.runs
    requires TxIds(f.open[tx]) !! f.s.used
    requires t.Inserting? && TxTrue(c, f.s, t) && !Clash(t, f.open[tx])
    ensures TxTrue(c, AfterCommit(f, tx), t)
  {
    var i := f.open[tx];
    assert i.row.value.id in TxIds(i);
    if t.row.Some? && t.row.value.NewRow? {
      NewRowElsewhere(f.s.db, i.row.value.id, NewResult(i.searchId, f.s.runs[i.run].userId, i.jobId, i.row.value.at),
                      t.searchId, t.jobId);
    }
    InsertingStays(c, f.s, AfterCommit(f, tx), t);
  }

  function RowOf(f: Fine, tx: Id): SearchResult
    requires Inserts(f, tx) && f.open[tx].run in f.s.runs
  {
    var t := f.open[tx];
    NewResult(t.searchId, f.s.runs[t.run].userId, t.jobId, t.row.value.at)
  }

  lemma InsertIsOfItsSearch(c: Config, f: Fine, tx: Id)
    requires RunsTrue(f.s) && TxsTrue(c, f) && IdsApart(f) && Inserts(f, tx)
    ensures f.open[tx].run in f.s.runs && f.open[tx].row.value.id !in f.s.used
    ensures var row := RowOf(f, tx);
            row.searchId in f.s.db.searches && f.s.db.searches[row.searchId].userId == row.userId
  {
    assert TxTrue(c, f.s, f.open[tx]) && TxIds(f.open[tx]) !! f.s.used;
    assert f.open[tx].row.value.id in TxIds(f.open[tx]);
    assert RunTrue(f.s.db, f.s.runs[f.open[tx].run]);
  }

  // ----- committing an evaluation

  predicate Records(f: Fine, tx: Id) {
    tx in f.open && f.open[tx].Recording? && f.open[tx].change.Some?
  }

  lemma RecordIsWritten(c: Config, f: Fine, tx: Id)
    requires TxsTrue(c, f) && Records(f, tx)
    ensures Can(c, f.s, Working(f.open[tx].event))
    ensures After(c, f.s, Working(f.open[tx].event)) == AfterCommit(f, tx)
  {
    assert TxTrue(c, f.s, f.open[tx]);
  }

  lemma PendingIsProper(c: Config, s: Sys, t: Txn)
    requires Consistent(s) && t.Recording? && t.change.Some? && TxTrue(c, s, t)
    ensures Proper(s.db, s.used, t.change.value) && t.change.value.id == t.id
    ensures SavedIn(t).Some? <==> Saves(t.event.out)
    ensures Agree(Changed(s.db, t.change.value))
  {
    WriteIsProperChange(c, s, t.event);
    if Saves(t.event.out) {
      RecordedCVAgrees(c, s, t.event);
    }
    ChangeKeepsAgree(s.db, s.used, t.change.value);
  }

  lemma ChangeKeepsEvaluation(db: DB, used: set<Id>, change: Change, r: Id, cv: Id)
    requires Proper(db, used, change) && db.scores.Keys <= used && r != change.id
    ensures EvaluationKept(db, Changed(db, change), r, cv)
  {
    if change.saved.Some? {
      SavedEvaluations(db, change);
      SaveKeepsScores(db, change.saved.value, Changed(db, change).scores);
      assert forall e :: IsFor(db, e, r, cv) <==> IsFor(Changed(db, change), e, r, cv);
    } else {
      ChangeFrame(db, change);
      SameEvaluationsKept(db, Changed(db, change), r, cv);
    }
  }

  lemma SaveKeepsScores(db: DB, saved: Saved, scores: map<Id, Score>)
    requires ReplacesScores(db, saved) && saved.newScores.Keys !! db.scores.Keys
    requires scores == (db.scores - saved.oldScores) + saved.newScores
    ensures forall e :: e != saved.id ==> ScoresOf(scores, e) == ScoresOf(db.scores, e)
  {
  }

  lemma RecordKeepsRecording(c: Config, f: Fine, tx: Id, t: Txn)
    requires Consistent(f.s) && TxsTrue(c, f) && Records(f, tx) && t.Recording? && Sound(AfterCommit(f, tx))
    requires TxTrue(c, f.s, t) && TxIds(t) !! f.s.used && TxIds(t) !! TxIds(f.open[tx]) && t.id != f.open[tx].id
    ensures TxTrue(c, AfterCommit(f, tx), t)
  {
    var r := f.open[tx];
    assert TxTrue(c, f.s, r);
    PendingIsProper(c, f.s, r);
    ChangeTouchesOneRow(f.s.db, r.change.value);
    if t.change.Some? && Saves(t.event.out) {
      ChangeKeepsEvaluation(f.s.db, f.s.used, r.change.value, t.id, t.event.out.cv);
    }
    RecordingStays(c, f.s, AfterCommit(f, tx), t);
  }

  lemma RecordKeepsInserting(c: Config, f: Fine, tx: Id, t: Txn)
    requires Consistent(f.s) && TxsTrue(c, f) && Records(f, tx) && t.Inserting? && TxTrue(c, f.s, t)
    ensures TxTrue(c, AfterCommit(f, tx), t)
  {
    var r := f.open[tx];
    assert TxTrue(c, f.s, r);
    PendingIsProper(c, f.s, r);
    ChangePlaces(f.s.db, r.change.value);
    SameKeysKnown(f.s.db, Changed(f.s.db, r.change.value), Some(r.id), t.searchId, t.jobId);
    InsertingStays(c, f.s, AfterCommit(f, tx), t);
  }

  // A change keeps every row in its place and touches nothing but its own.
  lemma ChangePlaces(db: DB, change: Change)
    requires change.id in db.results && SamePlace(change.row, db.results[change.id])
    ensures ResultsSteady(db, Changed(db, change), Some(change.id))
    ensures var next := Changed(db, change);
            && next.users == db.users && next.searches == db.searches && next.jobs == db.jobs && next.cvs == db.cvs
            && next.sections == db.sections && next.apiKeys == db.apiKeys && next.suggestions == db.suggestions
  {
    ChangeFrame(db, change);
    ChangeTouchesOneRow(db, change);
  }

  // ----- committing a deletion

  predicate Deletes(f: Fine, u: Id) {
    u in f.deletions && f.deletions[u].stage.DeleteRows? && |f.deletions[u].stage.gone| == |STEPS|
  }

  lemma ViewKeepsEvaluation(db: DB, gone: seq<set<Id>>, r: Id, cv: Id, e: Id)
    requires UniqueEvaluations(db) && |gone| == |STEPS| && IsFor(db, e, r, cv)
    requires e !in gone[1] && ScoresOf(db.scores, e) !! gone[0]
    ensures EvaluationKept(db, View(db, gone), r, cv)
  {
    ViewTakes(db, gone);
    forall o
      ensures IsFor(db, o, r, cv) ==> o == e
      ensures IsFor(View(db, gone), o, r, cv) <==> o == e
    {
    }
  }

  lemma ViewKeepsNoEvaluation(db: DB, gone: seq<set<Id>>, r: Id, cv: Id)
    requires |gone| == |STEPS| && EvaluationOf(db, r, cv).None?
    ensures EvaluationKept(db, View(db, gone), r, cv)
  {
    ViewTakes(db, gone);
    forall o
      ensures !IsFor(db, o, r, cv) && !IsFor(View(db, gone), o, r, cv)
    {
      assert IsFor(View(db, gone), o, r, cv) ==> IsFor(db, o, r, cv);
    }
  }

  lemma DeletionKeepsPending(c: Config, s: Sys, d: Deletion, t: Txn)
    requires Consistent(s) && t.Recording? && TxTrue(c, s, t) && Compatible(d, t)
    requires d.stage.DeleteRows? && |d.stage.gone| == |STEPS|
    ensures PendingKept(s.db, View(s.db, d.stage.gone), t)
  {
    if t.change.Some? && Saves(t.event.out) {
      var w := WriteOf(s, t.event);
      var saved := Saving(s.db, EvaluationRow(w), Breakdown(w.out), w.newId, w.scoreIds);
      assert SavedIn(t) == Some(saved);
      if e :| IsFor(s.db, e, t.id, t.event.out.cv) {
        OnlyOneEvaluation(s.db, e, t.id, t.event.out.cv);
        ViewKeepsEvaluation(s.db, d.stage.gone, t.id, t.event.out.cv, e);
      } else {
        ViewKeepsNoEvaluation(s.db, d.stage.gone, t.id, t.event.out.cv);
      }
    }
  }

  lemma DeletionKeepsRecording(c: Config, s: Sys, d: Deletion, t: Txn)
    requires Consistent(s) && t.Recording? && TxTrue(c, s, t) && TxIds(t) !! s.used && Compatible(d, t)
    requires d.stage.DeleteRows? && |d.stage.gone| == |STEPS| && GoneFrom(d, 2) <= d.resultLocks
    requires Sound(s.(db := View(s.db, d.stage.gone)))
    ensures TxTrue(c, s.(db := View(s.db, d.stage.gone)), t)
  {
    ViewTakes(s.db, d.stage.gone);
    DeletionKeepsPending(c, s, d, t);
    RecordingStays(c, s, s.(db := View(s.db, d.stage.gone)), t);
  }

  lemma DeletionKeepsInserting(c: Config, s: Sys, d: Deletion, t: Txn)
    requires t.Inserting? && TxTrue(c, s, t) && Compatible(d, t)
    requires d.stage.DeleteRows? && |d.stage.gone| == |STEPS| && GoneFrom(d, 3) <= d.searchLocks
    ensures TxTrue(c, s.(db := View(s.db, d.stage.gone)), t)
  {
    ViewTakes(s.db, d.stage.gone);
    InsertingStays(c, s, s.(db := View(s.db, d.stage.gone)), t);
  }
}
