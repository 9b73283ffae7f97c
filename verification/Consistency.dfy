// What holds of the database under any interleaving of lock-level steps, even
// after a deletion has left rows without their parents: ids are never reused,
// and rows that name a parent which still exists belong to the parent's user.
module Consistency {
  import opened Common
  import opened Tables
  import opened Store
  import opened Worker
  import opened Account
  import opened Machine
  import opened Integrity
  import opened Reachable
  import opened Frames

  ghost predicate RefsUsed(db: DB, used: set<Id>) {
    && (forall r :: r in db.results ==> db.results[r].searchId in used)
    && (forall e :: e in db.evaluations ==> db.evaluations[e].resultId in used && db.evaluations[e].cvId in used)
    && (forall k :: k in db.scores ==> db.scores[k].evaluationId in used)
    && SectionCVsUsed(db, used)
    && db.sections.Keys <= used && db.apiKeys.Keys <= used && db.suggestions.Keys <= used
  }

  ghost predicate ResultsAgree(db: DB) {
    forall r :: r in db.results && db.results[r].searchId in db.searches ==>
      db.searches[db.results[r].searchId].userId == db.results[r].userId
  }

  ghost predicate EvaluationsAgree(db: DB) {
    forall e :: e in db.evaluations && db.evaluations[e].resultId in db.results && db.evaluations[e].cvId in db.cvs ==>
      db.cvs[db.evaluations[e].cvId].userId == db.results[db.evaluations[e].resultId].userId
  }

  ghost predicate Agree(db: DB) {
    ResultsAgree(db) && EvaluationsAgree(db) && SectionsAgree(db)
  }

  // What a worker remembers agrees with what still exists.
  ghost predicate TaskAgrees(db: DB, used: set<Id>, t: Task) {
    t.EvalTask? ==>
      && (t.id in db.results ==> db.results[t.id].userId == t.result.userId)
      && (t.cv.Some? && t.cv.value.Some? ==>
            && t.cv.value.value in used
            && (t.cv.value.value in db.cvs ==> db.cvs[t.cv.value.value].userId == t.result.userId))
  }

  ghost predicate TasksAgree(s: Sys) {
    forall w :: w in s.workers ==> TaskAgrees(s.db, s.used, s.workers[w])
  }

  ghost predicate Consistent(s: Sys) {
    && IdsUsed(s) && RefsUsed(s.db, s.used) && ScoresOwned(s.db) && Agree(s.db) && UniqueEvaluations(s.db)
    && RunsTrue(s) && TasksAgree(s)
  }

  lemma InitialIsConsistent(s: Sys)
    requires Initial(s)
    ensures Consistent(s)
  {
  }

  // ----- single statements

  lemma StatementKeepsRefs(s: Sys, next: Sys, e: Event)
    requires RefsUsed(s.db, s.used) && Steady(s, s.db, next.db, e) && s.used <= next.used && StoredIds(e) <= next.used
    ensures RefsUsed(next.db, next.used)
  {
    forall r | r in next.db.results
      ensures next.db.results[r].searchId in next.used
    {
      assert SamePlace(next.db.results[r], s.db.results[r]);
    }
  }

  lemma StatementKeepsAgree(s: Sys, next: DB, e: Event)
    requires RefsUsed(s.db, s.used) && Agree(s.db) && Steady(s, s.db, next, e)
    ensures Agree(next)
  {
    forall r | r in next.results && next.results[r].searchId in next.searches
      ensures next.searches[next.results[r].searchId].userId == next.results[r].userId
    {
      assert SamePlace(next.results[r], s.db.results[r]);
    }
    forall k | k in next.evaluations && next.evaluations[k].resultId in next.results && next.evaluations[k].cvId in next.cvs
      ensures next.cvs[next.evaluations[k].cvId].userId == next.results[next.evaluations[k].resultId].userId
    {
      assert SamePlace(next.results[next.evaluations[k].resultId], s.db.results[next.evaluations[k].resultId]);
    }
  }

  lemma StatementKeepsIds(c: Config, s: Sys, e: Event)
    requires IdsUsed(s) && Can(c, s, e) && !IsTransaction(e)
    ensures IdsUsed(After(c, s, e))
  {
    match e {
      case Working(we) => WorkKeepsIds(c, s, we);
      case Searching(se) => SearchKeepsIds(c, s, se);
      case Serving(ue) => ServingKeepsIds(s, ue);
      case Tick(_) =>
    }
  }

  lemma ServingKeepsIds(s: Sys, e: UserEvent)
    requires IdsUsed(s) && CanUser(s, e) && !e.AccountDeleted?
    ensures IdsUsed(AfterUser(s, e))
  {
  }

  lemma StatementKeepsRuns(c: Config, s: Sys, e: Event)
    requires IdsUsed(s) && RunsTrue(s) && Can(c, s, e) && !IsTransaction(e)
    ensures RunsTrue(After(c, s, e))
  {
    match e {
      case Working(we) => WorkKeepsSearches(c, s, we);
      case Searching(se) => SearchKeepsRuns(c, s, se);
      case Serving(ue) => UserTouches(s, ue);
      case Tick(_) =>
    }
  }

  lemma TaskStaysAgreed(s: Sys, next: DB, used: set<Id>, e: Event, t: Task)
    requires TaskAgrees(s.db, s.used, t) && Steady(s, s.db, next, e) && s.used <= used
    ensures TaskAgrees(next, used, t)
  {
    if t.EvalTask? && t.id in next.results {
      assert SamePlace(next.results[t.id], s.db.results[t.id]);
    }
  }

  lemma WorkersTaskAgrees(c: Config, s: Sys, e: WorkEvent, w: Id)
    requires IdsUsed(s) && TasksAgree(s) && CanWork(c, s, e) && !e.ResultWritten? && w in AfterWork(c, s, e).workers
    requires w !in s.workers || s.workers[w] != AfterWork(c, s, e).workers[w]
    ensures TaskAgrees(AfterWork(c, s, e).db, AfterWork(c, s, e).used, AfterWork(c, s, e).workers[w])
  {
    if w in s.workers {
      assert TaskAgrees(s.db, s.used, s.workers[w]);
    }
  }

  lemma OnlyWorkersHaveTasks(c: Config, s: Sys, e: Event)
    requires Can(c, s, e) && !e.Working?
    ensures After(c, s, e).workers == s.workers
  {
    if e.Searching? && IsService(e.search) {
      ServiceTouches(c, s, e.search);
    }
  }

  // The tasks a step starts or moves on agree from the outset.
  lemma NewTaskAgrees(c: Config, s: Sys, e: Event, w: Id)
    requires IdsUsed(s) && TasksAgree(s) && Can(c, s, e) && !IsTransaction(e) && w in After(c, s, e).workers
    requires w !in s.workers || s.workers[w] != After(c, s, e).workers[w]
    ensures TaskAgrees(After(c, s, e).db, After(c, s, e).used, After(c, s, e).workers[w])
  {
    if e.Working? {
      WorkersTaskAgrees(c, s, e.work, w);
    } else {
      OnlyWorkersHaveTasks(c, s, e);
    }
  }

  lemma StatementKeepsTasks(c: Config, s: Sys, e: Event)
    requires IdsUsed(s) && TasksAgree(s) && Can(c, s, e) && !IsTransaction(e)
    ensures TasksAgree(After(c, s, e))
  {
    var next := After(c, s, e);
    StatementIsSteady(c, s, e);
    EventsLeaveOthersAlone(c, s, e);
    forall w | w in next.workers
      ensures TaskAgrees(next.db, next.used, next.workers[w])
    {
      if w in s.workers && s.workers[w] == next.workers[w] {
        TaskStaysAgreed(s, next.db, next.used, e, s.workers[w]);
      } else {
        NewTaskAgrees(c, s, e, w);
      }
    }
  }

  lemma StatementKeepsConsistent(c: Config, s: Sys, e: Event)
    requires Consistent(s) && Can(c, s, e) && !IsTransaction(e)
    ensures Consistent(After(c, s, e))
  {
    StatementIsSteady(c, s, e);
    EventsLeaveOthersAlone(c, s, e);
    StatementKeepsIds(c, s, e);
    StoredIdsAreUsed(c, s, e);
    StatementKeepsRefs(s, After(c, s, e), e);
    StatementKeepsAgree(s, After(c, s, e).db, e);
    StatementKeepsRuns(c, s, e);
    StatementKeepsTasks(c, s, e);
  }

  // ----- a new result

  lemma NewResultKeepsAgree(db: DB, used: set<Id>, id: Id, row: SearchResult)
    requires RefsUsed(db, used) && Agree(db) && id !in used && id !in db.results
    requires row.searchId in db.searches && db.searches[row.searchId].userId == row.userId && row.searchId in used
    ensures Agree(db.(results := db.results[id := row]))
    ensures RefsUsed(db.(results := db.results[id := row]), used + {id})
  {
  }

  lemma NewResultKeepsConsistent(s: Sys, id: Id, row: SearchResult)
    requires Consistent(s) && id !in s.used
    requires row.searchId in s.db.searches && s.db.searches[row.searchId].userId == row.userId
    ensures Consistent(s.(db := s.db.(results := s.db.results[id := row]), used := s.used + {id}))
  {
    NewResultKeepsAgree(s.db, s.used, id, row);
    NewResultKeepsTasks(s, id, row);
  }

  lemma NewResultKeepsTasks(s: Sys, id: Id, row: SearchResult)
    requires IdsUsed(s) && TasksAgree(s) && id !in s.used
    ensures TasksAgree(s.(db := s.db.(results := s.db.results[id := row]), used := s.used + {id}))
  {
    forall w | w in s.workers
      ensures TaskAgrees(s.db.(results := s.db.results[id := row]), s.used + {id}, s.workers[w])
    {
      assert TaskAgrees(s.db, s.used, s.workers[w]) && s.workers[w].id in s.used;
    }
  }

  // ----- a worker's outcome

  // What a change is by the way it was made, whatever became of the rest.
  ghost predicate Proper(db: DB, used: set<Id>, change: Change) {
    && change.id in db.results && SamePlace(change.row, db.results[change.id]) && CopiesScore(db, change)
    && (change.saved.Some? ==>
          var s := change.saved.value;
          && Fits(db, s) && ReplacesScores(db, s) && s.newScores.Keys !! used && (s.id in db.evaluations || s.id !in used))
  }

  lemma WriteIsProperChange(c: Config, s: Sys, e: WorkEvent)
    requires IdsUsed(s) && e.ResultWritten? && CanWork(c, s, e) && WriteOf(s, e).id in s.db.results
    ensures Proper(s.db, s.used, WriteChange(c, s.db, WriteOf(s, e)))
    ensures WriteChange(c, s.db, WriteOf(s, e)).id == WriteOf(s, e).id
    ensures WriteChange(c, s.db, WriteOf(s, e)).saved.Some? <==> Saves(e.out)
    ensures Saves(e.out) ==> WriteChange(c, s.db, WriteOf(s, e)).saved.value.row.cvId == e.out.cv
  {
    WriteIsProper(c, s.db, WriteOf(s, e));
  }

  // The CV a worker evaluates with was there, and its owner is the result's.
  lemma RecordedCVAgrees(c: Config, s: Sys, e: WorkEvent)
    requires TasksAgree(s) && e.ResultWritten? && CanWork(c, s, e) && e.out.Evaluated?
    ensures e.out.cv in s.used
    ensures var id := s.workers[e.w].id;
            id in s.db.results && e.out.cv in s.db.cvs ==> s.db.cvs[e.out.cv].userId == s.db.results[id].userId
  {
    assert TaskAgrees(s.db, s.used, s.workers[e.w]);
  }

  lemma ChangeKeepsRefs(db: DB, used: set<Id>, change: Change)
    requires RefsUsed(db, used) && Proper(db, used, change) && change.id in used
    requires change.saved.Some? ==> change.saved.value.row.cvId in used
    ensures var more := match change.saved case Some(s) => {s.id} case None => {};
            RefsUsed(Changed(db, change), used + more)
  {
    ChangeFrame(db, change);
    ChangeTouchesOneRow(db, change);
  }

  lemma ChangeKeepsAgree(db: DB, used: set<Id>, change: Change)
    requires Agree(db) && Proper(db, used, change)
    requires change.saved.Some? && change.saved.value.row.cvId in db.cvs ==>
               db.cvs[change.saved.value.row.cvId].userId == db.results[change.id].userId
    ensures Agree(Changed(db, change))
  {
    var next := Changed(db, change);
    ChangeFrame(db, change);
    ChangeTouchesOneRow(db, change);
    assert ResultsAgree(next);
    assert EvaluationsAgree(next);
    assert SectionsAgree(next);
  }

  lemma ChangeKeepsUnique(db: DB, used: set<Id>, change: Change)
    requires UniqueEvaluations(db) && Proper(db, used, change)
    ensures UniqueEvaluations(Changed(db, change))
  {
    if change.saved.Some? {
      SaveKeepsEvaluationsUnique(db, change.saved.value);
      assert Changed(db, change).evaluations == WithSaved(db, change.saved.value).evaluations;
    } else {
      assert Changed(db, change).evaluations == db.evaluations;
    }
  }

  lemma ChangeKeepsScores(db: DB, used: set<Id>, change: Change)
    requires ScoresOwned(db) && Proper(db, used, change)
    ensures ScoresOwned(Changed(db, change))
  {
    ChangeFrame(db, change);
  }

  lemma WriteKeepsConsistent(c: Config, s: Sys, e: WorkEvent)
    requires Consistent(s) && e.ResultWritten? && CanWork(c, s, e)
    ensures Consistent(AfterWork(c, s, e))
  {
    WorkKeepsIds(c, s, e);
    WorkKeepsSearches(c, s, e);
    WriteKeepsRows(c, s, e);
    WriteKeepsTasks(c, s, e);
  }

  lemma WriteKeepsRows(c: Config, s: Sys, e: WorkEvent)
    requires Consistent(s) && e.ResultWritten? && CanWork(c, s, e)
    ensures var next := AfterWork(c, s, e);
            RefsUsed(next.db, next.used) && ScoresOwned(next.db) && Agree(next.db) && UniqueEvaluations(next.db)
  {
    var w := WriteOf(s, e);
    if w.id in s.db.results && !Conflicts(w) {
      var change := WriteChange(c, s.db, w);
      WriteIsProperChange(c, s, e);
      if e.out.Evaluated? {
        RecordedCVAgrees(c, s, e);
      }
      ChangeKeepsRefs(s.db, s.used, change);
      ChangeKeepsAgree(s.db, s.used, change);
      ChangeKeepsUnique(s.db, s.used, change);
      ChangeKeepsScores(s.db, s.used, change);
      MoreUsed(Changed(s.db, change), s.used + (match change.saved case Some(v) => {v.id} case None => {}),
               AfterWork(c, s, e).used);
    } else {
      MoreUsed(s.db, s.used, AfterWork(c, s, e).used);
    }
  }

  lemma MoreUsed(db: DB, used: set<Id>, more: set<Id>)
    requires RefsUsed(db, used) && used <= more
    ensures RefsUsed(db, more)
  {
  }

  lemma WriteKeepsTasks(c: Config, s: Sys, e: WorkEvent)
    requires TasksAgree(s) && e.ResultWritten? && CanWork(c, s, e)
    ensures TasksAgree(AfterWork(c, s, e))
  {
    var next := AfterWork(c, s, e);
    WriteKeepsPlaces(c, s, e);
    forall w | w in next.workers
      ensures TaskAgrees(next.db, next.used, next.workers[w])
    {
      assert TaskAgrees(s.db, s.used, s.workers[w]);
    }
  }

  lemma WriteKeepsPlaces(c: Config, s: Sys, e: WorkEvent)
    requires e.ResultWritten? && CanWork(c, s, e)
    ensures var next := AfterWork(c, s, e);
            && next.db.cvs == s.db.cvs && next.db.results.Keys == s.db.results.Keys && s.used <= next.used
            && forall r :: r in s.db.results ==> next.db.results[r].userId == s.db.results[r].userId
  {
    var w := WriteOf(s, e);
    WriteFrame(c, s.db, w);
    if w.id in s.db.results && !Conflicts(w) {
      ChangeTouchesOneRow(s.db, WriteChange(c, s.db, w));
    }
  }

  // ----- deleting rows

  // Rows are only taken away, none from jobs.
  ghost predicate Shrinks(db: DB, next: DB) {
    && next.users <= db.users && next.jobs == db.jobs
    && (forall k :: k in next.searches ==> k in db.searches && next.searches[k] == db.searches[k])
    && (forall k :: k in next.results ==> k in db.results && next.results[k] == db.results[k])
    && (forall k :: k in next.evaluations ==> k in db.evaluations && next.evaluations[k] == db.evaluations[k])
    && (forall k :: k in next.scores ==> k in db.scores && next.scores[k] == db.scores[k])
    && (forall k :: k in next.cvs ==> k in db.cvs && next.cvs[k] == db.cvs[k])
    && (forall k :: k in next.sections ==> k in db.sections && next.sections[k] == db.sections[k])
    && (forall k :: k in next.apiKeys ==> k in db.apiKeys && next.apiKeys[k] == db.apiKeys[k])
    && (forall k :: k in next.suggestions ==> k in db.suggestions && next.suggestions[k] == db.suggestions[k])
  }

  lemma ShrinkingKeepsAgree(db: DB, next: DB, used: set<Id>)
    requires Shrinks(db, next) && RefsUsed(db, used) && Agree(db) && UniqueEvaluations(db)
    ensures RefsUsed(next, used) && Agree(next) && UniqueEvaluations(next)
  {
  }

  lemma ShrinkingKeepsConsistent(s: Sys, next: DB)
    requires Consistent(s) && Shrinks(s.db, next) && ScoresOwned(next)
    ensures Consistent(s.(db := next))
  {
    ShrinkingKeepsAgree(s.db, next, s.used);
    forall w | w in s.workers
      ensures TaskAgrees(next, s.used, s.workers[w])
    {
      assert TaskAgrees(s.db, s.used, s.workers[w]);
    }
    forall r | r in s.runs
      ensures RunTrue(next, s.runs[r])
    {
      assert RunTrue(s.db, s.runs[r]);
    }
  }
}
