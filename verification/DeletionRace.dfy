// Why a deletion is only safe while its user asks for nothing: a run in which a
// search slips in between two of its statements and leaves a result behind for
// good, and two in which a request is served after the account is gone.
module DeletionRace {
  import opened Common
  import opened Strings
  import opened Tables
  import opened Store
  import opened Schedule
  import opened Account
  import opened Machine
  import opened Locking
  import opened Belongings
  import opened LockingSteps
  import opened DeletionSafety
  import opened DeletedUsers

  // Past its lock phase a deletion whose locks cover its user's searches goes
  // on covering them exactly when a new search is not that user's: creating
  // one takes no lock that the deletion holds.
  lemma CreatingKeepsLocksExactlyWhen(c: Config, f: Fine, id: Id, v: Id, p: CreateParams, u: Id)
    requires Inv(c, f) && Covered(f, u) && CanStep(c, f, One(Searching(SearchCreated(id, v, p))))
    requires u in f.deletions && !f.deletions[u].stage.LockSearches? && id !in f.deletions[u].searchLocks
    ensures var next := Next(c, f, One(Searching(SearchCreated(id, v, p))));
            (OwnedSearches(next.s.db, u) <= next.deletions[u].searchLocks)
            <==> (v != u || Create(f.s.db, id, v, p, f.s.now).Err?)
  {
    var o := Create(f.s.db, id, v, p, f.s.now);
    if o.Ok? {
      CreatedIsDue(f.s.db, id, v, p, f.s.now);
      CreatedSearches(f.s.db, id, v, p, f.s.now, u);
    }
  }

  lemma CreatedSearches(db: DB, id: Id, v: Id, p: CreateParams, now: Time, u: Id)
    requires Create(db, id, v, p, now).Ok? && id !in db.searches
    ensures OwnedSearches(Create(db, id, v, p, now).value, u) == OwnedSearches(db, u) + (if v == u then {id} else {})
  {
  }

  // Some run leads from one state to the other.
  ghost predicate Leads(c: Config, f: Fine, g: Fine) {
    exists steps :: IsFineRun(c, f, steps) && FineEnd(c, f, steps) == g
  }

  lemma LeadsNowhere(c: Config, f: Fine)
    ensures Leads(c, f, f)
  {
    assert IsFineRun(c, f, []) && FineEnd(c, f, []) == f;
  }

  lemma LeadsOn(c: Config, f: Fine, step: Step, g: Fine)
    requires CanStep(c, f, step) && Leads(c, Next(c, f, step), g)
    ensures Leads(c, f, g)
  {
    var steps :| IsFineRun(c, Next(c, f, step), steps) && FineEnd(c, Next(c, f, step), steps) == g;
    assert ([step] + steps)[1..] == steps;
    assert IsFineRun(c, f, [step] + steps) && FineEnd(c, f, [step] + steps) == g;
  }

  const FRESH := Fine(Sys(EMPTY_DB, 0, map[], map[], {}), {}, map[], map[])

  function Deleting(s: Sys, stage: Stage): Fine {
    Fine(s, s.used, map[], map[1 := Deletion({}, {}, stage)])
  }

  const NEW_USER := Sys(EMPTY_DB.(users := {1}), 0, map[], map[], {1})

  function Idle(s: Sys): Fine {
    Fine(s, s.used, map[], map[])
  }

  lemma UserSignsUp(c: Config)
    ensures Leads(c, FRESH, Idle(NEW_USER))
  {
    LeadsNowhere(c, FRESH);
    assert Next(c, FRESH, One(Serving(UserAdded(1)))) == Idle(NEW_USER);
    LeadsThen(c, FRESH, FRESH, One(Serving(UserAdded(1))));
  }

  lemma DeletionBegins(c: Config, s: Sys)
    requires 1 in s.db.users && OwnedSearches(s.db, 1) == {} && Leads(c, FRESH, Idle(s))
    ensures Leads(c, FRESH, Deleting(s, LockSearches({})))
  {
    assert Next(c, Idle(s), DeletionBegun(1)) == Deleting(s, LockSearches({}));
    LeadsThen(c, FRESH, Idle(s), DeletionBegun(1));
  }

  lemma NoSearchIsLocked(c: Config, s: Sys)
    requires OwnedResults(s.db, 1) == {} && Leads(c, FRESH, Deleting(s, LockSearches({})))
    ensures Leads(c, FRESH, Deleting(s, LockResults({})))
  {
    assert Next(c, Deleting(s, LockSearches({})), SearchesLocked(1)) == Deleting(s, LockResults({}));
    LeadsThen(c, FRESH, Deleting(s, LockSearches({})), SearchesLocked(1));
  }

  lemma NoResultIsLocked(c: Config, s: Sys)
    requires Leads(c, FRESH, Deleting(s, LockResults({})))
    ensures Leads(c, FRESH, Deleting(s, DeleteRows([])))
  {
    assert Next(c, Deleting(s, LockResults({})), ResultsLocked(1)) == Deleting(s, DeleteRows([]));
    LeadsThen(c, FRESH, Deleting(s, LockResults({})), ResultsLocked(1));
  }

  // A user without searches deletes the account.
  lemma DeletionStarts(c: Config, s: Sys)
    requires 1 in s.db.users && OwnedSearches(s.db, 1) == {} && OwnedResults(s.db, 1) == {} && Leads(c, FRESH, Idle(s))
    ensures Leads(c, FRESH, Deleting(s, DeleteRows([])))
  {
    DeletionBegins(c, s);
    NoSearchIsLocked(c, s);
    NoResultIsLocked(c, s);
  }

  // What n statements that found no rows deleted.
  function Nothing(n: nat): seq<set<Id>> {
    seq(n, _ => {})
  }

  lemma {:induction false} EmptyView(n: nat)
    requires n <= |STEPS|
    ensures View(NEW_USER.db, Nothing(n)) == NEW_USER.db
  {
    if n > 0 {
      assert Nothing(n)[..n - 1] == Nothing(n - 1);
      EmptyView(n - 1);
    }
  }

  lemma NothingToDelete(c: Config, n: nat)
    requires n <= 2
    ensures var f := Deleting(NEW_USER, DeleteRows(Nothing(n)));
            CanStep(c, f, RowsDeleted(1)) && Next(c, f, RowsDeleted(1)) == Deleting(NEW_USER, DeleteRows(Nothing(n + 1)))
  {
    EmptyView(n);
    assert OwnedResults(NEW_USER.db, 1) == {};
    assert OwnedEvaluations(NEW_USER.db, 1) == {};
    assert OwnedScores(NEW_USER.db, 1) == {};
    var f := Deleting(NEW_USER, DeleteRows(Nothing(n)));
    assert NextDoomed(f, 1) == {};
    assert Nothing(n) + [{}] == Nothing(n + 1);
    assert WithDeleted(f.deletions[1], {}) == Deletion({}, {}, DeleteRows(Nothing(n + 1)));
  }

  // The deletion finds no scores, evaluations or results.
  lemma {:induction false} ResultsAreDeleted(c: Config, n: nat)
    requires n <= 3
    ensures Leads(c, FRESH, Deleting(NEW_USER, DeleteRows(Nothing(n))))
  {
    if n == 0 {
      UserSignsUp(c);
      assert OwnedSearches(NEW_USER.db, 1) == {} && OwnedResults(NEW_USER.db, 1) == {};
      DeletionStarts(c, NEW_USER);
      assert Nothing(0) == [];
    } else {
      ResultsAreDeleted(c, n - 1);
      NothingToDelete(c, n - 1);
      LeadsThen(c, FRESH, Deleting(NEW_USER, DeleteRows(Nothing(n - 1))), RowsDeleted(1));
    }
  }

  lemma LeadsThen(c: Config, f: Fine, g: Fine, step: Step)
    requires Leads(c, f, g) && CanStep(c, g, step)
    ensures Leads(c, f, Next(c, g, step))
  {
    var steps :| IsFineRun(c, f, steps) && FineEnd(c, f, steps) == g;
    LeadsBy(c, f, steps, step);
  }

  lemma {:induction false} LeadsBy(c: Config, f: Fine, steps: seq<Step>, step: Step)
    requires IsFineRun(c, f, steps) && CanStep(c, FineEnd(c, f, steps), step)
    ensures Leads(c, f, Next(c, FineEnd(c, f, steps), step))
    decreases |steps|
  {
    if steps == [] {
      LeadsNowhere(c, Next(c, f, step));
      LeadsOn(c, f, step, Next(c, f, step));
    } else {
      LeadsBy(c, Next(c, f, steps[0]), steps[1..], step);
      LeadsOn(c, f, steps[0], Next(c, FineEnd(c, f, steps), step));
    }
  }

  // ... then the user's other device adds a search, a run claims it and
  // stores a posting with its result.
  const ADDED := Search(1, "q", "q", "", "daily", true, 0, None, Some(0), false)
  const POSTED := NewJob("portal", "p", "text", 0)

  function WithSearch(): Sys {
    NEW_USER.(db := NEW_USER.db.(searches := map[2 := ADDED]), used := {1, 2})
  }

  function WithRun(c: Config): Sys {
    WithSearch().(db := WithSearch().db.(searches := map[2 := ADDED.(nextRunAt := Some(c.runTimeout))]),
                  runs := map[3 := Run(2, 1, "daily", 0)], used := {1, 2, 3})
  }

  function WithJob(c: Config): Sys {
    WithRun(c).(db := WithRun(c).db.(jobs := map[4 := POSTED]), used := {1, 2, 3, 4})
  }

  function WithResult(c: Config): Sys {
    WithJob(c).(db := WithJob(c).db.(results := map[5 := NewResult(2, 1, 4, 0)]), used := {1, 2, 3, 4, 5})
  }

  const PAST := DeleteRows(Nothing(3))

  lemma SearchIsAdded(c: Config)
    ensures Leads(c, FRESH, Deleting(WithSearch(), PAST))
  {
    ResultsAreDeleted(c, 3);
    var e := Searching(SearchCreated(2, 1, CreateParams("", "q", "", "", None)));
    assert TrimSpace("") == "" && TrimSpace("q") == "q";
    assert Next(c, Deleting(NEW_USER, PAST), One(e)) == Deleting(WithSearch(), PAST);
    LeadsThen(c, FRESH, Deleting(NEW_USER, PAST), One(e));
  }

  lemma ClaimMakesRun(c: Config)
    ensures var e := Searching(RunClaimed(3, 2, "daily"));
            Can(c, WithSearch(), e) && After(c, WithSearch(), e) == WithRun(c)
  {
  }

  lemma RunIsClaimed(c: Config)
    ensures Leads(c, FRESH, Deleting(WithRun(c), PAST))
  {
    SearchIsAdded(c);
    ClaimMakesRun(c);
    var e := Searching(RunClaimed(3, 2, "daily"));
    assert Next(c, Deleting(WithSearch(), PAST), One(e)) == Deleting(WithRun(c), PAST);
    LeadsThen(c, FRESH, Deleting(WithSearch(), PAST), One(e));
  }

  lemma PostingIsStored(c: Config)
    ensures Leads(c, FRESH, Deleting(WithJob(c), PAST))
  {
    RunIsClaimed(c);
    var e := Searching(PostingStored(4, "portal", "p", "text"));
    assert TrimSpace("p") == "p";
    assert Next(c, Deleting(WithRun(c), PAST), One(e)) == Deleting(WithJob(c), PAST);
    LeadsThen(c, FRESH, Deleting(WithRun(c), PAST), One(e));
  }

  function Storing(c: Config, row: Option<Insert>, taken: set<Id>): Fine {
    Deleting(WithJob(c), PAST).(taken := taken, open := map[0 := Inserting(3, 2, 4, row)])
  }

  lemma InsertIsBegun(c: Config)
    ensures Leads(c, FRESH, Storing(c, None, {1, 2, 3, 4}))
  {
    PostingIsStored(c);
    var f := Deleting(WithJob(c), PAST);
    assert Next(c, f, InsertBegun(0, 3, 4)) == Storing(c, None, {1, 2, 3, 4});
    LeadsThen(c, FRESH, f, InsertBegun(0, 3, 4));
  }

  lemma InsertIsPending(c: Config)
    ensures Leads(c, FRESH, Storing(c, Some(NewRow(5, 0)), {1, 2, 3, 4, 5}))
  {
    InsertIsBegun(c);
    var begun := Storing(c, None, {1, 2, 3, 4});
    assert Next(c, begun, Inserted(0, 5)) == Storing(c, Some(NewRow(5, 0)), {1, 2, 3, 4, 5});
    LeadsThen(c, FRESH, begun, Inserted(0, 5));
  }

  lemma ResultIsStored(c: Config)
    ensures Leads(c, FRESH, Deleting(WithResult(c), PAST))
  {
    InsertIsPending(c);
    var pending := Storing(c, Some(NewRow(5, 0)), {1, 2, 3, 4, 5});
    assert Next(c, pending, Committed(0)) == Deleting(WithResult(c), PAST);
    LeadsThen(c, FRESH, pending, Committed(0));
  }

  // ... and the deletion, which waits for nobody, goes on to its end.
  ghost predicate Finishing(f: Fine, g: Fine, u: Id)
    requires u in f.deletions && f.deletions[u].stage.DeleteRows?
  {
    && g.s == f.s && g.taken == f.taken && g.open == map[] && g.deletions.Keys == {u} && g.deletions[u].stage.DeleteRows?
    && var before, after := f.deletions[u].stage.gone, g.deletions[u].stage.gone;
       && |before| <= |after| <= |STEPS|
       && (forall n :: 0 <= n < |before| ==> after[n] == before[n])
       && forall n :: |before| <= n < |after| ==> after[n] == Doomed(f.s.db, STEPS[n], u)
  }

  lemma NextIsDoomed(f: Fine, g: Fine, u: Id)
    requires u in f.deletions && f.deletions[u].stage.DeleteRows? && Finishing(f, g, u)
    requires |g.deletions[u].stage.gone| < |STEPS|
    ensures NextDoomed(g, u) == Doomed(f.s.db, STEPS[|g.deletions[u].stage.gone|], u)
    ensures FreeToDelete(g, STEPS[|g.deletions[u].stage.gone|], NextDoomed(g, u))
  {
    ViewDooms(g.s.db, g.deletions[u].stage.gone, u);
  }

  // The deletion after its next statement.
  function Deleted(g: Fine, u: Id, ids: set<Id>): Fine
    requires u in g.deletions && g.deletions[u].stage.DeleteRows? && |g.deletions[u].stage.gone| < |STEPS|
  {
    g.(deletions := g.deletions[u := WithDeleted(g.deletions[u], ids)])
  }

  lemma DeletedFinishes(f: Fine, g: Fine, u: Id, ids: set<Id>)
    requires u in f.deletions && f.deletions[u].stage.DeleteRows? && Finishing(f, g, u)
    requires |g.deletions[u].stage.gone| < |STEPS| && ids == Doomed(f.s.db, STEPS[|g.deletions[u].stage.gone|], u)
    ensures Finishing(f, Deleted(g, u, ids), u)
    ensures |Deleted(g, u, ids).deletions[u].stage.gone| == |g.deletions[u].stage.gone| + 1
  {
  }

  lemma StatementRuns(c: Config, g: Fine, u: Id)
    requires u in g.deletions && g.deletions[u].stage.DeleteRows? && |g.deletions[u].stage.gone| < |STEPS|
    requires FreeToDelete(g, STEPS[|g.deletions[u].stage.gone|], NextDoomed(g, u))
    ensures CanStep(c, g, RowsDeleted(u)) && Next(c, g, RowsDeleted(u)) == Deleted(g, u, NextDoomed(g, u))
  {
  }

  lemma NextStatement(c: Config, f: Fine, g: Fine, u: Id)
    requires u in f.deletions && f.deletions[u].stage.DeleteRows? && Finishing(f, g, u)
    requires |g.deletions[u].stage.gone| < |STEPS|
    ensures CanStep(c, g, RowsDeleted(u)) && Finishing(f, Next(c, g, RowsDeleted(u)), u)
    ensures |Next(c, g, RowsDeleted(u)).deletions[u].stage.gone| == |g.deletions[u].stage.gone| + 1
  {
    NextIsDoomed(f, g, u);
    StatementRuns(c, g, u);
    DeletedFinishes(f, g, u, NextDoomed(g, u));
  }

  lemma {:induction false} DeletionFinishes(c: Config, start: Fine, f: Fine, g: Fine, u: Id) returns (end: Fine)
    requires u in f.deletions && f.deletions[u].stage.DeleteRows? && Finishing(f, g, u) && Leads(c, start, g)
    ensures Leads(c, start, end) && Finishing(f, end, u) && |end.deletions[u].stage.gone| == |STEPS|
    decreases |STEPS| - |g.deletions[u].stage.gone|
  {
    end := g;
    if |g.deletions[u].stage.gone| < |STEPS| {
      NextStatement(c, f, g, u);
      LeadsThen(c, start, g, RowsDeleted(u));
      end := DeletionFinishes(c, start, f, Next(c, g, RowsDeleted(u)), u);
    }
  }

  // A result of a user who is gone, for a search that is gone.
  ghost predicate LeftBehind(db: DB, u: Id, r: Id) {
    u !in db.users && r in db.results && db.results[r].userId == u && db.results[r].searchId !in db.searches
  }

  lemma CommitLeavesBehind(c: Config, f: Fine, g: Fine, u: Id, r: Id)
    requires u in f.deletions && f.deletions[u].stage.DeleteRows? && Finishing(f, g, u) && Deletes(g, u)
    requires |f.deletions[u].stage.gone| == 3 && r !in f.deletions[u].stage.gone[2]
    requires r in f.s.db.results && f.s.db.results[r].userId == u && f.s.db.results[r].searchId in OwnedSearches(f.s.db, u)
    ensures LeftBehind(Next(c, g, DeletionCommitted(u)).s.db, u, r)
  {
    ViewTakes(g.s.db, g.deletions[u].stage.gone);
    assert g.deletions[u].stage.gone[8] == Doomed(f.s.db, Users, u);
    assert g.deletions[u].stage.gone[3] == Doomed(f.s.db, JobSearches, u);
  }

  // Without the condition the promise fails: a run from the empty system whose
  // deletion commits and leaves a result of its user.
  lemma LateSearchLeavesResult(c: Config)
    ensures exists f :: Leads(c, FRESH, f) && LeftBehind(f.s.db, 1, 5)
  {
    ResultIsStored(c);
    var f := Deleting(WithResult(c), PAST);
    var g := DeletionFinishes(c, FRESH, f, f, 1);
    CommitLeavesBehind(c, f, g, 1, 5);
    LeadsThen(c, FRESH, g, DeletionCommitted(1));
  }

  lemma CommitEmpties(c: Config, f: Fine, g: Fine)
    requires f == Deleting(NEW_USER, PAST) && Finishing(f, g, 1) && Deletes(g, 1)
    ensures Next(c, g, DeletionCommitted(1)) == Fine(GONE, {1}, map[], map[])
  {
    ViewTakes(g.s.db, g.deletions[1].stage.gone);
    assert g.deletions[1].stage.gone[8] == Doomed(f.s.db, Users, 1);
    assert View(g.s.db, g.deletions[1].stage.gone) == EMPTY_DB;
  }

  const GONE := Sys(EMPTY_DB, 0, map[], map[], {1})

  lemma NothingInEmpty(u: Id)
    ensures NothingOf(EMPTY_DB, u)
  {
    assert OwnedResults(EMPTY_DB, u) == {} && OwnedEvaluations(EMPTY_DB, u) == {};
  }

  // The request adds a due search for a user of whom nothing was left.
  ghost predicate Revives(c: Config, f: Fine, u: Id, id: Id, p: CreateParams) {
    && u !in f.s.db.users && NothingOf(f.s.db, u) && CanStep(c, f, One(Searching(SearchCreated(id, u, p))))
    && var next := Next(c, f, One(Searching(SearchCreated(id, u, p)))).s;
       id in OwnedSearches(next.db, u) && Due(next.db, id, next.now)
  }

  lemma GoneIsRevived(c: Config)
    ensures Revives(c, Fine(GONE, {1}, map[], map[]), 1, 2, CreateParams("", "q", "", "", None))
  {
    NothingInEmpty(1);
    assert TrimSpace("") == "" && TrimSpace("q") == "q";
    LateRequestIsServed(c, Fine(GONE, {1}, map[], map[]), 2, 1, CreateParams("", "q", "", "", None));
  }

  // Nor does it hold when a request let in before the commit is served after
  // it: the deletion leaves nothing, and then a search of its user is due.
  lemma LateRequestRevivesUser(c: Config)
    ensures exists f :: Leads(c, FRESH, f) && Revives(c, f, 1, 2, CreateParams("", "q", "", "", None))
  {
    ResultsAreDeleted(c, 3);
    var f := Deleting(NEW_USER, PAST);
    var g := DeletionFinishes(c, FRESH, f, f, 1);
    CommitEmpties(c, f, g);
    LeadsThen(c, FRESH, g, DeletionCommitted(1));
    GoneIsRevived(c);
  }

  // ----- ... and when the account goes while a CV is being processed

  const UPLOADED := Sys(EMPTY_DB.(users := {1}, cvs := map[2 := CV(1, 0, false)]), 0, map[], map[], {1, 2})
  const ALL_GONE := Sys(EMPTY_DB, 0, map[], map[], {1, 2})

  lemma CVIsUploaded(c: Config)
    ensures Leads(c, FRESH, Idle(UPLOADED))
  {
    UserSignsUp(c);
    assert Next(c, Idle(NEW_USER), One(Serving(CVAdded(2, 1)))) == Idle(UPLOADED);
    LeadsThen(c, FRESH, Idle(NEW_USER), One(Serving(CVAdded(2, 1))));
  }

  lemma CommitEmptiesUpload(c: Config, f: Fine, g: Fine)
    requires f == Deleting(UPLOADED, DeleteRows([])) && Finishing(f, g, 1) && Deletes(g, 1)
    ensures Next(c, g, DeletionCommitted(1)) == Idle(ALL_GONE)
  {
    ViewTakes(g.s.db, g.deletions[1].stage.gone);
    assert g.deletions[1].stage.gone[8] == Doomed(f.s.db, Users, 1);
    assert g.deletions[1].stage.gone[5] == Doomed(f.s.db, CVs, 1);
    assert View(g.s.db, g.deletions[1].stage.gone) == EMPTY_DB;
  }

  // The request that uploaded a CV stores its sections for a user, and for a
  // CV, of whom and of which nothing was left.
  ghost predicate StoresOrphans(c: Config, f: Fine, u: Id, ids: set<Id>, cv: Id) {
    && u !in f.s.db.users && NothingOf(f.s.db, u) && cv !in f.s.db.cvs
    && CanStep(c, f, One(Serving(SectionsStored(ids, u, cv))))
    && ids <= OwnedSections(Next(c, f, One(Serving(SectionsStored(ids, u, cv)))).s.db, u)
  }

  lemma SectionsAreOrphans(c: Config)
    ensures StoresOrphans(c, Idle(ALL_GONE), 1, {3}, 2)
  {
    NothingInEmpty(1);
    LateRowsAreStored(c, Idle(ALL_GONE), SectionsStored({3}, 1, 2));
  }

  // Nor does it hold, with no new request at all, when the account is deleted
  // while a CV is being processed: its sections are stored afterwards.
  lemma LateSectionsStayForGood(c: Config)
    ensures exists f :: Leads(c, FRESH, f) && StoresOrphans(c, f, 1, {3}, 2)
  {
    CVIsUploaded(c);
    assert OwnedSearches(UPLOADED.db, 1) == {} && OwnedResults(UPLOADED.db, 1) == {};
    DeletionStarts(c, UPLOADED);
    var f := Deleting(UPLOADED, DeleteRows([]));
    var g := DeletionFinishes(c, FRESH, f, f, 1);
    CommitEmptiesUpload(c, f, g);
    LeadsThen(c, FRESH, g, DeletionCommitted(1));
    SectionsAreOrphans(c);
  }
}
