// Deleting an account and all it owns (internal/services/account/account.go).
module Account {
  import opened Common
  import opened Tables

  // ----- the rows a user owns, as the subqueries select them

  function OwnedCVs(db: DB, u: Id): set<Id> {
    set c | c in db.cvs && db.cvs[c].userId == u
  }

  function OwnedSearches(db: DB, u: Id): set<Id> {
    set s | s in db.searches && db.searches[s].userId == u
  }

  function OwnedResults(db: DB, u: Id): set<Id> {
    set r | r in db.results && (db.results[r].userId == u || db.results[r].searchId in OwnedSearches(db, u))
  }

  function OwnedEvaluations(db: DB, u: Id): set<Id> {
    set e | e in db.evaluations
            && (db.evaluations[e].resultId in OwnedResults(db, u) || db.evaluations[e].cvId in OwnedCVs(db, u))
  }

  function OwnedScores(db: DB, u: Id): set<Id> {
    set s | s in db.scores && db.scores[s].evaluationId in OwnedEvaluations(db, u)
  }

  function OwnedSections(db: DB, u: Id): set<Id> {
    set s | s in db.sections && (db.sections[s].userId == u || db.sections[s].cvId in OwnedCVs(db, u))
  }

  function OwnedBy(owners: map<Id, Id>, u: Id): set<Id> {
    set k | k in owners && owners[k] == u
  }

  // ----- the statements of Delete, in their order

  datatype Table =
    | EvaluationScores | Evaluations | SearchResults | JobSearches | SectionEmbeddings | CVs | APIKeys
    | PortalSuggestions | Users

  const STEPS := [EvaluationScores, Evaluations, SearchResults, JobSearches, SectionEmbeddings, CVs, APIKeys,
                  PortalSuggestions, Users]

  function TableIds(db: DB, t: Table): set<Id> {
    match t
    case EvaluationScores => db.scores.Keys
    case Evaluations => db.evaluations.Keys
    case SearchResults => db.results.Keys
    case JobSearches => db.searches.Keys
    case SectionEmbeddings => db.sections.Keys
    case CVs => db.cvs.Keys
    case APIKeys => db.apiKeys.Keys
    case PortalSuggestions => db.suggestions.Keys
    case Users => db.users
  }

  function Doomed(db: DB, t: Table, u: Id): set<Id> {
    match t
    case EvaluationScores => OwnedScores(db, u)
    case Evaluations => OwnedEvaluations(db, u)
    case SearchResults => OwnedResults(db, u)
    case JobSearches => OwnedSearches(db, u)
    case SectionEmbeddings => OwnedSections(db, u)
    case CVs => OwnedCVs(db, u)
    case APIKeys => OwnedBy(db.apiKeys, u)
    case PortalSuggestions => OwnedBy(db.suggestions, u)
    case Users => db.users * {u}
  }

  // The foreign key of the scores: they go with their evaluations.
  function Cascaded(db: DB, evaluations: set<Id>): set<Id> {
    set s | s in db.scores && db.scores[s].evaluationId in evaluations
  }

  function Without(db: DB, t: Table, ids: set<Id>): DB {
    match t
    case EvaluationScores => db.(scores := db.scores - ids)
    case Evaluations => db.(evaluations := db.evaluations - ids, scores := db.scores - Cascaded(db, ids))
    case SearchResults => db.(results := db.results - ids)
    case JobSearches => db.(searches := db.searches - ids)
    case SectionEmbeddings => db.(sections := db.sections - ids)
    case CVs => db.(cvs := db.cvs - ids)
    case APIKeys => db.(apiKeys := db.apiKeys - ids)
    case PortalSuggestions => db.(suggestions := db.suggestions - ids)
    case Users => db.(users := db.users - ids)
  }

  // The database after the first n statements.
  function AfterSteps(db: DB, u: Id, n: nat): DB
    requires n <= |STEPS|
  {
    if n == 0 then db
    else
      var before := AfterSteps(db, u, n - 1);
      Without(before, STEPS[n - 1], Doomed(before, STEPS[n - 1], u))
  }

  datatype Deleted = Deleted(table: Table, rows: nat)

  class Service {
    const d: Database

    constructor (d: Database)
      ensures this.d == d
    {
      this.d := d;
    }

    method DeleteFrom(t: Table, u: Id) returns (rows: nat)
      modifies d
      ensures rows == |Doomed(old(d.Rows()), t, u)|
      ensures d.Rows() == Without(old(d.Rows()), t, Doomed(old(d.Rows()), t, u))
    {
      var doomed := Doomed(d.Rows(), t, u);
      match t {
        case EvaluationScores => d.scores := d.scores - doomed;
        case Evaluations =>
          d.scores := d.scores - Cascaded(d.Rows(), doomed);
          d.evaluations := d.evaluations - doomed;
        case SearchResults => d.results := d.results - doomed;
        case JobSearches => d.searches := d.searches - doomed;
        case SectionEmbeddings => d.sections := d.sections - doomed;
        case CVs => d.cvs := d.cvs - doomed;
        case APIKeys => d.apiKeys := d.apiKeys - doomed;
        case PortalSuggestions => d.suggestions := d.suggestions - doomed;
        case Users => d.users := d.users - doomed;
      }
      return |doomed|;
    }

    // Deletes the user and every row they own; None when there is no such user.
    method Delete(u: Id) returns (report: Option<seq<Deleted>>)
      modifies d
      ensures u !in old(d.users) ==> report == None && d.Rows() == old(d.Rows())
      ensures u in old(d.users) ==>
                && d.Rows() == AfterSteps(old(d.Rows()), u, |STEPS|)
                && report.Some? && |report.value| == |STEPS|
                && forall i :: 0 <= i < |STEPS| ==>
                     report.value[i] == Deleted(STEPS[i], |Doomed(AfterSteps(old(d.Rows()), u, i), STEPS[i], u)|)
    {
      if u !in d.users {
        return None;
      }
      var rows: seq<Deleted> := [];
      for i := 0 to |STEPS|
        invariant d.Rows() == AfterSteps(old(d.Rows()), u, i)
        invariant |rows| == i
        invariant forall k :: 0 <= k < i ==>
                    rows[k] == Deleted(STEPS[k], |Doomed(AfterSteps(old(d.Rows()), u, k), STEPS[k], u)|)
      {
        var n := DeleteFrom(STEPS[i], u);
        rows := rows + [Deleted(STEPS[i], n)];
      }
      return Some(rows);
    }
  }

  // ----- what it removes

  // Every row belongs to the user its parent belongs to.
  ghost predicate ResultsOwned(db: DB) {
    forall r :: r in db.results ==>
      db.results[r].searchId in db.searches && db.searches[db.results[r].searchId].userId == db.results[r].userId
  }

  ghost predicate EvaluationsOwned(db: DB) {
    forall e :: e in db.evaluations ==>
      && db.evaluations[e].resultId in db.results
      && db.evaluations[e].cvId in db.cvs
      && db.cvs[db.evaluations[e].cvId].userId == db.results[db.evaluations[e].resultId].userId
  }

  ghost predicate ScoresOwned(db: DB) {
    forall s :: s in db.scores ==> db.scores[s].evaluationId in db.evaluations
  }

  // A section is stored some time after its CV, which may be gone by then.
  ghost predicate SectionsAgree(db: DB) {
    forall s :: s in db.sections && db.sections[s].cvId in db.cvs ==>
      db.cvs[db.sections[s].cvId].userId == db.sections[s].userId
  }

  ghost predicate Owned(db: DB) {
    ResultsOwned(db) && EvaluationsOwned(db) && ScoresOwned(db) && SectionsAgree(db)
  }

  // The one user each row belongs to, going up to its parent.
  function ResultUser(db: DB, r: Id): Option<Id> {
    if r in db.results then Some(db.results[r].userId) else None
  }

  function EvaluationUser(db: DB, e: Id): Option<Id> {
    if e in db.evaluations then ResultUser(db, db.evaluations[e].resultId) else None
  }

  function ScoreUser(db: DB, s: Id): Option<Id> {
    if s in db.scores then EvaluationUser(db, db.scores[s].evaluationId) else None
  }

  // The database without a user: every row that is theirs gone, all else as it was.
  function Erased(db: DB, u: Id): DB {
    DB(db.users - {u},
       map s | s in db.searches && db.searches[s].userId != u :: db.searches[s],
       db.jobs,
       map r | r in db.results && ResultUser(db, r) != Some(u) :: db.results[r],
       map e | e in db.evaluations && EvaluationUser(db, e) != Some(u) :: db.evaluations[e],
       map s | s in db.scores && ScoreUser(db, s) != Some(u) :: db.scores[s],
       map c | c in db.cvs && db.cvs[c].userId != u :: db.cvs[c],
       map s | s in db.sections && db.sections[s].userId != u :: db.sections[s],
       map k | k in db.apiKeys && db.apiKeys[k] != u :: db.apiKeys[k],
       map k | k in db.suggestions && db.suggestions[k] != u :: db.suggestions[k])
  }

  // The database with the rows doomed at the start gone from the first n tables.
  function Removed(db: DB, u: Id, n: nat): DB {
    DB(if n > 8 then db.users - Doomed(db, Users, u) else db.users,
       if n > 3 then db.searches - Doomed(db, JobSearches, u) else db.searches,
       db.jobs,
       if n > 2 then db.results - Doomed(db, SearchResults, u) else db.results,
       if n > 1 then db.evaluations - Doomed(db, Evaluations, u) else db.evaluations,
       if n > 0 then db.scores - Doomed(db, EvaluationScores, u) else db.scores,
       if n > 5 then db.cvs - Doomed(db, CVs, u) else db.cvs,
       if n > 4 then db.sections - Doomed(db, SectionEmbeddings, u) else db.sections,
       if n > 6 then db.apiKeys - Doomed(db, APIKeys, u) else db.apiKeys,
       if n > 7 then db.suggestions - Doomed(db, PortalSuggestions, u) else db.suggestions)
  }

  // Children go before their parents, so a statement still finds all the rows
  // it would have found at the start.
  lemma DoomedFromTheStart(db: DB, u: Id, n: nat)
    requires n < |STEPS|
    ensures Doomed(Removed(db, u, n), STEPS[n], u) == Doomed(db, STEPS[n], u)
  {
    var now := Removed(db, u, n);
    if n <= 1 {
      assert OwnedResults(now, u) == OwnedResults(db, u);
    }
  }

  lemma NextRemoved(db: DB, u: Id, n: nat)
    requires n < |STEPS|
    ensures Without(Removed(db, u, n), STEPS[n], Doomed(db, STEPS[n], u)) == Removed(db, u, n + 1)
  {
    if n == 1 {
      NothingCascades(db, u);
    }
  }

  // The scores of an evaluation are gone before it is.
  lemma NothingCascades(db: DB, u: Id)
    ensures Cascaded(Removed(db, u, 1), OwnedEvaluations(db, u)) == {}
    ensures Without(Removed(db, u, 1), Evaluations, OwnedEvaluations(db, u)) == Removed(db, u, 2)
  {
    var first := Removed(db, u, 1);
    assert Cascaded(first, OwnedEvaluations(db, u)) == {};
    assert first.scores - {} == first.scores;
  }

  lemma {:induction false} StepsRemove(db: DB, u: Id, n: nat)
    requires n <= |STEPS|
    ensures AfterSteps(db, u, n) == Removed(db, u, n)
  {
    if n > 0 {
      StepsRemove(db, u, n - 1);
      DoomedFromTheStart(db, u, n - 1);
      NextRemoved(db, u, n - 1);
    }
  }

  lemma DoomedAreTheUsers(db: DB, u: Id)
    requires Owned(db)
    ensures OwnedResults(db, u) == set r | r in db.results && ResultUser(db, r) == Some(u)
    ensures OwnedEvaluations(db, u) == set e | e in db.evaluations && EvaluationUser(db, e) == Some(u)
    ensures OwnedScores(db, u) == set s | s in db.scores && ScoreUser(db, s) == Some(u)
    ensures OwnedSections(db, u) == set s | s in db.sections && db.sections[s].userId == u
  {
  }

  // Delete removes exactly the user's rows: what is left is the database
  // without that user, every other row and every job as it was.
  lemma DeleteErases(db: DB, u: Id)
    requires Owned(db)
    ensures AfterSteps(db, u, |STEPS|) == Erased(db, u)
  {
    StepsRemove(db, u, |STEPS|);
    ErasedResults(db, u);
    ErasedEvaluations(db, u);
    assert db.users - Doomed(db, Users, u) == db.users - {u};
  }

  lemma ErasedResults(db: DB, u: Id)
    requires Owned(db)
    ensures db.results - OwnedResults(db, u) == Erased(db, u).results
    ensures db.sections - OwnedSections(db, u) == Erased(db, u).sections
  {
    DoomedAreTheUsers(db, u);
  }

  lemma ErasedEvaluations(db: DB, u: Id)
    requires Owned(db)
    ensures db.evaluations - OwnedEvaluations(db, u) == Erased(db, u).evaluations
    ensures db.scores - OwnedScores(db, u) == Erased(db, u).scores
  {
    DoomedAreTheUsers(db, u);
  }

  lemma RowsLost(all: set<Id>, gone: set<Id>)
    requires gone <= all
    ensures |gone| == |all| - |all - gone|
  {
    assert all == gone + (all - gone);
  }

  lemma DoomedAreRows(db: DB, t: Table, u: Id)
    ensures Doomed(db, t, u) <= TableIds(db, t)
    ensures TableIds(Without(db, t, Doomed(db, t, u)), t) == TableIds(db, t) - Doomed(db, t, u)
  {
  }

  // The report conserves rows: each table lost exactly the rows reported for it.
  lemma ReportCountsRowsLost(db: DB, u: Id, i: nat)
    requires i < |STEPS|
    ensures |Doomed(AfterSteps(db, u, i), STEPS[i], u)|
         == |TableIds(db, STEPS[i])| - |TableIds(AfterSteps(db, u, |STEPS|), STEPS[i])|
  {
    StepsRemove(db, u, i);
    StepsRemove(db, u, |STEPS|);
    DoomedFromTheStart(db, u, i);
    DoomedAreRows(db, STEPS[i], u);
    RowsLost(TableIds(db, STEPS[i]), Doomed(db, STEPS[i], u));
    IdsLeft(db, u, i);
  }

  lemma IdsLeft(db: DB, u: Id, i: nat)
    requires i < |STEPS|
    ensures TableIds(Removed(db, u, |STEPS|), STEPS[i]) == TableIds(db, STEPS[i]) - Doomed(db, STEPS[i], u)
  {
  }

  // No row loses its parent, not even between two statements.
  ghost predicate NoOrphans(db: DB, cvs: map<Id, CV>) {
    && (forall r :: r in db.results ==> db.results[r].searchId in db.searches)
    && (forall e :: e in db.evaluations ==> db.evaluations[e].resultId in db.results && db.evaluations[e].cvId in db.cvs)
    && (forall s :: s in db.scores ==> db.scores[s].evaluationId in db.evaluations)
    && (forall s :: s in db.sections && db.sections[s].cvId in cvs ==> db.sections[s].cvId in db.cvs)
  }

  lemma ChildrenGoFirst(db: DB, u: Id, n: nat)
    requires Owned(db) && n <= |STEPS|
    ensures var next := Removed(db, u, n);
            && (forall e :: e in next.evaluations ==>
                  next.evaluations[e].resultId in next.results && next.evaluations[e].cvId in next.cvs)
            && (forall s :: s in next.scores ==> next.scores[s].evaluationId in next.evaluations)
  {
  }

  lemma ResultsGoFirst(db: DB, u: Id, n: nat)
    requires Owned(db) && n <= |STEPS|
    ensures var next := Removed(db, u, n);
            && (forall r :: r in next.results ==> next.results[r].searchId in next.searches)
            && (forall s :: s in next.sections && next.sections[s].cvId in db.cvs ==> next.sections[s].cvId in next.cvs)
  {
  }

  lemma EveryStepKeepsParents(db: DB, u: Id, n: nat)
    requires Owned(db) && n <= |STEPS|
    ensures NoOrphans(AfterSteps(db, u, n), db.cvs)
  {
    StepsRemove(db, u, n);
    ChildrenGoFirst(db, u, n);
    ResultsGoFirst(db, u, n);
  }
}
