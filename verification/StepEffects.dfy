// Whose rows a step of the machine with locks adds, and what it does to the
// rows of each user.
module StepEffects {
  import opened Common
  import opened Tables
  import opened Store
  import opened Schedule
  import opened Account
  import opened Machine
  import opened Integrity
  import opened Reachable
  import opened Frames
  import opened Consistency
  import opened Locking
  import opened Belongings
  import opened LockingSteps

  // ----- whose rows a step adds

  // The rows of a table that a step gives a user.
  ghost function Added(f: Fine, step: Step, u: Id, t: Table): set<Id> {
    match step
    case One(Searching(SearchCreated(id, v, p))) =>
      if t.JobSearches? && v == u && Create(f.s.db, id, v, p, f.s.now).Ok? then {id} else {}
    case One(Serving(CVAdded(id, v))) => if t.CVs? && v == u then {id} else {}
    case One(Serving(SectionsStored(ids, v, _))) => if t.SectionEmbeddings? && v == u then ids else {}
    case One(Serving(KeyAdded(id, v))) => if t.APIKeys? && v == u then {id} else {}
    case One(Serving(SuggestionAdded(id, v))) => if t.PortalSuggestions? && v == u then {id} else {}
    case Committed(tx) =>
      if Inserts(f, tx) && f.open[tx].run in f.s.runs && RowOf(f, tx).userId == u && t.SearchResults? then
        {f.open[tx].row.value.id}
      else SavedRows(SavedFor(f, tx, u), t)
    case _ => {}
  }

  // The evaluation a commit saves for a result of the user.
  ghost function SavedFor(f: Fine, tx: Id, u: Id): Option<Saved> {
    if tx in f.open && f.open[tx].Recording? && f.open[tx].id in f.s.db.results && f.s.db.results[f.open[tx].id].userId == u
    then SavedIn(f.open[tx]) else None
  }

  // The rows of the user that a step replaces.
  ghost function Replaced(f: Fine, step: Step, u: Id, t: Table): set<Id> {
    if step.Committed? then ReplacedRows(SavedFor(f, step.tx, u), t) else {}
  }

  lemma SearchesAdded(c: Config, f: Fine, e: Event, u: Id)
    requires IdsUsed(f.s) && Can(c, f.s, e) && Steady(f.s, f.s.db, After(c, f.s, e).db, e)
    ensures OwnedSearches(After(c, f.s, e).db, u) - OwnedSearches(f.s.db, u) == Added(f, One(e), u, JobSearches)
  {
    NewSearchesOf(f.s, After(c, f.s, e).db, e, u);
    CreatedSearches(c, f.s, e);
  }

  lemma CVsAdded(c: Config, f: Fine, e: Event, u: Id)
    requires IdsUsed(f.s) && Can(c, f.s, e) && Steady(f.s, f.s.db, After(c, f.s, e).db, e)
    ensures OwnedCVs(After(c, f.s, e).db, u) - OwnedCVs(f.s.db, u) == Added(f, One(e), u, CVs)
  {
    NewCVsOf(f.s, After(c, f.s, e).db, e, u);
  }

  lemma RowsStored(f: Fine, next: DB, e: Event, u: Id, t: Table)
    requires RefsUsed(f.s.db, f.s.used) && Steady(f.s, f.s.db, next, e) && !t.JobSearches? && !t.CVs?
    requires !IsTransaction(e)
    ensures NewTheirs(f.s.db, next, u, t) == Added(f, One(e), u, t)
  {
    match t {
      case SectionEmbeddings => NewSectionsOf(f.s, next, e, u);
      case APIKeys => NewKeysOf(f.s, next, e, u);
      case PortalSuggestions => NewSuggestionsOf(f.s, next, e, u);
      case _ =>
    }
  }

  lemma StatementAdds(c: Config, f: Fine, e: Event, u: Id, t: Table)
    requires IdsUsed(f.s) && RefsUsed(f.s.db, f.s.used) && Can(c, f.s, e) && !IsTransaction(e)
    ensures NewTheirs(f.s.db, After(c, f.s, e).db, u, t) == Added(f, One(e), u, t)
  {
    StatementIsSteady(c, f.s, e);
    if t.JobSearches? {
      SearchesAdded(c, f, e, u);
    } else if t.CVs? {
      CVsAdded(c, f, e, u);
    } else {
      RowsStored(f, After(c, f.s, e).db, e, u, t);
    }
  }

  lemma CreatedSearches(c: Config, s: Sys, e: Event)
    requires IdsUsed(s) && Can(c, s, e)
    ensures e.Searching? && e.search.SearchCreated? ==>
              After(c, s, e).db.searches.Keys - s.db.searches.Keys
              == if Create(s.db, e.search.id, e.search.userId, e.search.create, s.now).Ok? then {e.search.id} else {}
  {
    if e.Searching? && e.search.SearchCreated? {
      CreatedIsOne(s.db, e.search.id, e.search.userId, e.search.create, s.now);
    }
  }

  lemma CreatedIsOne(db: DB, id: Id, v: Id, p: CreateParams, now: Time)
    requires id !in db.searches
    ensures Succeeding(db, Create(db, id, v, p, now)).searches.Keys
         == db.searches.Keys + (if Create(db, id, v, p, now).Ok? then {id} else {})
  {
    CreateTouches(db, id, v, p, now);
    CreatedIsTheirs(db, id, v, p, now);
    OneMoreSearch(db, Create(db, id, v, p, now), id);
  }

  lemma OneMoreSearch<E>(db: DB, o: Outcome<DB, E>, id: Id)
    requires id !in db.searches && OneSearch(db, Succeeding(db, o), id) && (o.Ok? ==> id in o.value.searches)
    ensures Succeeding(db, o).searches.Keys == db.searches.Keys + (if o.Ok? then {id} else {})
  {
  }

  lemma NewSearchesOf(s: Sys, next: DB, e: Event, u: Id)
    requires Steady(s, s.db, next, e)
    ensures OwnedSearches(next, u) - OwnedSearches(s.db, u)
         == set x | x in next.searches.Keys - s.db.searches.Keys && e.Searching? && e.search.SearchCreated? && e.search.userId == u
  {
  }

  lemma NewCVsOf(s: Sys, next: DB, e: Event, u: Id)
    requires Steady(s, s.db, next, e)
    ensures OwnedCVs(next, u) - OwnedCVs(s.db, u)
         == set x | x in next.cvs.Keys - s.db.cvs.Keys && e.Serving? && e.user.CVAdded? && e.user.userId == u
  {
  }

  lemma NewSectionsOf(s: Sys, next: DB, e: Event, u: Id)
    requires RefsUsed(s.db, s.used) && Steady(s, s.db, next, e)
    ensures OwnedSections(next, u) - OwnedSections(s.db, u)
         == match e case Serving(SectionsStored(ids, v, _)) => if v == u then ids else {} case _ => {}
  {
    OldSectionsStay(s, next, e, u);
    if e.Serving? && e.user.SectionsStored? {
      assert next.cvs.Keys == s.db.cvs.Keys;
    }
  }

  // Who owns a section does not change: a new CV is of none of the old ones.
  lemma OldSectionsStay(s: Sys, next: DB, e: Event, u: Id)
    requires RefsUsed(s.db, s.used) && Steady(s, s.db, next, e)
    ensures forall k :: k in s.db.sections ==> (k in OwnedSections(next, u) <==> k in OwnedSections(s.db, u))
  {
  }

  lemma NewKeysOf(s: Sys, next: DB, e: Event, u: Id)
    requires RefsUsed(s.db, s.used) && Steady(s, s.db, next, e)
    ensures OwnedBy(next.apiKeys, u) - OwnedBy(s.db.apiKeys, u)
         == match e case Serving(KeyAdded(id, v)) => if v == u then {id} else {} case _ => {}
  {
  }

  lemma NewSuggestionsOf(s: Sys, next: DB, e: Event, u: Id)
    requires RefsUsed(s.db, s.used) && Steady(s, s.db, next, e)
    ensures OwnedBy(next.suggestions, u) - OwnedBy(s.db.suggestions, u)
         == match e case Serving(SuggestionAdded(id, v)) => if v == u then {id} else {} case _ => {}
  {
  }

  // ----- what a step does to a user's rows

  ghost predicate Affects(db: DB, next: DB, used: set<Id>, u: Id, t: Table, replaced: set<Id>, added: set<Id>) {
    Becomes(db, next, u, t, replaced, added) && OldIdsStay(db, next, used, t, replaced)
  }

  lemma StatementAffects(c: Config, f: Fine, e: Event, u: Id, t: Table)
    requires Consistent(f.s) && Can(c, f.s, e) && !IsTransaction(e) && (t.Users? ==> u in f.s.db.users)
    ensures Affects(f.s.db, After(c, f.s, e).db, f.s.used, u, t, {}, Added(f, One(e), u, t))
  {
    StatementIsSteady(c, f.s, e);
    StatementBecomes(f.s, After(c, f.s, e).db, e, u, t);
    StatementAdds(c, f, e, u, t);
    StatementKeepsOldIds(f.s, After(c, f.s, e).db, e, t);
  }

  lemma InsertAffects(c: Config, f: Fine, tx: Id, u: Id, t: Table)
    requires Consistent(f.s) && TxsTrue(c, f) && IdsApart(f) && Inserts(f, tx) && CanStep(c, f, Committed(tx))
    ensures Affects(f.s.db, AfterCommit(f, tx).db, f.s.used, u, t, Replaced(f, Committed(tx), u, t), Added(f, Committed(tx), u, t))
  {
    InsertIsOfItsSearch(c, f, tx);
    InsertBecomes(f.s.db, f.s.used, f.open[tx].row.value.id, RowOf(f, tx), u, t);
  }

  lemma ChangeAffects(db: DB, used: set<Id>, change: Change, u: Id, t: Table)
    requires Proper(db, used, change) && Agree(db) && Agree(Changed(db, change))
    requires RefsUsed(db, used) && db.scores.Keys <= used && db.evaluations.Keys <= used
    ensures var theirs := if db.results[change.id].userId == u then change.saved else None;
            Affects(db, Changed(db, change), used, u, t, ReplacedRows(theirs, t), SavedRows(theirs, t))
  {
    ChangeBecomes(db, used, change, u, t);
    ChangeKeepsOldIds(db, used, change, t);
  }

  lemma RecordAffects(c: Config, f: Fine, tx: Id, u: Id, t: Table)
    requires Consistent(f.s) && TxsTrue(c, f) && Records(f, tx)
    ensures Affects(f.s.db, Changed(f.s.db, f.open[tx].change.value), f.s.used, u, t,
                    ReplacedRows(SavedFor(f, tx, u), t), SavedRows(SavedFor(f, tx, u), t))
  {
    var r := f.open[tx];
    assert TxTrue(c, f.s, r);
    PendingIsProper(c, f.s, r);
    ChangeAffects(f.s.db, f.s.used, r.change.value, u, t);
  }

  lemma NothingAffects(db: DB, used: set<Id>, u: Id, t: Table)
    ensures Affects(db, db, used, u, t, {}, {})
  {
  }

  lemma CommitAffects(c: Config, f: Fine, tx: Id, u: Id, t: Table)
    requires Consistent(f.s) && TxsTrue(c, f) && IdsApart(f) && CanStep(c, f, Committed(tx))
    ensures Affects(f.s.db, AfterCommit(f, tx).db, f.s.used, u, t, Replaced(f, Committed(tx), u, t), Added(f, Committed(tx), u, t))
  {
    if Inserts(f, tx) {
      InsertAffects(c, f, tx, u, t);
    } else if Records(f, tx) {
      RecordAffects(c, f, tx, u, t);
    } else {
      NothingAffects(f.s.db, f.s.used, u, t);
    }
  }

  lemma DeletionAffects(f: Fine, v: Id, u: Id, t: Table)
    requires Consistent(f.s) && DeletionsHold(f) && Deletes(f, v) && v != u
    ensures Affects(f.s.db, View(f.s.db, f.deletions[v].stage.gone), f.s.used, u, t, {}, {})
  {
    assert DeletionHolds(f.s, v, f.deletions[v]);
    OthersBecome(f.s.db, f.deletions[v].stage.gone, u, v, t);
    OthersKeepOldIds(f.s.db, f.deletions[v].stage.gone, f.s.used, t);
  }

  // Whatever the step, other than the commit of the user's own deletion: the
  // user's rows are those of before, without the replaced and with the added.
  lemma StepAffects(c: Config, f: Fine, step: Step, u: Id, t: Table)
    requires Consistent(f.s) && TxsTrue(c, f) && IdsApart(f) && DeletionsHold(f)
    requires CanStep(c, f, step) && step != DeletionCommitted(u) && (t.Users? ==> u in f.s.db.users)
    ensures Affects(f.s.db, Next(c, f, step).s.db, f.s.used, u, t, Replaced(f, step, u, t), Added(f, step, u, t))
  {
    if step.One? {
      StatementAffects(c, f, step.e, u, t);
    } else if step.Committed? {
      CommitAffects(c, f, step.tx, u, t);
    } else if step.DeletionCommitted? {
      DeletionAffects(f, step.u, u, t);
    } else {
      OthersAffectNothing(c, f, step, u, t);
    }
  }

  lemma OthersAffectNothing(c: Config, f: Fine, step: Step, u: Id, t: Table)
    requires CanStep(c, f, step) && !step.One? && !step.Committed? && !step.DeletionCommitted?
    ensures Next(c, f, step).s == f.s
    ensures Affects(f.s.db, f.s.db, f.s.used, u, t, Replaced(f, step, u, t), Added(f, step, u, t))
  {
    NothingAffects(f.s.db, f.s.used, u, t);
  }

  // ----- what was deleted stays the user's

  lemma TheirsStayTheirs(db: DB, next: DB, used: set<Id>, u: Id, t: Table, replaced: set<Id>, added: set<Id>, ids: set<Id>)
    requires Affects(db, next, used, u, t, replaced, added) && ids <= used && ids * TableIds(db, t) <= Doomed(db, t, u)
    ensures ids * TableIds(next, t) <= Doomed(next, t, u)
  {
    assert ids * TableIds(next, t) <= TableIds(next, t) * used;
    assert ids * TableIds(next, t) <= ids * TableIds(db, t);
    assert ids * TableIds(next, t) <= Doomed(db, t, u) - replaced;
  }

  lemma StepKeepsTheirs(c: Config, f: Fine, step: Step, u: Id, gone: seq<set<Id>>)
    requires Inv(c, f) && CanStep(c, f, step) && step != DeletionCommitted(u) && u in f.s.db.users
    requires |gone| <= |STEPS| && TakesTheirs(f.s.db, gone, u) && forall n :: 0 <= n < |gone| ==> gone[n] <= f.s.used
    ensures TakesTheirs(Next(c, f, step).s.db, gone, u)
  {
    forall n | 0 <= n < |gone|
      ensures gone[n] * TableIds(Next(c, f, step).s.db, STEPS[n]) <= Doomed(Next(c, f, step).s.db, STEPS[n], u)
    {
      var t := STEPS[n];
      StepAffects(c, f, step, u, t);
      TheirsStayTheirs(f.s.db, Next(c, f, step).s.db, f.s.used, u, t, Replaced(f, step, u, t), Added(f, step, u, t), gone[n]);
    }
  }

  lemma StepKeepsUser(c: Config, f: Fine, step: Step, u: Id)
    requires Inv(c, f) && CanStep(c, f, step) && step != DeletionCommitted(u) && u in f.s.db.users
    ensures u in Next(c, f, step).s.db.users
  {
    StepAffects(c, f, step, u, Users);
    assert u in Doomed(f.s.db, Users, u);
    assert u in Doomed(Next(c, f, step).s.db, Users, u);
  }

  lemma StepKeepsUsed(c: Config, f: Fine, step: Step)
    requires IdsUsed(f.s) && CanStep(c, f, step)
    ensures f.s.used <= Next(c, f, step).s.used && f.s.now <= Next(c, f, step).s.now
  {
    match step {
      case One(e) => EventsLeaveOthersAlone(c, f.s, e);
      case _ =>
    }
  }

  // A score row is never changed.
  ghost predicate OldScoresStay(db: DB, next: DB, used: set<Id>) {
    forall k :: k in next.scores && k in used ==> k in db.scores && next.scores[k] == db.scores[k]
  }

  lemma CommitKeepsScoreRows(c: Config, f: Fine, tx: Id)
    requires Consistent(f.s) && TxsTrue(c, f) && CanStep(c, f, Committed(tx))
    ensures OldScoresStay(f.s.db, AfterCommit(f, tx).db, f.s.used)
  {
    if Records(f, tx) {
      var t := f.open[tx];
      assert TxTrue(c, f.s, t);
      PendingIsProper(c, f.s, t);
      ChangeKeepsScoreRows(f.s.db, f.s.used, t.change.value);
    }
  }

  lemma ChangeKeepsScoreRows(db: DB, used: set<Id>, change: Change)
    requires Proper(db, used, change)
    ensures OldScoresStay(db, Changed(db, change), used)
  {
    ChangeFrame(db, change);
  }

  lemma StepKeepsScoreRows(c: Config, f: Fine, step: Step)
    requires Consistent(f.s) && TxsTrue(c, f) && DeletionsHold(f) && CanStep(c, f, step)
    ensures OldScoresStay(f.s.db, Next(c, f, step).s.db, f.s.used)
  {
    if step.One? {
      StatementIsSteady(c, f.s, step.e);
    } else if step.Committed? {
      CommitKeepsScoreRows(c, f, step.tx);
    } else if step.DeletionCommitted? {
      ViewShrinks(f.s.db, f.deletions[step.u].stage.gone);
    }
  }

  lemma ScoresStillFollow(db: DB, next: DB, used: set<Id>, gone: seq<set<Id>>)
    requires OldScoresStay(db, next, used) && ScoresFollow(db, gone) && forall n :: 0 <= n < |gone| ==> gone[n] <= used
    ensures ScoresFollow(next, gone)
  {
  }

  // A deletion that a step does not touch keeps what it holds.
  lemma StepKeepsDeletion(c: Config, f: Fine, step: Step, u: Id)
    requires Inv(c, f) && CanStep(c, f, step) && u in f.deletions && step != DeletionCommitted(u)
    ensures DeletionHolds(Next(c, f, step).s, u, f.deletions[u])
  {
    var d := f.deletions[u];
    assert DeletionHolds(f.s, u, d);
    StepKeepsUser(c, f, step, u);
    StepKeepsUsed(c, f, step);
    if d.stage.DeleteRows? {
      StepKeepsTheirs(c, f, step, u, d.stage.gone);
      StepKeepsScoreRows(c, f, step);
      ScoresStillFollow(f.s.db, Next(c, f, step).s.db, f.s.used, d.stage.gone);
    }
  }
}
