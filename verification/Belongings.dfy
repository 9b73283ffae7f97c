// How the rows a user owns change with each step on the committed tables:
// which new rows become theirs, and which of theirs are replaced.
module Belongings {
  import opened Common
  import opened Tables
  import opened Store
  import opened Account
  import opened Machine
  import opened Integrity
  import opened Reachable
  import opened Frames
  import opened Consistency
  import opened Locking

  // The user's rows of a table afterwards: those of before, but for replaced
  // ones, and the added ones.
  ghost predicate Becomes(db: DB, next: DB, u: Id, t: Table, replaced: set<Id>, added: set<Id>) {
    Doomed(next, t, u) == (Doomed(db, t, u) - replaced) + added
  }

  // Rows with old ids were there before, and no replaced one is left.
  ghost predicate OldIdsStay(db: DB, next: DB, used: set<Id>, t: Table, replaced: set<Id>) {
    TableIds(next, t) * used <= TableIds(db, t) - replaced
  }

  lemma OwnedByUserId(db: DB, u: Id)
    requires ResultsAgree(db)
    ensures OwnedResults(db, u) == set r | r in db.results && db.results[r].userId == u
  {
  }

  // ----- single statements

  // A request may give the user a row of these tables.
  predicate Requested(t: Table) {
    t.JobSearches? || t.SectionEmbeddings? || t.CVs? || t.APIKeys? || t.PortalSuggestions?
  }

  // The rows a statement gave the user.
  function NewTheirs(db: DB, next: DB, u: Id, t: Table): set<Id> {
    if Requested(t) then Doomed(next, t, u) - Doomed(db, t, u) else {}
  }

  lemma StatementKeepsResults(s: Sys, next: DB, e: Event, u: Id)
    requires RefsUsed(s.db, s.used) && Steady(s, s.db, next, e)
    ensures OwnedResults(next, u) == OwnedResults(s.db, u)
  {
    forall r | r in next.results
      ensures next.results[r].searchId in OwnedSearches(next, u) <==> s.db.results[r].searchId in OwnedSearches(s.db, u)
      ensures next.results[r].userId == s.db.results[r].userId
    {
      assert SamePlace(next.results[r], s.db.results[r]);
    }
  }

  lemma StatementKeepsEvaluations(s: Sys, next: DB, e: Event, u: Id)
    requires RefsUsed(s.db, s.used) && Steady(s, s.db, next, e)
    ensures OwnedEvaluations(next, u) == OwnedEvaluations(s.db, u) && OwnedScores(next, u) == OwnedScores(s.db, u)
  {
    StatementKeepsResults(s, next, e, u);
    assert forall k :: k in s.used ==> (k in OwnedCVs(next, u) <==> k in OwnedCVs(s.db, u));
    assert OwnedEvaluations(next, u) == OwnedEvaluations(s.db, u);
  }

  lemma StatementKeepsSections(s: Sys, next: DB, e: Event, u: Id)
    requires RefsUsed(s.db, s.used) && Steady(s, s.db, next, e)
    ensures OwnedSections(s.db, u) <= OwnedSections(next, u)
  {
    assert OwnedCVs(s.db, u) <= OwnedCVs(next, u);
  }

  lemma StatementBecomes(s: Sys, next: DB, e: Event, u: Id, t: Table)
    requires RefsUsed(s.db, s.used) && Steady(s, s.db, next, e) && (t.Users? ==> u in s.db.users)
    ensures Becomes(s.db, next, u, t, {}, NewTheirs(s.db, next, u, t))
  {
    StatementKeepsResults(s, next, e, u);
    StatementKeepsEvaluations(s, next, e, u);
    match t {
      case JobSearches => assert OwnedSearches(s.db, u) <= OwnedSearches(next, u);
      case CVs => assert OwnedCVs(s.db, u) <= OwnedCVs(next, u);
      case SectionEmbeddings => StatementKeepsSections(s, next, e, u);
      case APIKeys => assert OwnedBy(s.db.apiKeys, u) <= OwnedBy(next.apiKeys, u);
      case PortalSuggestions => assert OwnedBy(s.db.suggestions, u) <= OwnedBy(next.suggestions, u);
      case Users => assert next.users * {u} == s.db.users * {u};
      case _ =>
    }
  }

  lemma StatementKeepsOldIds(s: Sys, next: DB, e: Event, t: Table)
    requires Steady(s, s.db, next, e)
    ensures OldIdsStay(s.db, next, s.used, t, {})
  {
    match t {
      case Users => assert next.users * s.used <= s.db.users;
      case _ =>
    }
  }

  // ----- a new result

  lemma InsertBecomes(db: DB, used: set<Id>, id: Id, row: SearchResult, u: Id, t: Table)
    requires RefsUsed(db, used) && id !in used && id !in db.results
    requires row.searchId in db.searches && db.searches[row.searchId].userId == row.userId
    ensures var next := db.(results := db.results[id := row]);
            && Becomes(db, next, u, t, {}, if t.SearchResults? && row.userId == u then {id} else {})
            && OldIdsStay(db, next, used, t, {})
  {
    var next := db.(results := db.results[id := row]);
    assert OwnedSearches(next, u) == OwnedSearches(db, u) && OwnedCVs(next, u) == OwnedCVs(db, u);
    assert OwnedResults(next, u) == OwnedResults(db, u) + (if row.userId == u then {id} else {});
    assert OwnedEvaluations(next, u) == OwnedEvaluations(db, u);
    assert OwnedScores(next, u) == OwnedScores(db, u);
    assert OwnedSections(next, u) == OwnedSections(db, u);
  }

  // ----- a worker's outcome

  function SavedRows(saved: Option<Saved>, t: Table): set<Id> {
    if saved.None? then {}
    else match t
         case Evaluations => {saved.value.id}
         case EvaluationScores => saved.value.newScores.Keys
         case _ => {}
  }

  function ReplacedRows(saved: Option<Saved>, t: Table): set<Id> {
    if saved.Some? && t.EvaluationScores? then saved.value.oldScores else {}
  }

  lemma ChangeKeepsParents(db: DB, used: set<Id>, change: Change, u: Id)
    requires Proper(db, used, change)
    ensures var next := Changed(db, change);
            && OwnedSearches(next, u) == OwnedSearches(db, u) && OwnedCVs(next, u) == OwnedCVs(db, u)
            && OwnedResults(next, u) == OwnedResults(db, u) && OwnedSections(next, u) == OwnedSections(db, u)
  {
    ChangeFrame(db, change);
    ChangeTouchesOneRow(db, change);
    var next := Changed(db, change);
    assert OwnedSearches(next, u) == OwnedSearches(db, u) && OwnedCVs(next, u) == OwnedCVs(db, u);
  }

  // An evaluation is its result's user's, by its result and by its CV.
  lemma SavedIsTheirs(db: DB, used: set<Id>, change: Change, u: Id)
    requires Proper(db, used, change) && change.saved.Some? && Agree(db) && Agree(Changed(db, change))
    ensures var row := change.saved.value.row;
            row.resultId in OwnedResults(db, u) || row.cvId in OwnedCVs(db, u) <==> db.results[change.id].userId == u
  {
    var next := Changed(db, change);
    OwnedByUserId(db, u);
    ChangeTouchesOneRow(db, change);
    ChangeFrame(db, change);
    assert next.evaluations[change.saved.value.id] == change.saved.value.row;
  }

  function EvaluationsIn(evaluations: map<Id, Evaluation>, rs: set<Id>, cvs: set<Id>): set<Id> {
    set e | e in evaluations && (evaluations[e].resultId in rs || evaluations[e].cvId in cvs)
  }

  lemma EvaluationsAfterSave(evaluations: map<Id, Evaluation>, id: Id, row: Evaluation, rs: set<Id>, cvs: set<Id>)
    requires id in evaluations ==> evaluations[id].resultId == row.resultId && evaluations[id].cvId == row.cvId
    ensures EvaluationsIn(evaluations[id := row], rs, cvs)
         == EvaluationsIn(evaluations, rs, cvs) + (if row.resultId in rs || row.cvId in cvs then {id} else {})
  {
  }

  lemma OwnedAreIn(db: DB, u: Id)
    ensures OwnedEvaluations(db, u) == EvaluationsIn(db.evaluations, OwnedResults(db, u), OwnedCVs(db, u))
  {
  }

  lemma ChangeBecomesEvaluations(db: DB, used: set<Id>, change: Change, u: Id)
    requires Proper(db, used, change) && Agree(db) && Agree(Changed(db, change))
    ensures var next := Changed(db, change);
            var theirs := change.saved.Some? && db.results[change.id].userId == u;
            OwnedEvaluations(next, u) == OwnedEvaluations(db, u) + (if theirs then {change.saved.value.id} else {})
  {
    var next := Changed(db, change);
    ChangeKeepsParents(db, used, change, u);
    if change.saved.Some? {
      SavedIsTheirs(db, used, change, u);
      SavedEvaluations(db, change);
      SaveBecomes(db, next, u, change.saved.value);
    } else {
      ChangeFrame(db, change);
      OwnedAreIn(db, u);
      OwnedAreIn(next, u);
    }
  }

  lemma SaveBecomes(db: DB, next: DB, u: Id, saved: Saved)
    requires Fits(db, saved) && next.evaluations == db.evaluations[saved.id := saved.row]
    requires OwnedResults(next, u) == OwnedResults(db, u) && OwnedCVs(next, u) == OwnedCVs(db, u)
    ensures OwnedEvaluations(next, u) == OwnedEvaluations(db, u)
              + (if saved.row.resultId in OwnedResults(db, u) || saved.row.cvId in OwnedCVs(db, u) then {saved.id} else {})
  {
    OwnedAreIn(db, u);
    OwnedAreIn(next, u);
    EvaluationsAfterSave(db.evaluations, saved.id, saved.row, OwnedResults(db, u), OwnedCVs(db, u));
  }

  lemma SavedEvaluations(db: DB, change: Change)
    requires change.saved.Some?
    ensures var saved := change.saved.value;
            && Changed(db, change).evaluations == db.evaluations[saved.id := saved.row]
            && Changed(db, change).scores == (db.scores - saved.oldScores) + saved.newScores
  {
  }

  lemma ScoresAfterSave(db: DB, saved: Saved, scores: map<Id, Score>, before: set<Id>, after: set<Id>)
    requires ReplacesScores(db, saved) && saved.newScores.Keys !! db.scores.Keys
    requires scores == (db.scores - saved.oldScores) + saved.newScores
    requires forall e :: e != saved.id ==> (e in after <==> e in before)
    requires saved.id in after ==> saved.id in before || saved.oldScores == {}
    requires saved.id in before ==> saved.id in after
    ensures ScoresIn(scores, after)
         == (ScoresIn(db.scores, before) - (if saved.id in after then saved.oldScores else {}))
            + (if saved.id in after then saved.newScores.Keys else {})
  {
  }

  function ScoresIn(scores: map<Id, Score>, es: set<Id>): set<Id> {
    set k | k in scores && scores[k].evaluationId in es
  }

  lemma SaveBecomesScores(db: DB, next: DB, u: Id, saved: Saved, mine: bool)
    requires ReplacesScores(db, saved) && saved.newScores.Keys !! db.scores.Keys
    requires next.scores == (db.scores - saved.oldScores) + saved.newScores
    requires OwnedEvaluations(next, u) == OwnedEvaluations(db, u) + (if mine then {saved.id} else {})
    requires saved.id in OwnedEvaluations(db, u) ==> mine
    requires mine ==> saved.id in OwnedEvaluations(db, u) || saved.oldScores == {}
    ensures Becomes(db, next, u, EvaluationScores, if mine then saved.oldScores else {}, if mine then saved.newScores.Keys else {})
  {
    assert OwnedScores(db, u) == ScoresIn(db.scores, OwnedEvaluations(db, u));
    assert OwnedScores(next, u) == ScoresIn(next.scores, OwnedEvaluations(next, u));
    ScoresAfterSave(db, saved, next.scores, OwnedEvaluations(db, u), OwnedEvaluations(next, u));
  }

  lemma SameScoresStay(db: DB, next: DB, u: Id)
    requires next.scores == db.scores && OwnedEvaluations(next, u) == OwnedEvaluations(db, u)
    ensures Becomes(db, next, u, EvaluationScores, {}, {})
  {
    assert OwnedScores(next, u) == OwnedScores(db, u);
  }

  lemma ChangeBecomesScores(db: DB, used: set<Id>, change: Change, u: Id)
    requires Proper(db, used, change) && Agree(db) && Agree(Changed(db, change))
    requires RefsUsed(db, used) && db.scores.Keys <= used && db.evaluations.Keys <= used
    ensures var theirs := if db.results[change.id].userId == u then change.saved else None;
            Becomes(db, Changed(db, change), u, EvaluationScores,
                    ReplacedRows(theirs, EvaluationScores), SavedRows(theirs, EvaluationScores))
  {
    var next := Changed(db, change);
    ChangeBecomesEvaluations(db, used, change, u);
    if change.saved.Some? {
      SavedScoresBelong(db, used, change, u);
      SavedEvaluations(db, change);
      SaveBecomesScores(db, next, u, change.saved.value, db.results[change.id].userId == u);
    } else {
      SameScoresStay(db, next, u);
    }
  }

  lemma SavedScoresBelong(db: DB, used: set<Id>, change: Change, u: Id)
    requires Proper(db, used, change) && change.saved.Some? && Agree(db) && Agree(Changed(db, change))
    requires RefsUsed(db, used)
    ensures var saved := change.saved.value;
            var mine := db.results[change.id].userId == u;
            && (saved.id in OwnedEvaluations(db, u) ==> mine)
            && (mine ==> saved.id in OwnedEvaluations(db, u) || saved.oldScores == {})
  {
    var saved := change.saved.value;
    SavedIsTheirs(db, used, change, u);
    NewEvaluationHasNoScores(db, used, saved);
    SavedBelongsAsBefore(db, saved, u);
  }

  lemma SavedBelongsAsBefore(db: DB, saved: Saved, u: Id)
    requires Fits(db, saved)
    ensures saved.id in OwnedEvaluations(db, u) <==>
              saved.id in db.evaluations && (saved.row.resultId in OwnedResults(db, u) || saved.row.cvId in OwnedCVs(db, u))
  {
  }

  lemma NewEvaluationHasNoScores(db: DB, used: set<Id>, saved: Saved)
    requires RefsUsed(db, used) && ReplacesScores(db, saved) && (saved.id in db.evaluations || saved.id !in used)
    ensures saved.id !in db.evaluations ==> saved.oldScores == {}
  {
  }

  lemma ChangeBecomes(db: DB, used: set<Id>, change: Change, u: Id, t: Table)
    requires Proper(db, used, change) && Agree(db) && Agree(Changed(db, change))
    requires RefsUsed(db, used) && db.scores.Keys <= used && db.evaluations.Keys <= used
    ensures var theirs := if db.results[change.id].userId == u then change.saved else None;
            Becomes(db, Changed(db, change), u, t, ReplacedRows(theirs, t), SavedRows(theirs, t))
  {
    match t {
      case EvaluationScores => ChangeBecomesScores(db, used, change, u);
      case Evaluations => ChangeBecomesEvaluations(db, used, change, u);
      case _ =>
        ChangeKeepsParents(db, used, change, u);
        ChangeFrame(db, change);
    }
  }

  lemma ChangeKeepsOldIds(db: DB, used: set<Id>, change: Change, t: Table)
    requires Proper(db, used, change)
    ensures OldIdsStay(db, Changed(db, change), used, t, ReplacedRows(change.saved, t))
  {
    ChangeFrame(db, change);
    ChangeTouchesOneRow(db, change);
    if change.saved.Some? {
      SavedEvaluations(db, change);
    }
  }

  // ----- another user's deletion

  // The tables without the rows deleted by the first n statements.
  function TakingFirst(db: DB, gone: seq<set<Id>>, n: nat): DB
    requires n <= |gone|
  {
    DB(if n > 8 then db.users - gone[8] else db.users,
       if n > 3 then db.searches - gone[3] else db.searches,
       db.jobs,
       if n > 2 then db.results - gone[2] else db.results,
       if n > 1 then db.evaluations - gone[1] else db.evaluations,
       if n > 1 then db.scores - gone[0] - Cascaded(db, gone[1])
       else if n > 0 then db.scores - gone[0] else db.scores,
       if n > 5 then db.cvs - gone[5] else db.cvs,
       if n > 4 then db.sections - gone[4] else db.sections,
       if n > 6 then db.apiKeys - gone[6] else db.apiKeys,
       if n > 7 then db.suggestions - gone[7] else db.suggestions)
  }

  function Taking(db: DB, gone: seq<set<Id>>): DB {
    TakingFirst(db, gone, |gone|)
  }

  lemma TakingOneMore(db: DB, gone: seq<set<Id>>, n: nat)
    requires 0 < n <= |gone| && n <= |STEPS|
    ensures Without(TakingFirst(db, gone, n - 1), STEPS[n - 1], gone[n - 1]) == TakingFirst(db, gone, n)
  {
    if n == 2 {
      TakingCascades(db, gone);
    }
  }

  lemma TakingCascades(db: DB, gone: seq<set<Id>>)
    requires |gone| >= 2
    ensures Without(TakingFirst(db, gone, 1), Evaluations, gone[1]) == TakingFirst(db, gone, 2)
  {
    var first := TakingFirst(db, gone, 1);
    assert first.scores - Cascaded(first, gone[1]) == db.scores - gone[0] - Cascaded(db, gone[1]);
  }

  lemma {:induction false} ViewTakesFirst(db: DB, gone: seq<set<Id>>, n: nat)
    requires n <= |gone| && n <= |STEPS|
    ensures View(db, gone[..n]) == TakingFirst(db, gone, n)
  {
    if n > 0 {
      ViewTakesFirst(db, gone, n - 1);
      TakingOneMore(db, gone, n);
      assert gone[..n][..n - 1] == gone[..n - 1];
    }
  }

  lemma ViewTakes(db: DB, gone: seq<set<Id>>)
    requires |gone| <= |STEPS|
    ensures View(db, gone) == Taking(db, gone)
  {
    ViewTakesFirst(db, gone, |gone|);
    assert gone[..|gone|] == gone;
  }

  lemma TakingIds(db: DB, gone: seq<set<Id>>, n: nat)
    requires |gone| == |STEPS| && 1 <= n < |STEPS|
    ensures TableIds(Taking(db, gone), STEPS[n]) == TableIds(db, STEPS[n]) - gone[n]
  {
  }

  lemma ViewKeepsScoresOwned(db: DB, gone: seq<set<Id>>)
    requires |gone| == |STEPS| && ScoresOwned(db)
    ensures ScoresOwned(View(db, gone))
  {
    ViewTakes(db, gone);
  }

  lemma ViewShrinks(db: DB, gone: seq<set<Id>>)
    requires |gone| <= |STEPS|
    ensures Shrinks(db, View(db, gone))
  {
    ViewTakes(db, gone);
  }

  // What a statement still finds to delete does not depend on what the ones
  // before it deleted.
  lemma ViewDooms(db: DB, gone: seq<set<Id>>, u: Id)
    requires |gone| < |STEPS|
    ensures Doomed(View(db, gone), STEPS[|gone|], u) == Doomed(db, STEPS[|gone|], u)
  {
    ViewTakes(db, gone);
    var view := View(db, gone);
    if |gone| <= 1 {
      assert OwnedResults(view, u) == OwnedResults(db, u);
      assert OwnedEvaluations(view, u) == OwnedEvaluations(db, u);
    }
  }

  // The rows taken from each table are the user's.
  ghost predicate TakesTheirs(db: DB, gone: seq<set<Id>>, v: Id) {
    forall n :: 0 <= n < |gone| <= |STEPS| ==> gone[n] * TableIds(db, STEPS[n]) <= Doomed(db, STEPS[n], v)
  }

  // The scores that were deleted by themselves are of deleted evaluations.
  ghost predicate ScoresFollow(db: DB, gone: seq<set<Id>>) {
    |gone| > 1 ==> forall k :: k in gone[0] && k in db.scores ==> db.scores[k].evaluationId in gone[1]
  }

  lemma DoomedApart(db: DB, u: Id, v: Id, t: Table)
    requires Agree(db) && u != v
    ensures Doomed(db, t, u) !! Doomed(db, t, v)
  {
    OwnedByUserId(db, u);
    OwnedByUserId(db, v);
    assert OwnedEvaluations(db, u) !! OwnedEvaluations(db, v);
  }

  lemma TakingLeaves(db: DB, gone: seq<set<Id>>, u: Id, v: Id, n: nat)
    requires Agree(db) && u != v && n < |gone| <= |STEPS| && TakesTheirs(db, gone, v)
    ensures gone[n] !! Doomed(db, STEPS[n], u)
  {
    DoomedApart(db, u, v, STEPS[n]);
    assert gone[n] * TableIds(db, STEPS[n]) <= Doomed(db, STEPS[n], v);
    DoomedAreRows(db, STEPS[n], u);
  }

  lemma OthersKeepParents(db: DB, gone: seq<set<Id>>, u: Id, v: Id)
    requires Agree(db) && u != v && |gone| == |STEPS| && TakesTheirs(db, gone, v)
    ensures var next := View(db, gone);
            && OwnedSearches(next, u) == OwnedSearches(db, u) && OwnedResults(next, u) == OwnedResults(db, u)
            && OwnedCVs(next, u) == OwnedCVs(db, u)
  {
    ViewTakes(db, gone);
    TakingLeaves(db, gone, u, v, 3);
    TakingLeaves(db, gone, u, v, 2);
    TakingLeaves(db, gone, u, v, 5);
    var next := View(db, gone);
    assert OwnedSearches(next, u) == OwnedSearches(db, u);
    assert OwnedResults(next, u) == OwnedResults(db, u);
  }

  lemma OthersKeepChildren(db: DB, gone: seq<set<Id>>, u: Id, v: Id)
    requires Agree(db) && u != v && |gone| == |STEPS| && TakesTheirs(db, gone, v)
    ensures var next := View(db, gone);
            && OwnedEvaluations(next, u) == OwnedEvaluations(db, u) && OwnedScores(next, u) == OwnedScores(db, u)
            && OwnedSections(next, u) == OwnedSections(db, u)
  {
    ViewTakes(db, gone);
    OthersKeepParents(db, gone, u, v);
    TakingLeaves(db, gone, u, v, 1);
    TakingLeaves(db, gone, u, v, 0);
    TakingLeaves(db, gone, u, v, 4);
    var next := View(db, gone);
    assert OwnedEvaluations(next, u) == OwnedEvaluations(db, u);
  }

  lemma OthersBecome(db: DB, gone: seq<set<Id>>, u: Id, v: Id, t: Table)
    requires Agree(db) && u != v && |gone| == |STEPS| && TakesTheirs(db, gone, v)
    ensures Becomes(db, View(db, gone), u, t, {}, {})
  {
    ViewTakes(db, gone);
    match t {
      case JobSearches => OthersKeepParents(db, gone, u, v);
      case SearchResults => OthersKeepParents(db, gone, u, v);
      case CVs => OthersKeepParents(db, gone, u, v);
      case EvaluationScores => OthersKeepChildren(db, gone, u, v);
      case Evaluations => OthersKeepChildren(db, gone, u, v);
      case SectionEmbeddings => OthersKeepChildren(db, gone, u, v);
      case APIKeys => TakingLeaves(db, gone, u, v, 6);
      case PortalSuggestions => TakingLeaves(db, gone, u, v, 7);
      case Users => TakingLeaves(db, gone, u, v, 8);
    }
  }

  lemma OthersKeepOldIds(db: DB, gone: seq<set<Id>>, used: set<Id>, t: Table)
    requires |gone| <= |STEPS|
    ensures OldIdsStay(db, View(db, gone), used, t, {})
  {
    ViewTakes(db, gone);
  }
}
