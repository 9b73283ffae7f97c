// What a deletion leaves behind: of the rows that are its user's when it
// commits, exactly those that others committed after the statement for their
// table.
module LateRows {
  import opened Common
  import opened Tables
  import opened Store
  import opened Worker
  import opened Account
  import opened Machine
  import opened Consistency
  import opened Locking
  import opened Belongings
  import opened LockingSteps
  import opened StepEffects
  import opened LockingInvariant

  // The user's deletion is open and has run its statement n, other than the
  // one for scores: those go again with their evaluations.
  ghost predicate Past(f: Fine, u: Id, n: nat) {
    u in f.deletions && f.deletions[u].stage.DeleteRows? && 0 < n < |f.deletions[u].stage.gone| <= |STEPS|
  }

  predicate Closes(step: Step, u: Id) {
    step == DeletionCommitted(u) || step == DeletionRolledBack(u)
  }

  // The user's rows that statement n did not delete, once it has run.
  ghost function Left(f: Fine, u: Id, n: nat): set<Id> {
    if Past(f, u, n) then Doomed(f.s.db, STEPS[n], u) - f.deletions[u].stage.gone[n] else {}
  }

  // The rows that steps added for the user since statement n.
  ghost function NextLate(f: Fine, step: Step, u: Id, n: nat, late: set<Id>): set<Id> {
    if Past(f, u, n) && !Closes(step, u) then late + Added(f, step, u, STEPS[n]) else {}
  }

  ghost function Late(c: Config, f: Fine, steps: seq<Step>, u: Id, n: nat, late: set<Id>): set<Id>
    requires IsFineRun(c, f, steps)
    decreases |steps|
  {
    if steps == [] then late else Late(c, Next(c, f, steps[0]), steps[1..], u, n, NextLate(f, steps[0], u, n, late))
  }

  // ----- what is left is what was late

  lemma SavedRowsAreNew(d: Deletion, saved: Saved, used: set<Id>, n: nat)
    requires d.stage.DeleteRows? && n < |d.stage.gone| <= |STEPS| && d.stage.gone[n] <= used
    requires saved.newScores.Keys !! used && saved.id !in GoneFrom(d, 1)
    ensures SavedRows(Some(saved), STEPS[n]) !! d.stage.gone[n]
  {
  }

  lemma RecordAddsNew(c: Config, s: Sys, t: Txn, d: Deletion, n: nat)
    requires Consistent(s) && t.Recording? && t.change.Some? && TxTrue(c, s, t) && Compatible(d, t)
    requires d.stage.DeleteRows? && n < |d.stage.gone| <= |STEPS| && d.stage.gone[n] <= s.used
    ensures SavedRows(SavedIn(t), STEPS[n]) !! d.stage.gone[n]
  {
    PendingIsProper(c, s, t);
    if SavedIn(t).Some? {
      SavedRowsAreNew(d, SavedIn(t).value, s.used, n);
    }
  }

  lemma InsertAddsNew(c: Config, f: Fine, tx: Id, u: Id, t: Table, gone: set<Id>)
    requires Consistent(f.s) && TxsTrue(c, f) && IdsApart(f) && Inserts(f, tx) && gone <= f.s.used
    ensures Added(f, Committed(tx), u, t) !! gone
  {
    InsertIsOfItsSearch(c, f, tx);
  }

  lemma CommitAddsNew(c: Config, f: Fine, tx: Id, u: Id, n: nat)
    requires Consistent(f.s) && TxsTrue(c, f) && IdsApart(f) && LocksHeld(f) && Past(f, u, n)
    requires f.deletions[u].stage.gone[n] <= f.s.used && CanStep(c, f, Committed(tx))
    ensures Added(f, Committed(tx), u, STEPS[n]) !! f.deletions[u].stage.gone[n]
  {
    if Inserts(f, tx) {
      InsertAddsNew(c, f, tx, u, STEPS[n], f.deletions[u].stage.gone[n]);
    } else if Records(f, tx) {
      assert TxTrue(c, f.s, f.open[tx]) && Compatible(f.deletions[u], f.open[tx]);
      RecordAddsNew(c, f.s, f.open[tx], f.deletions[u], n);
    }
  }

  // No step adds back a row that the deletion has deleted.
  lemma AddedAreNew(c: Config, f: Fine, step: Step, u: Id, n: nat)
    requires Inv(c, f) && CanStep(c, f, step) && Past(f, u, n)
    ensures Added(f, step, u, STEPS[n]) !! f.deletions[u].stage.gone[n]
  {
    assert DeletionHolds(f.s, u, f.deletions[u]);
    match step {
      case One(e) =>
      case Committed(tx) => CommitAddsNew(c, f, tx, u, n);
      case _ =>
    }
  }

  lemma PastStaysPast(c: Config, f: Fine, step: Step, u: Id, n: nat)
    requires CanStep(c, f, step) && Past(f, u, n) && !Closes(step, u)
    ensures Past(Next(c, f, step), u, n)
    ensures Next(c, f, step).deletions[u].stage.gone[n] == f.deletions[u].stage.gone[n]
  {
  }

  lemma OnlyStatementsGoPast(c: Config, f: Fine, step: Step, u: Id, n: nat)
    requires CanStep(c, f, step) && !Past(f, u, n) && Past(Next(c, f, step), u, n)
    ensures step == RowsDeleted(u)
  {
  }

  lemma JustPast(c: Config, f: Fine, step: Step, u: Id, n: nat)
    requires Consistent(f.s) && CanStep(c, f, step) && !Past(f, u, n) && Past(Next(c, f, step), u, n)
    ensures step == RowsDeleted(u) && Left(Next(c, f, step), u, n) == {}
  {
    OnlyStatementsGoPast(c, f, step, u, n);
    NextDoomedAreTheirs(f, u);
  }

  lemma LeftAfter(db: DB, next: DB, used: set<Id>, u: Id, t: Table, added: set<Id>, gone: set<Id>)
    requires Affects(db, next, used, u, t, {}, added) && added !! gone
    ensures Doomed(next, t, u) - gone == (Doomed(db, t, u) - gone) + added
  {
  }

  lemma OnlyScoresAreReplaced(f: Fine, step: Step, u: Id, n: nat)
    requires 0 < n < |STEPS|
    ensures Replaced(f, step, u, STEPS[n]) == {}
  {
  }

  lemma OpenDeletionLeavesLate(c: Config, f: Fine, step: Step, u: Id, n: nat)
    requires Inv(c, f) && CanStep(c, f, step) && Past(f, u, n) && !Closes(step, u)
    ensures Left(Next(c, f, step), u, n) == NextLate(f, step, u, n, Left(f, u, n))
  {
    assert DeletionHolds(f.s, u, f.deletions[u]);
    PastStaysPast(c, f, step, u, n);
    AddedAreNew(c, f, step, u, n);
    StepAffects(c, f, step, u, STEPS[n]);
    OnlyScoresAreReplaced(f, step, u, n);
    LeftAfter(f.s.db, Next(c, f, step).s.db, f.s.used, u, STEPS[n], Added(f, step, u, STEPS[n]),
              f.deletions[u].stage.gone[n]);
  }

  lemma OtherwiseNothingIsLeft(c: Config, f: Fine, step: Step, u: Id, n: nat)
    requires Consistent(f.s) && CanStep(c, f, step) && (!Past(f, u, n) || Closes(step, u))
    ensures Left(Next(c, f, step), u, n) == {}
  {
    if Past(Next(c, f, step), u, n) {
      JustPast(c, f, step, u, n);
    }
  }

  lemma StepLeavesLate(c: Config, f: Fine, step: Step, u: Id, n: nat)
    requires Inv(c, f) && CanStep(c, f, step)
    ensures Left(Next(c, f, step), u, n) == NextLate(f, step, u, n, Left(f, u, n))
  {
    if Past(f, u, n) && !Closes(step, u) {
      OpenDeletionLeavesLate(c, f, step, u, n);
    } else {
      OtherwiseNothingIsLeft(c, f, step, u, n);
    }
  }

  lemma {:induction false} LeftIsLate(c: Config, f: Fine, steps: seq<Step>, u: Id, n: nat)
    requires Inv(c, f) && IsFineRun(c, f, steps)
    ensures Left(FineEnd(c, f, steps), u, n) == Late(c, f, steps, u, n, Left(f, u, n))
    decreases |steps|
  {
    if steps != [] {
      StepKeepsInv(c, f, steps[0]);
      StepLeavesLate(c, f, steps[0], u, n);
      LeftIsLate(c, Next(c, f, steps[0]), steps[1..], u, n);
    }
  }

  lemma ViewLeaves(db: DB, gone: seq<set<Id>>, u: Id, n: nat)
    requires |gone| == |STEPS| && 0 < n < |STEPS|
    ensures TableIds(View(db, gone), STEPS[n]) * Doomed(db, STEPS[n], u) == Doomed(db, STEPS[n], u) - gone[n]
  {
    ViewTakes(db, gone);
    TakingIds(db, gone, n);
    DoomedAreRows(db, STEPS[n], u);
  }

  lemma CommitLeavesLeft(c: Config, f: Fine, u: Id, n: nat)
    requires CanStep(c, f, DeletionCommitted(u)) && 0 < n < |STEPS|
    ensures TableIds(Next(c, f, DeletionCommitted(u)).s.db, STEPS[n]) * Doomed(f.s.db, STEPS[n], u) == Left(f, u, n)
  {
    ViewLeaves(f.s.db, f.deletions[u].stage.gone, u, n);
  }

  // Of the scores the commit leaves those of the evaluations it leaves.
  lemma CommitLeavesScoresOfLeft(c: Config, f: Fine, u: Id)
    requires Inv(c, f) && CanStep(c, f, DeletionCommitted(u))
    ensures Next(c, f, DeletionCommitted(u)).s.db.scores.Keys * OwnedScores(f.s.db, u) == Cascaded(f.s.db, Left(f, u, 1))
  {
    assert DeletionHolds(f.s, u, f.deletions[u]);
    ViewTakes(f.s.db, f.deletions[u].stage.gone);
    assert Left(f, u, 1) == OwnedEvaluations(f.s.db, u) - f.deletions[u].stage.gone[1];
  }

  // An evaluation of the user stays behind without its result exactly when it
  // was late and the result was not.
  lemma OrphanedExactlyWhen(c: Config, f: Fine, u: Id, e: Id)
    requires CanStep(c, f, DeletionCommitted(u)) && e in OwnedEvaluations(f.s.db, u)
    requires f.s.db.evaluations[e].resultId in f.s.db.results
    ensures var next := Next(c, f, DeletionCommitted(u)).s.db;
            e in next.evaluations && next.evaluations[e].resultId !in next.results
            <==> e in Left(f, u, 1) && f.s.db.evaluations[e].resultId in f.deletions[u].stage.gone[2]
  {
    ViewTakes(f.s.db, f.deletions[u].stage.gone);
  }

  // For any run: of the rows that are the user's at the commit of the
  // deletion, the commit leaves exactly the late ones, and scores exactly of
  // late evaluations.
  lemma DeletionLeavesExactlyTheLate(c: Config, f: Fine, steps: seq<Step>, u: Id, n: nat)
    requires FineInitial(f) && IsFineRun(c, f, steps) && CanStep(c, FineEnd(c, f, steps), DeletionCommitted(u)) && n < |STEPS|
    ensures var end := FineEnd(c, f, steps);
            TableIds(Next(c, end, DeletionCommitted(u)).s.db, STEPS[n]) * Doomed(end.s.db, STEPS[n], u)
              == if n == 0 then Cascaded(end.s.db, Late(c, f, steps, u, 1, {})) else Late(c, f, steps, u, n, {})
  {
    InitialHolds(c, f);
    if n == 0 {
      RunKeepsInv(c, f, steps);
      LeftIsLate(c, f, steps, u, 1);
      CommitLeavesScoresOfLeft(c, FineEnd(c, f, steps), u);
    } else {
      LeftIsLate(c, f, steps, u, n);
      CommitLeavesLeft(c, FineEnd(c, f, steps), u, n);
    }
  }

  // ----- which steps are late

  // No step since statement n has added a row for the user; `so` says whether
  // that was so before.
  ghost predicate NoneLate(c: Config, f: Fine, steps: seq<Step>, u: Id, n: nat, so: bool)
    requires IsFineRun(c, f, steps)
    decreases |steps|
  {
    if steps == [] then so
    else NoneLate(c, Next(c, f, steps[0]), steps[1..], u, n,
                  if Past(f, u, n) && !Closes(steps[0], u) then so && Added(f, steps[0], u, STEPS[n]) == {} else true)
  }

  // Late rows stay.
  lemma {:induction false} NoLateRowsExactlyWhen(c: Config, f: Fine, steps: seq<Step>, u: Id, n: nat, late: set<Id>)
    requires IsFineRun(c, f, steps)
    ensures Late(c, f, steps, u, n, late) == {} <==> NoneLate(c, f, steps, u, n, late == {})
    decreases |steps|
  {
    if steps != [] {
      NoLateRowsExactlyWhen(c, Next(c, f, steps[0]), steps[1..], u, n, NextLate(f, steps[0], u, n, late));
    }
  }

  // Only users themselves are never added again.
  lemma {:induction false} UserIsNeverLate(c: Config, f: Fine, steps: seq<Step>, u: Id)
    requires IsFineRun(c, f, steps)
    ensures NoneLate(c, f, steps, u, 8, true)
    decreases |steps|
  {
    if steps != [] {
      UserIsNeverLate(c, Next(c, f, steps[0]), steps[1..], u);
    }
  }

  // While a deletion was past its statement for a table, no step added its user
  // a result, search, section, CV, key or suggestion there.
  ghost predicate NothingSlippedIn(c: Config, f: Fine, steps: seq<Step>, u: Id)
    requires IsFineRun(c, f, steps)
  {
    forall n: nat :: 2 <= n <= 7 ==> NoneLate(c, f, steps, u, n, true)
  }

  // For any run and every table: the commit leaves no row that is the user's
  // exactly when no step added one while the deletion was past its statement
  // for that table; there are no scores without evaluations.
  lemma LeavesNoneExactlyWhen(c: Config, f: Fine, steps: seq<Step>, u: Id, n: nat)
    requires FineInitial(f) && IsFineRun(c, f, steps) && CanStep(c, FineEnd(c, f, steps), DeletionCommitted(u)) && 0 < n < |STEPS|
    ensures var end := FineEnd(c, f, steps);
            TableIds(Next(c, end, DeletionCommitted(u)).s.db, STEPS[n]) * Doomed(end.s.db, STEPS[n], u) == {}
            <==> NoneLate(c, f, steps, u, n, true)
  {
    DeletionLeavesExactlyTheLate(c, f, steps, u, n);
    NoLateRowsExactlyWhen(c, f, steps, u, n, {});
  }

  // A step adds a result, evaluation or score of the user exactly when it
  // commits the insert into a search of theirs, or an evaluation of a result
  // of theirs; the deletion has not locked that search or result.
  lemma LateResultExactlyWhen(c: Config, f: Fine, step: Step, u: Id)
    requires Inv(c, f) && CanStep(c, f, step)
    ensures Added(f, step, u, SearchResults) != {} <==>
              step.Committed? && Inserts(f, step.tx) && f.open[step.tx].searchId in OwnedSearches(f.s.db, u)
    ensures Added(f, step, u, SearchResults) != {} && u in f.deletions ==>
              f.open[step.tx].searchId !in f.deletions[u].searchLocks
  {
    if step.Committed? && Inserts(f, step.tx) {
      InsertIsOfItsSearch(c, f, step.tx);
      assert TxTrue(c, f.s, f.open[step.tx]);
      assert u in f.deletions ==> Compatible(f.deletions[u], f.open[step.tx]);
    }
  }

  lemma LateEvaluationExactlyWhen(c: Config, f: Fine, step: Step, u: Id)
    requires Consistent(f.s) && TxsTrue(c, f) && LocksHeld(f) && CanStep(c, f, step)
    ensures Added(f, step, u, Evaluations) != {} <==>
              && step.Committed? && Records(f, step.tx) && f.open[step.tx].id in OwnedResults(f.s.db, u)
              && Saves(f.open[step.tx].event.out)
    ensures Added(f, step, u, Evaluations) != {} && u in f.deletions ==>
              f.open[step.tx].id !in f.deletions[u].resultLocks
  {
    if step.Committed? && Records(f, step.tx) {
      assert TxTrue(c, f.s, f.open[step.tx]);
      SavedExactlyWhen(c, f.s, f.open[step.tx], u);
      assert u in f.deletions ==> Compatible(f.deletions[u], f.open[step.tx]);
    }
  }

  // ... with scores exactly when the answer scored a criterion.
  lemma LateScoresExactlyWhen(c: Config, f: Fine, step: Step, u: Id)
    requires Consistent(f.s) && TxsTrue(c, f) && CanStep(c, f, step)
    ensures Added(f, step, u, EvaluationScores) != {} <==>
              Added(f, step, u, Evaluations) != {} && Breakdown(f.open[step.tx].event.out) != []
  {
    if step.Committed? && Records(f, step.tx) {
      assert TxTrue(c, f.s, f.open[step.tx]);
      SavedExactlyWhen(c, f.s, f.open[step.tx], u);
    }
  }

  lemma SavedExactlyWhen(c: Config, s: Sys, t: Txn, u: Id)
    requires Consistent(s) && t.Recording? && t.change.Some? && TxTrue(c, s, t)
    ensures t.event.ResultWritten? && (SavedIn(t).Some? <==> Saves(t.event.out))
    ensures t.id in s.db.results && (t.id in OwnedResults(s.db, u) <==> s.db.results[t.id].userId == u)
    ensures SavedIn(t).Some? ==> (SavedIn(t).value.newScores.Keys == {} <==> Breakdown(t.event.out) == [])
  {
    PendingIsProper(c, s, t);
    OwnedByUserId(s.db, u);
    if Saves(t.event.out) {
      SavedScoresAreTheBreakdown(c, s, t);
    }
  }

  lemma SavedScoresAreTheBreakdown(c: Config, s: Sys, t: Txn)
    requires t.Recording? && t.change.Some? && TxTrue(c, s, t) && Saves(t.event.out)
    ensures SavedIn(t).Some? && (SavedIn(t).value.newScores.Keys == {} <==> Breakdown(t.event.out) == [])
  {
    var b := Breakdown(t.event.out);
    if b != [] {
      assert t.event.scoreIds[0] in SavedIn(t).value.newScores;
    }
  }
}
