// Deleting an account at the granularity of row locks: when the machine with
// locks refines the machine of atomic events, and when a deleted user stays
// deleted.
module DeletionSafety {
  import opened Common
  import opened Tables
  import opened Account
  import opened Machine
  import opened Integrity
  import opened Reachable
  import opened Locking
  import opened Belongings
  import opened LockingSteps
  import opened StepEffects
  import opened LockingInvariant
  import opened LateRows

  // ----- one commit

  // The deletion has deleted all that is its user's by now: the rows of every
  // table but that of the scores, and so the scores.
  ghost predicate LeavesNothing(f: Fine, u: Id)
    requires Deletes(f, u)
  {
    AllGone(f.s.db, f.deletions[u].stage.gone, u)
  }

  ghost predicate AllGone(db: DB, gone: seq<set<Id>>, u: Id)
    requires |gone| == |STEPS|
  {
    forall n :: 1 <= n < |STEPS| ==> Doomed(db, STEPS[n], u) <= gone[n]
  }

  lemma TakingAllIsRemoving(db: DB, gone: seq<set<Id>>, u: Id)
    requires |gone| == |STEPS| && TakesTheirs(db, gone, u) && ScoresFollow(db, gone) && ScoresOwned(db)
    ensures Taking(db, gone) == Removed(db, u, |STEPS|) <==> AllGone(db, gone, u)
  {
    if Taking(db, gone) == Removed(db, u, |STEPS|) {
      forall n | 1 <= n < |STEPS|
        ensures Doomed(db, STEPS[n], u) <= gone[n]
      {
        TakingIds(db, gone, n);
        IdsLeft(db, u, n);
        DoomedAreRows(db, STEPS[n], u);
        assert TableIds(db, STEPS[n]) - gone[n] == TableIds(db, STEPS[n]) - Doomed(db, STEPS[n], u);
      }
    } else if AllGone(db, gone, u) {
      TakingEachIsRemoving(db, gone, u);
    }
  }

  lemma TakingScores(db: DB, gone: seq<set<Id>>, u: Id)
    requires |gone| == |STEPS| && TakesTheirs(db, gone, u) && ScoresFollow(db, gone) && ScoresOwned(db)
    requires OwnedEvaluations(db, u) <= gone[1]
    ensures db.scores - gone[0] - Cascaded(db, gone[1]) == db.scores - OwnedScores(db, u)
  {
    assert gone[1] * TableIds(db, STEPS[1]) <= Doomed(db, STEPS[1], u);
    assert Cascaded(db, gone[1]) == OwnedScores(db, u);
  }

  lemma TakingEachIsRemoving(db: DB, gone: seq<set<Id>>, u: Id)
    requires |gone| == |STEPS| && TakesTheirs(db, gone, u) && ScoresFollow(db, gone) && ScoresOwned(db)
    requires AllGone(db, gone, u)
    ensures Taking(db, gone) == Removed(db, u, |STEPS|)
  {
    assert Doomed(db, STEPS[1], u) <= gone[1];
    TakingScores(db, gone, u);
    assert db.evaluations - gone[1] == db.evaluations - Doomed(db, STEPS[1], u);
    assert db.results - gone[2] == db.results - Doomed(db, STEPS[2], u);
    assert db.searches - gone[3] == db.searches - Doomed(db, STEPS[3], u);
    assert db.sections - gone[4] == db.sections - Doomed(db, STEPS[4], u);
    assert db.cvs - gone[5] == db.cvs - Doomed(db, STEPS[5], u);
    assert db.apiKeys - gone[6] == db.apiKeys - Doomed(db, STEPS[6], u);
    assert db.suggestions - gone[7] == db.suggestions - Doomed(db, STEPS[7], u);
    assert db.users - gone[8] == db.users - Doomed(db, STEPS[8], u);
  }

  // The statements, run one by one among the steps of others, do what the
  // deletion would do in one piece at its commit exactly when nothing is left.
  lemma CommitIsAtomicExactlyWhen(c: Config, f: Fine, u: Id)
    requires Inv(c, f) && CanStep(c, f, DeletionCommitted(u))
    ensures Can(c, f.s, Serving(AccountDeleted(u)))
    ensures Next(c, f, DeletionCommitted(u)).s == After(c, f.s, Serving(AccountDeleted(u))) <==> LeavesNothing(f, u)
  {
    assert DeletionHolds(f.s, u, f.deletions[u]);
    ViewTakes(f.s.db, f.deletions[u].stage.gone);
    StepsRemove(f.s.db, u, |STEPS|);
    TakingAllIsRemoving(f.s.db, f.deletions[u].stage.gone, u);
  }

  // ----- refinement

  // The atomic event a step amounts to, if it shows at all.
  ghost function Shown(f: Fine, step: Step): seq<Event> {
    match step
    case One(e) => [e]
    case Committed(tx) =>
      if Inserts(f, tx) then [StoredBy(f, tx)]
      else if Records(f, tx) then [Working(f.open[tx].event)]
      else []
    case DeletionCommitted(u) => [Serving(AccountDeleted(u))]
    case _ => []
  }

  ghost predicate Refines(c: Config, f: Fine, step: Step)
    requires CanStep(c, f, step)
  {
    IsRun(c, f.s, Shown(f, step)) && End(c, f.s, Shown(f, step)) == Next(c, f, step).s
  }

  lemma CommitRefines(c: Config, f: Fine, tx: Id)
    requires TxsTrue(c, f) && IdsApart(f) && CanStep(c, f, Committed(tx))
    ensures Refines(c, f, Committed(tx))
  {
    if Inserts(f, tx) {
      InsertIsStored(c, f, tx);
      OneEvent(c, f.s, StoredBy(f, tx));
    } else if Records(f, tx) {
      RecordIsWritten(c, f, tx);
      OneEvent(c, f.s, Working(f.open[tx].event));
    }
  }

  lemma DeletionRefinesExactlyWhen(c: Config, f: Fine, u: Id)
    requires Inv(c, f) && CanStep(c, f, DeletionCommitted(u))
    ensures Refines(c, f, DeletionCommitted(u)) <==> LeavesNothing(f, u)
  {
    CommitIsAtomicExactlyWhen(c, f, u);
    OneEvent(c, f.s, Serving(AccountDeleted(u)));
  }

  lemma OtherStepRefines(c: Config, f: Fine, step: Step)
    requires CanStep(c, f, step) && !step.Committed? && !step.DeletionCommitted?
    ensures Refines(c, f, step)
  {
    match step {
      case One(e) => OneEvent(c, f.s, e);
      case _ =>
    }
  }

  // Every step is its atomic event, or shows nothing; only the commit of a
  // deletion that leaves something is not.
  lemma StepRefinesExactlyWhen(c: Config, f: Fine, step: Step)
    requires Inv(c, f) && CanStep(c, f, step)
    ensures Refines(c, f, step) <==> (step.DeletionCommitted? ==> LeavesNothing(f, step.u))
  {
    if step.Committed? {
      CommitRefines(c, f, step.tx);
    } else if step.DeletionCommitted? {
      DeletionRefinesExactlyWhen(c, f, step.u);
    } else {
      OtherStepRefines(c, f, step);
    }
  }

  ghost function Trace(c: Config, f: Fine, steps: seq<Step>): seq<Event>
    requires IsFineRun(c, f, steps)
    decreases |steps|
  {
    if steps == [] then [] else Shown(f, steps[0]) + Trace(c, Next(c, f, steps[0]), steps[1..])
  }

  // Every deletion that commits in the run leaves nothing.
  ghost predicate CleanRun(c: Config, f: Fine, steps: seq<Step>)
    requires IsFineRun(c, f, steps)
    decreases |steps|
  {
    steps == []
    || ((steps[0].DeletionCommitted? ==> LeavesNothing(f, steps[0].u)) && CleanRun(c, Next(c, f, steps[0]), steps[1..]))
  }

  ghost predicate RefinesThroughout(c: Config, f: Fine, steps: seq<Step>)
    requires IsFineRun(c, f, steps)
    decreases |steps|
  {
    steps == [] || (Refines(c, f, steps[0]) && RefinesThroughout(c, Next(c, f, steps[0]), steps[1..]))
  }

  // Whatever the interleaving of locks, writes, commits and rollbacks: all
  // steps of a run are atomic events exactly when no deletion leaves anything.
  lemma {:induction false} TransactionsAreAtomicExactlyWhen(c: Config, f: Fine, steps: seq<Step>)
    requires Inv(c, f) && IsFineRun(c, f, steps)
    ensures RefinesThroughout(c, f, steps) <==> CleanRun(c, f, steps)
    decreases |steps|
  {
    if steps != [] {
      StepKeepsInv(c, f, steps[0]);
      StepRefinesExactlyWhen(c, f, steps[0]);
      TransactionsAreAtomicExactlyWhen(c, Next(c, f, steps[0]), steps[1..]);
    }
  }

  lemma {:induction false} StepsMakeTheTrace(c: Config, f: Fine, steps: seq<Step>)
    requires IsFineRun(c, f, steps) && RefinesThroughout(c, f, steps)
    ensures IsRun(c, f.s, Trace(c, f, steps)) && End(c, f.s, Trace(c, f, steps)) == FineEnd(c, f, steps).s
    decreases |steps|
  {
    if steps != [] {
      StepsMakeTheTrace(c, Next(c, f, steps[0]), steps[1..]);
      RunsJoin(c, f.s, Shown(f, steps[0]), Trace(c, Next(c, f, steps[0]), steps[1..]));
    }
  }

  // So all that holds in every reachable state of the atomic machine holds of
  // what is committed at any moment of such a run.
  lemma CommittedStateIsReachable(c: Config, f: Fine, steps: seq<Step>)
    requires FineInitial(f) && IsFineRun(c, f, steps) && CleanRun(c, f, steps)
    ensures Initial(f.s) && IsRun(c, f.s, Trace(c, f, steps))
    ensures End(c, f.s, Trace(c, f, steps)) == FineEnd(c, f, steps).s && Good(FineEnd(c, f, steps).s)
  {
    InitialHolds(c, f);
    TransactionsAreAtomicExactlyWhen(c, f, steps);
    StepsMakeTheTrace(c, f, steps);
    ReachableIsGood(c, f.s, Trace(c, f, steps));
  }

  lemma TakingAllErases(db: DB, gone: seq<set<Id>>, u: Id)
    requires Owned(db) && |gone| == |STEPS| && TakesTheirs(db, gone, u) && ScoresFollow(db, gone) && AllGone(db, gone, u)
    ensures View(db, gone) == Erased(db, u)
  {
    ViewTakes(db, gone);
    TakingEachIsRemoving(db, gone, u);
    StepsRemove(db, u, |STEPS|);
    DeleteErases(db, u);
  }

  lemma CommitShowsView(c: Config, f: Fine, u: Id)
    requires Deletes(f, u)
    ensures CanStep(c, f, DeletionCommitted(u))
    ensures Next(c, f, DeletionCommitted(u)).s == f.s.(db := View(f.s.db, f.deletions[u].stage.gone))
  {
  }

  lemma LeavingNothingErases(c: Config, f: Fine, u: Id)
    requires DeletionsHold(f) && Owned(f.s.db) && Deletes(f, u) && LeavesNothing(f, u)
    ensures Next(c, f, DeletionCommitted(u)).s == f.s.(db := Erased(f.s.db, u))
  {
    assert DeletionHolds(f.s, u, f.deletions[u]);
    TakingAllErases(f.s.db, f.deletions[u].stage.gone, u);
    CommitShowsView(c, f, u);
  }

  // In such a run a deletion's commit erases its user and nothing else: all
  // rows of other users and all jobs are as committed by then.
  lemma CleanCommitErases(c: Config, f: Fine, steps: seq<Step>, u: Id)
    requires FineInitial(f) && IsFineRun(c, f, steps) && CleanRun(c, f, steps)
    requires Deletes(FineEnd(c, f, steps), u) && LeavesNothing(FineEnd(c, f, steps), u)
    ensures var end := FineEnd(c, f, steps);
            Next(c, end, DeletionCommitted(u)).s == end.s.(db := Erased(end.s.db, u))
  {
    CommittedStateIsReachable(c, f, steps);
    InitialHolds(c, f);
    RunKeepsInv(c, f, steps);
    LeavingNothingErases(c, FineEnd(c, f, steps), u);
  }

  // ----- when nothing is left

  lemma NoneOutside(a: set<Id>, b: set<Id>)
    ensures a - b == {} <==> a <= b
  {
    assert a - b == {} ==> forall x :: x in a && x !in b ==> x in a - b;
  }

  lemma LeavesNothingLeft(f: Fine, u: Id)
    requires Deletes(f, u)
    ensures LeavesNothing(f, u) <==> forall n: nat :: 0 < n < |STEPS| ==> Left(f, u, n) == {}
  {
    forall n: nat | 0 < n < |STEPS|
      ensures Left(f, u, n) == {} <==> Doomed(f.s.db, STEPS[n], u) <= f.deletions[u].stage.gone[n]
    {
      NoneOutside(Doomed(f.s.db, STEPS[n], u), f.deletions[u].stage.gone[n]);
    }
  }

  // Whether statement n missed nothing, by what was late.
  lemma LeftExactlyWhen(c: Config, f: Fine, steps: seq<Step>, u: Id, n: nat)
    requires FineInitial(f) && IsFineRun(c, f, steps) && 0 < n < |STEPS|
    ensures Left(FineEnd(c, f, steps), u, n) == {} <==> NoneLate(c, f, steps, u, n, true)
    ensures n == 8 ==> Left(FineEnd(c, f, steps), u, n) == {}
  {
    InitialHolds(c, f);
    LeftIsLate(c, f, steps, u, n);
    NoLateRowsExactlyWhen(c, f, steps, u, n, {});
    UserIsNeverLate(c, f, steps, u);
  }

  lemma NothingLeftExactlyWhen(f: Fine, u: Id)
    requires Deletes(f, u) && Left(f, u, 8) == {}
    ensures LeavesNothing(f, u) <==> Left(f, u, 1) == {} && NothingElseLeft(f, u)
  {
    LeavesNothingLeft(f, u);
  }

  // Nothing but evaluations, and the scores of those, is left.
  ghost predicate NothingElseLeft(f: Fine, u: Id) {
    forall n: nat :: 2 <= n <= 7 ==> Left(f, u, n) == {}
  }

  lemma NothingElseLeftExactlyWhen(c: Config, f: Fine, steps: seq<Step>, u: Id)
    requires FineInitial(f) && IsFineRun(c, f, steps)
    ensures NothingElseLeft(FineEnd(c, f, steps), u) <==> NothingSlippedIn(c, f, steps, u)
  {
    if NothingElseLeft(FineEnd(c, f, steps), u) {
      forall n: nat | 2 <= n <= 7
        ensures NoneLate(c, f, steps, u, n, true)
      {
        LeftExactlyWhen(c, f, steps, u, n);
      }
    }
    if NothingSlippedIn(c, f, steps, u) {
      forall n: nat | 2 <= n <= 7
        ensures Left(FineEnd(c, f, steps), u, n) == {}
      {
        LeftExactlyWhen(c, f, steps, u, n);
      }
    }
  }

  // For any run: its deletion leaves nothing exactly when no step slipped an
  // evaluation, or any row of another table, past the statement for those.
  lemma LeavesNothingExactlyWhen(c: Config, f: Fine, steps: seq<Step>, u: Id)
    requires FineInitial(f) && IsFineRun(c, f, steps) && Deletes(FineEnd(c, f, steps), u)
    ensures LeavesNothing(FineEnd(c, f, steps), u) <==>
              NoneLate(c, f, steps, u, 1, true) && NothingSlippedIn(c, f, steps, u)
  {
    LeftExactlyWhen(c, f, steps, u, 1);
    LeftExactlyWhen(c, f, steps, u, 8);
    NothingElseLeftExactlyWhen(c, f, steps, u);
    NothingLeftExactlyWhen(FineEnd(c, f, steps), u);
  }

  // ----- when the locks suffice

  // The locks cover the rows the deletion is to delete.
  ghost predicate Covers(db: DB, u: Id, d: Deletion) {
    match d.stage
    case LockSearches(todo) => OwnedSearches(db, u) <= todo + d.searchLocks
    case LockResults(todo) => OwnedSearches(db, u) <= d.searchLocks && OwnedResults(db, u) <= todo + d.resultLocks
    case DeleteRows(_) => OwnedSearches(db, u) <= d.searchLocks && OwnedResults(db, u) <= d.resultLocks
  }

  ghost predicate Covered(f: Fine, u: Id) {
    u in f.deletions ==> Covers(f.s.db, u, f.deletions[u])
  }

  // While the user's deletion is open, the step adds no search of theirs, and
  // no section, CV, key or suggestion once those are deleted.
  ghost predicate LetsDelete(f: Fine, step: Step, u: Id) {
    && (u in f.deletions ==> Added(f, step, u, JobSearches) == {})
    && forall n: nat :: 3 < n && Past(f, u, n) ==> Added(f, step, u, STEPS[n]) == {}
  }

  ghost predicate LetsDeleteThroughout(c: Config, f: Fine, steps: seq<Step>, u: Id)
    requires IsFineRun(c, f, steps)
    decreases |steps|
  {
    steps == [] || (LetsDelete(f, steps[0], u) && LetsDeleteThroughout(c, Next(c, f, steps[0]), steps[1..], u))
  }

  lemma LockedSearchesGetNoResults(c: Config, f: Fine, step: Step, u: Id)
    requires Inv(c, f) && CanStep(c, f, step) && u in f.deletions && OwnedSearches(f.s.db, u) <= f.deletions[u].searchLocks
    ensures Added(f, step, u, SearchResults) == {}
  {
    LateResultExactlyWhen(c, f, step, u);
  }

  lemma LockedResultsGetNoEvaluations(c: Config, f: Fine, step: Step, u: Id)
    requires Inv(c, f) && CanStep(c, f, step) && u in f.deletions && OwnedResults(f.s.db, u) <= f.deletions[u].resultLocks
    ensures Added(f, step, u, Evaluations) == {}
  {
    LateEvaluationExactlyWhen(c, f, step, u);
  }

  // What is locked gets no new result and no evaluation.
  lemma CoveredAddNothing(c: Config, f: Fine, step: Step, u: Id, n: nat)
    requires Inv(c, f) && CanStep(c, f, step) && Covered(f, u) && LetsDelete(f, step, u) && Past(f, u, n)
    ensures Added(f, step, u, STEPS[n]) == {}
  {
    if n == 1 {
      LockedResultsGetNoEvaluations(c, f, step, u);
    } else if n == 2 {
      LockedSearchesGetNoResults(c, f, step, u);
    }
  }

  lemma CoveredLeaveNothing(c: Config, f: Fine, step: Step, u: Id, n: nat)
    requires Inv(c, f) && CanStep(c, f, step) && Covered(f, u) && LetsDelete(f, step, u) && Left(f, u, n) == {}
    ensures Left(Next(c, f, step), u, n) == {}
  {
    StepLeavesLate(c, f, step, u, n);
    if Past(f, u, n) {
      CoveredAddNothing(c, f, step, u, n);
    }
  }

  lemma LockingKeepsCovered(c: Config, f: Fine, step: Step)
    requires CanStep(c, f, step) && (step.DeletionBegun? || step.SearchLocked? || step.SearchesLocked?) && Covered(f, step.u)
    ensures Covered(Next(c, f, step), step.u)
  {
  }

  lemma DeletingKeepsCovered(c: Config, f: Fine, step: Step)
    requires CanStep(c, f, step) && (step.ResultLocked? || step.ResultsLocked? || step.RowsDeleted?) && Covered(f, step.u)
    ensures Covered(Next(c, f, step), step.u)
  {
  }

  lemma DeletionStepKeepsCovered(c: Config, f: Fine, step: Step)
    requires CanStep(c, f, step) && IsDeletionStep(step) && Covered(f, step.u)
    ensures Covered(Next(c, f, step), step.u)
  {
    if step.DeletionBegun? || step.SearchLocked? || step.SearchesLocked? {
      LockingKeepsCovered(c, f, step);
    } else {
      DeletingKeepsCovered(c, f, step);
    }
  }

  lemma StaysClosed(c: Config, f: Fine, step: Step, u: Id)
    requires CanStep(c, f, step) && (u !in f.deletions || Closes(step, u)) && !(IsDeletionStep(step) && step.u == u)
    ensures u !in Next(c, f, step).deletions
  {
  }

  lemma StepKeepsCovered(c: Config, f: Fine, step: Step, u: Id)
    requires Inv(c, f) && CanStep(c, f, step) && Covered(f, u) && LetsDelete(f, step, u)
    ensures Covered(Next(c, f, step), u)
  {
    if IsDeletionStep(step) && step.u == u {
      DeletionStepKeepsCovered(c, f, step);
    } else if u in f.deletions && !Closes(step, u) {
      OthersKeepCovered(c, f, step, u);
    } else {
      StaysClosed(c, f, step, u);
    }
  }

  lemma NoneAdded(db: DB, next: DB, used: set<Id>, u: Id, t: Table, replaced: set<Id>, added: set<Id>)
    requires Affects(db, next, used, u, t, replaced, added) && added == {}
    ensures Doomed(next, t, u) <= Doomed(db, t, u)
  {
  }

  // A step that adds the user no row of a table leaves them no other ones.
  lemma AddingNoneKeepsTheirs(c: Config, f: Fine, step: Step, u: Id, t: Table)
    requires Inv(c, f) && CanStep(c, f, step) && step != DeletionCommitted(u) && !t.Users?
    requires Added(f, step, u, t) == {}
    ensures Doomed(Next(c, f, step).s.db, t, u) <= Doomed(f.s.db, t, u)
  {
    StepAffects(c, f, step, u, t);
    NoneAdded(f.s.db, Next(c, f, step).s.db, f.s.used, u, t, Replaced(f, step, u, t), Added(f, step, u, t));
  }

  lemma FewerStayCovered(db: DB, next: DB, u: Id, d: Deletion)
    requires Covers(db, u, d) && OwnedSearches(next, u) <= OwnedSearches(db, u)
    requires !d.stage.LockSearches? ==> OwnedResults(next, u) <= OwnedResults(db, u)
    ensures Covers(next, u, d)
  {
  }

  lemma LockedResultsStay(c: Config, f: Fine, step: Step, u: Id)
    requires Inv(c, f) && CanStep(c, f, step) && u in f.deletions && step != DeletionCommitted(u)
    requires OwnedSearches(f.s.db, u) <= f.deletions[u].searchLocks
    ensures OwnedResults(Next(c, f, step).s.db, u) <= OwnedResults(f.s.db, u)
  {
    LockedSearchesGetNoResults(c, f, step, u);
    AddingNoneKeepsTheirs(c, f, step, u, SearchResults);
  }

  lemma OthersKeepCovers(c: Config, f: Fine, step: Step, u: Id)
    requires Inv(c, f) && CanStep(c, f, step) && u in f.deletions && step != DeletionCommitted(u)
    requires Covers(f.s.db, u, f.deletions[u]) && Added(f, step, u, JobSearches) == {}
    ensures Covers(Next(c, f, step).s.db, u, f.deletions[u])
  {
    AddingNoneKeepsTheirs(c, f, step, u, JobSearches);
    if !f.deletions[u].stage.LockSearches? {
      LockedResultsStay(c, f, step, u);
    }
    FewerStayCovered(f.s.db, Next(c, f, step).s.db, u, f.deletions[u]);
  }

  lemma OthersKeepCovered(c: Config, f: Fine, step: Step, u: Id)
    requires Inv(c, f) && CanStep(c, f, step) && Covered(f, u) && Added(f, step, u, JobSearches) == {}
    requires u in f.deletions && !Closes(step, u) && !(IsDeletionStep(step) && step.u == u)
    ensures Covered(Next(c, f, step), u)
  {
    OthersKeepCovers(c, f, step, u);
    SameDeletion(c, f, step, u);
  }

  lemma SameDeletion(c: Config, f: Fine, step: Step, u: Id)
    requires CanStep(c, f, step) && u in f.deletions && !Closes(step, u) && !(IsDeletionStep(step) && step.u == u)
    ensures u in Next(c, f, step).deletions && Next(c, f, step).deletions[u] == f.deletions[u]
  {
  }

  // The locks cover what is to be deleted, and nothing has slipped past.
  ghost predicate Safe(f: Fine, u: Id) {
    Covered(f, u) && forall n: nat :: Left(f, u, n) == {}
  }

  lemma StepKeepsSafe(c: Config, f: Fine, step: Step, u: Id)
    requires Inv(c, f) && CanStep(c, f, step) && Safe(f, u) && LetsDelete(f, step, u)
    ensures Safe(Next(c, f, step), u)
  {
    StepKeepsCovered(c, f, step, u);
    forall n: nat
      ensures Left(Next(c, f, step), u, n) == {}
    {
      CoveredLeaveNothing(c, f, step, u, n);
    }
  }

  // The locks suffice as long as the user adds no search while the deletion is
  // open, and no section, CV, key or suggestion once it has deleted those: then
  // nothing slips past, whatever workers and search runs do.
  lemma {:induction false} LocksSuffice(c: Config, f: Fine, steps: seq<Step>, u: Id)
    requires Inv(c, f) && IsFineRun(c, f, steps) && Safe(f, u) && LetsDeleteThroughout(c, f, steps, u)
    ensures Safe(FineEnd(c, f, steps), u)
    decreases |steps|
  {
    if steps != [] {
      StepKeepsInv(c, f, steps[0]);
      StepKeepsSafe(c, f, steps[0], u);
      LocksSuffice(c, Next(c, f, steps[0]), steps[1..], u);
    }
  }

  // Everybody lets their deletion delete.
  ghost predicate Quiet(f: Fine, step: Step) {
    forall u :: LetsDelete(f, step, u)
  }

  ghost predicate QuietRun(c: Config, f: Fine, steps: seq<Step>)
    requires IsFineRun(c, f, steps)
    decreases |steps|
  {
    steps == [] || (Quiet(f, steps[0]) && QuietRun(c, Next(c, f, steps[0]), steps[1..]))
  }

  ghost predicate AllSafe(f: Fine) {
    forall u :: Safe(f, u)
  }

  lemma StepKeepsAllSafe(c: Config, f: Fine, step: Step)
    requires Inv(c, f) && CanStep(c, f, step) && AllSafe(f) && Quiet(f, step)
    ensures AllSafe(Next(c, f, step))
  {
    forall u
      ensures Safe(Next(c, f, step), u)
    {
      assert LetsDelete(f, step, u) && Safe(f, u);
      StepKeepsSafe(c, f, step, u);
    }
  }

  lemma SafeStepIsClean(c: Config, f: Fine, step: Step)
    requires AllSafe(f) && CanStep(c, f, step)
    ensures step.DeletionCommitted? ==> LeavesNothing(f, step.u)
  {
    if step.DeletionCommitted? {
      assert Safe(f, step.u);
      LeavesNothingLeft(f, step.u);
    }
  }

  lemma {:induction false} SafeRunsAreClean(c: Config, f: Fine, steps: seq<Step>)
    requires Inv(c, f) && AllSafe(f) && IsFineRun(c, f, steps) && QuietRun(c, f, steps)
    ensures CleanRun(c, f, steps)
    decreases |steps|
  {
    if steps != [] {
      SafeStepIsClean(c, f, steps[0]);
      StepKeepsInv(c, f, steps[0]);
      StepKeepsAllSafe(c, f, steps[0]);
      SafeRunsAreClean(c, Next(c, f, steps[0]), steps[1..]);
    }
  }

  // So a run in which everybody does is clean, whatever the workers, the runs
  // of searches and the deletions do.
  lemma QuietRunsAreClean(c: Config, f: Fine, steps: seq<Step>)
    requires FineInitial(f) && IsFineRun(c, f, steps) && QuietRun(c, f, steps)
    ensures CleanRun(c, f, steps)
  {
    InitialHolds(c, f);
    SafeRunsAreClean(c, f, steps);
  }
}
