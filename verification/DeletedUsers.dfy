// A deleted account: when nothing of it is left, at its deletion's commit and
// from then on.
module DeletedUsers {
  import opened Common
  import opened Tables
  import opened Schedule
  import opened Account
  import opened Machine
  import opened Integrity
  import opened Reachable
  import opened Frames
  import opened Consistency
  import opened Locking
  import opened Belongings
  import opened LockingSteps
  import opened StepEffects
  import opened LockingInvariant
  import opened LateRows
  import opened DeletionSafety

  // No row is the user's, by any of the ways to own one.
  ghost predicate NothingOf(db: DB, u: Id) {
    forall t :: Doomed(db, t, u) == {}
  }

  // ----- at the commit

  // Whether statement n missed nothing.
  ghost predicate NothingMissed(db: DB, gone: seq<set<Id>>, u: Id, n: nat)
    requires n < |gone| <= |STEPS|
  {
    Doomed(db, STEPS[n], u) - gone[n] == {}
  }

  lemma CommitLeavesOwned(db: DB, gone: seq<set<Id>>, u: Id, n: nat)
    requires |gone| == |STEPS| && (n == 3 || 5 <= n <= 8)
    ensures Doomed(View(db, gone), STEPS[n], u) == Doomed(db, STEPS[n], u) - gone[n]
  {
    ViewTakes(db, gone);
  }

  lemma CommitLeavesResults(db: DB, used: set<Id>, gone: seq<set<Id>>, u: Id)
    requires |gone| == |STEPS| && RefsUsed(db, used) && Agree(db) && UniqueEvaluations(db)
    ensures OwnedResults(View(db, gone), u) == OwnedResults(db, u) - gone[2]
  {
    ViewTakes(db, gone);
    ViewShrinks(db, gone);
    ShrinkingKeepsAgree(db, View(db, gone), used);
    OwnedByUserId(db, u);
    OwnedByUserId(View(db, gone), u);
  }

  lemma SectionsByUserId(db: DB, u: Id)
    requires SectionsAgree(db)
    ensures OwnedSections(db, u) == set k | k in db.sections && db.sections[k].userId == u
  {
  }

  lemma CommitLeavesSections(db: DB, used: set<Id>, gone: seq<set<Id>>, u: Id)
    requires |gone| == |STEPS| && RefsUsed(db, used) && Agree(db) && UniqueEvaluations(db)
    ensures OwnedSections(View(db, gone), u) == OwnedSections(db, u) - gone[4]
  {
    ViewTakes(db, gone);
    ViewShrinks(db, gone);
    ShrinkingKeepsAgree(db, View(db, gone), used);
    SectionsByUserId(db, u);
    SectionsByUserId(View(db, gone), u);
  }

  // Of the tables whose rows name their user the commit leaves what the
  // statement for the table missed.
  lemma CommitLeavesMissed(db: DB, used: set<Id>, gone: seq<set<Id>>, u: Id, n: nat)
    requires |gone| == |STEPS| && RefsUsed(db, used) && Agree(db) && UniqueEvaluations(db) && 2 <= n < |STEPS|
    ensures Doomed(View(db, gone), STEPS[n], u) == {} <==> NothingMissed(db, gone, u, n)
  {
    if n == 2 {
      CommitLeavesResults(db, used, gone, u);
    } else if n == 4 {
      CommitLeavesSections(db, used, gone, u);
    } else {
      CommitLeavesOwned(db, gone, u, n);
    }
  }

  lemma NoParentsNoChildren(db: DB, u: Id)
    requires OwnedResults(db, u) == {} && OwnedCVs(db, u) == {}
    ensures OwnedEvaluations(db, u) == {} && OwnedScores(db, u) == {}
  {
    assert OwnedEvaluations(db, u) == {};
  }

  // The other tables follow their parents'.
  lemma NothingOfByTable(db: DB, u: Id)
    ensures NothingOf(db, u) <==> forall n: nat :: 2 <= n < |STEPS| ==> Doomed(db, STEPS[n], u) == {}
  {
    if forall n: nat :: 2 <= n < |STEPS| ==> Doomed(db, STEPS[n], u) == {} {
      assert Doomed(db, STEPS[2], u) == {} && Doomed(db, STEPS[3], u) == {} && Doomed(db, STEPS[4], u) == {};
      assert Doomed(db, STEPS[5], u) == {} && Doomed(db, STEPS[6], u) == {} && Doomed(db, STEPS[7], u) == {};
      assert Doomed(db, STEPS[8], u) == {};
      NoParentsNoChildren(db, u);
    }
  }

  lemma CommitLeavesNothingExactlyWhen(s: Sys, gone: seq<set<Id>>, u: Id)
    requires Consistent(s) && |gone| == |STEPS|
    ensures NothingOf(View(s.db, gone), u) <==> forall n: nat :: 2 <= n < |STEPS| ==> NothingMissed(s.db, gone, u, n)
  {
    NothingOfByTable(View(s.db, gone), u);
    forall n: nat | 2 <= n < |STEPS|
      ensures Doomed(View(s.db, gone), STEPS[n], u) == {} <==> NothingMissed(s.db, gone, u, n)
    {
      CommitLeavesMissed(s.db, s.used, gone, u, n);
    }
  }

  // ----- from the commit on

  lemma ServiceKeepsGone(c: Config, s: Sys, e: Event, u: Id)
    requires IdsUsed(s) && Can(c, s, e) && !IsTransaction(e) && u !in s.db.users && u in s.used
    ensures u !in After(c, s, e).db.users
  {
    StatementIsSteady(c, s, e);
  }

  lemma StepKeepsGone(c: Config, f: Fine, step: Step, u: Id)
    requires Consistent(f.s) && TxsTrue(c, f) && DeletionsHold(f) && CanStep(c, f, step) && u !in f.s.db.users && u in f.s.used
    ensures u !in Next(c, f, step).s.db.users && u in Next(c, f, step).s.used
  {
    StepKeepsUsed(c, f, step);
    if step.One? {
      ServiceKeepsGone(c, f.s, step.e, u);
    } else if step.Committed? {
      CommitKeepsUsers(c, f, step.tx);
    } else if step.DeletionCommitted? {
      ViewShrinks(f.s.db, f.deletions[step.u].stage.gone);
    }
  }

  lemma CommitKeepsUsers(c: Config, f: Fine, tx: Id)
    requires TxsTrue(c, f) && CanStep(c, f, Committed(tx))
    ensures AfterCommit(f, tx).db.users == f.s.db.users
  {
    if f.open[tx].Recording? {
      ChangeFrame(f.s.db, f.open[tx].change.value);
    }
  }

  lemma NothingBecomes(db: DB, next: DB, used: set<Id>, u: Id, t: Table, replaced: set<Id>, added: set<Id>)
    requires Affects(db, next, used, u, t, replaced, added) && Doomed(db, t, u) == {}
    ensures Doomed(next, t, u) == added
  {
  }

  lemma NoDeletionOfNobody(c: Config, f: Fine, step: Step, u: Id)
    requires DeletionsHold(f) && CanStep(c, f, step) && u !in f.s.db.users
    ensures step != DeletionCommitted(u) && u !in f.deletions
  {
    assert u in f.deletions ==> DeletionHolds(f.s, u, f.deletions[u]);
  }

  // Of a user without rows, a step leaves those it adds.
  lemma StepLeavesAdded(c: Config, f: Fine, step: Step, u: Id, t: Table)
    requires Inv(c, f) && CanStep(c, f, step) && u !in f.s.db.users && Doomed(f.s.db, t, u) == {} && !t.Users?
    ensures Doomed(Next(c, f, step).s.db, t, u) == Added(f, step, u, t)
  {
    NoDeletionOfNobody(c, f, step, u);
    StepAffects(c, f, step, u, t);
    NothingBecomes(f.s.db, Next(c, f, step).s.db, f.s.used, u, t, Replaced(f, step, u, t), Added(f, step, u, t));
  }

  lemma NoSearchesNoResults(c: Config, f: Fine, step: Step, u: Id)
    requires Inv(c, f) && CanStep(c, f, step) && OwnedSearches(f.s.db, u) == {}
    ensures Added(f, step, u, SearchResults) == {}
  {
    LateResultExactlyWhen(c, f, step, u);
  }

  lemma NoResultsNoEvaluations(c: Config, f: Fine, step: Step, u: Id)
    requires Inv(c, f) && CanStep(c, f, step) && OwnedResults(f.s.db, u) == {}
    ensures Added(f, step, u, Evaluations) == {} && Added(f, step, u, EvaluationScores) == {}
  {
    LateEvaluationExactlyWhen(c, f, step, u);
    LateScoresExactlyWhen(c, f, step, u);
  }

  lemma OnlyRequestsAdd(c: Config, f: Fine, step: Step, u: Id, t: Table)
    requires Inv(c, f) && CanStep(c, f, step) && NothingOf(f.s.db, u) && !Requested(t)
    ensures Added(f, step, u, t) == {}
  {
    assert Doomed(f.s.db, JobSearches, u) == {} && Doomed(f.s.db, SearchResults, u) == {};
    match t {
      case SearchResults => NoSearchesNoResults(c, f, step, u);
      case Evaluations => NoResultsNoEvaluations(c, f, step, u);
      case EvaluationScores => NoResultsNoEvaluations(c, f, step, u);
      case Users =>
    }
  }

  // The step is no request that adds a search, section, CV, key or suggestion
  // for the user.
  ghost predicate AddsNone(f: Fine, step: Step, u: Id) {
    forall t :: Requested(t) ==> Added(f, step, u, t) == {}
  }

  lemma StepLeavesOnlyAdded(c: Config, f: Fine, step: Step, u: Id)
    requires Inv(c, f) && CanStep(c, f, step) && NothingOf(f.s.db, u) && u !in f.s.db.users
    ensures forall t: Table :: !t.Users? ==> Doomed(Next(c, f, step).s.db, t, u) == Added(f, step, u, t)
    ensures forall t: Table :: !t.Users? && !Requested(t) ==> Added(f, step, u, t) == {}
  {
    forall t: Table | !t.Users?
      ensures Doomed(Next(c, f, step).s.db, t, u) == Added(f, step, u, t)
      ensures !Requested(t) ==> Added(f, step, u, t) == {}
    {
      StepLeavesAdded(c, f, step, u, t);
      if !Requested(t) {
        OnlyRequestsAdd(c, f, step, u, t);
      }
    }
  }

  lemma StepKeepsNothingExactlyWhen(c: Config, f: Fine, step: Step, u: Id)
    requires Inv(c, f) && CanStep(c, f, step) && NothingOf(f.s.db, u) && u in f.s.used
    ensures NothingOf(Next(c, f, step).s.db, u) <==> AddsNone(f, step, u)
  {
    assert Doomed(f.s.db, Users, u) == {};
    assert u in f.s.db.users ==> u in Doomed(f.s.db, Users, u);
    StepKeepsGone(c, f, step, u);
    StepLeavesOnlyAdded(c, f, step, u);
    NothingWhenAddedNone(Next(c, f, step).s.db, u, t => Added(f, step, u, t));
  }

  lemma NothingWhenAddedNone(next: DB, u: Id, added: Table -> set<Id>)
    requires u !in next.users && forall t: Table :: !t.Users? ==> Doomed(next, t, u) == added(t)
    requires forall t: Table :: !t.Users? && !Requested(t) ==> added(t) == {}
    ensures NothingOf(next, u) <==> forall t :: Requested(t) ==> added(t) == {}
  {
    assert Doomed(next, Users, u) == {};
    if NothingOf(next, u) {
      forall t | Requested(t)
        ensures added(t) == {}
      {
        assert Doomed(next, t, u) == added(t);
      }
    }
  }

  ghost predicate NothingThroughout(c: Config, f: Fine, steps: seq<Step>, u: Id)
    requires IsFineRun(c, f, steps)
    decreases |steps|
  {
    NothingOf(f.s.db, u) && (steps != [] ==> NothingThroughout(c, Next(c, f, steps[0]), steps[1..], u))
  }

  ghost predicate AddsNoneThroughout(c: Config, f: Fine, steps: seq<Step>, u: Id)
    requires IsFineRun(c, f, steps)
    decreases |steps|
  {
    steps != [] ==> AddsNone(f, steps[0], u) && AddsNoneThroughout(c, Next(c, f, steps[0]), steps[1..], u)
  }

  // Once nothing of a user is left, that stays so exactly while no request adds
  // a row for them.
  lemma {:induction false} NothingStaysExactlyWhen(c: Config, f: Fine, steps: seq<Step>, u: Id)
    requires Inv(c, f) && IsFineRun(c, f, steps) && NothingOf(f.s.db, u) && u in f.s.used
    ensures NothingThroughout(c, f, steps, u) <==> AddsNoneThroughout(c, f, steps, u)
    decreases |steps|
  {
    if steps == [] {
      return;
    }
    StepKeepsInv(c, f, steps[0]);
    StepKeepsUsed(c, f, steps[0]);
    StepKeepsNothingExactlyWhen(c, f, steps[0], u);
    if AddsNone(f, steps[0], u) {
      NothingStaysExactlyWhen(c, Next(c, f, steps[0]), steps[1..], u);
    } else {
      SomethingShows(c, Next(c, f, steps[0]), steps[1..], u);
    }
  }

  lemma SomethingShows(c: Config, f: Fine, steps: seq<Step>, u: Id)
    requires IsFineRun(c, f, steps) && !NothingOf(f.s.db, u)
    ensures !NothingThroughout(c, f, steps, u)
  {
  }

  lemma NoneLost(db: DB, next: DB, used: set<Id>, u: Id, t: Table, replaced: set<Id>, added: set<Id>)
    requires Affects(db, next, used, u, t, replaced, added) && replaced == {}
    ensures Doomed(db, t, u) <= Doomed(next, t, u)
  {
  }

  lemma StepKeepsLeftBehind(c: Config, f: Fine, step: Step, u: Id, n: nat)
    requires Inv(c, f) && CanStep(c, f, step) && u !in f.s.db.users && 0 < n < 8
    ensures Doomed(f.s.db, STEPS[n], u) <= Doomed(Next(c, f, step).s.db, STEPS[n], u)
  {
    NoDeletionOfNobody(c, f, step, u);
    StepAffects(c, f, step, u, STEPS[n]);
    OnlyScoresAreReplaced(f, step, u, n);
    NoneLost(f.s.db, Next(c, f, step).s.db, f.s.used, u, STEPS[n], Replaced(f, step, u, STEPS[n]), Added(f, step, u, STEPS[n]));
  }

  // What is left of a user who is gone is left for good: nobody deletes it.
  lemma {:induction false} LeftBehindForGood(c: Config, f: Fine, steps: seq<Step>, u: Id, n: nat)
    requires Inv(c, f) && IsFineRun(c, f, steps) && u !in f.s.db.users && u in f.s.used && 0 < n < 8
    ensures Doomed(f.s.db, STEPS[n], u) <= Doomed(FineEnd(c, f, steps).s.db, STEPS[n], u)
    decreases |steps|
  {
    if steps != [] {
      StepKeepsInv(c, f, steps[0]);
      StepKeepsGone(c, f, steps[0], u);
      StepKeepsLeftBehind(c, f, steps[0], u, n);
      LeftBehindForGood(c, Next(c, f, steps[0]), steps[1..], u, n);
    }
  }

  // ----- the whole of it

  // For any run: at the commit no row is the user's any more exactly when no
  // result, search, section, CV, key or suggestion was late.
  lemma NothingAtCommitExactlyWhen(c: Config, f: Fine, steps: seq<Step>, u: Id)
    requires FineInitial(f) && IsFineRun(c, f, steps) && Deletes(FineEnd(c, f, steps), u)
    ensures var end := FineEnd(c, f, steps);
            NothingOf(View(end.s.db, end.deletions[u].stage.gone), u) <==> NothingSlippedIn(c, f, steps, u)
  {
    var end := FineEnd(c, f, steps);
    InitialHolds(c, f);
    RunKeepsInv(c, f, steps);
    LeftExactlyWhen(c, f, steps, u, 8);
    NothingElseLeftExactlyWhen(c, f, steps, u);
    LeavesMissed(end, u);
    CommitLeavesNothingExactlyWhen(end.s, end.deletions[u].stage.gone, u);
  }

  lemma LeavesMissed(f: Fine, u: Id)
    requires Deletes(f, u) && Left(f, u, 8) == {}
    ensures (forall n: nat :: 2 <= n < |STEPS| ==> NothingMissed(f.s.db, f.deletions[u].stage.gone, u, n))
            <==> NothingElseLeft(f, u)
  {
    forall n: nat | 2 <= n < |STEPS|
      ensures NothingMissed(f.s.db, f.deletions[u].stage.gone, u, n) <==> Left(f, u, n) == {}
    {
    }
  }

  // However workers, runs, users and deletions interleave: at every moment
  // from the commit of a user's deletion on no row is theirs, if and only if
  // no step slipped a row of theirs past the statement that deletes those, and
  // no request adds one for them afterwards.
  lemma DeletedForGoodExactlyWhen(c: Config, f: Fine, steps: seq<Step>, rest: seq<Step>, u: Id)
    requires FineInitial(f) && IsFineRun(c, f, steps) && Deletes(FineEnd(c, f, steps), u)
    requires IsFineRun(c, Next(c, FineEnd(c, f, steps), DeletionCommitted(u)), rest)
    ensures var next := Next(c, FineEnd(c, f, steps), DeletionCommitted(u));
            NothingThroughout(c, next, rest, u) <==>
              NothingSlippedIn(c, f, steps, u) && AddsNoneThroughout(c, next, rest, u)
  {
    NothingAtCommitExactlyWhen(c, f, steps, u);
    InitialHolds(c, f);
    RunKeepsInv(c, f, steps);
    NothingFromCommitExactlyWhen(c, FineEnd(c, f, steps), rest, u);
  }

  lemma NothingFromCommitExactlyWhen(c: Config, f: Fine, rest: seq<Step>, u: Id)
    requires Inv(c, f) && Deletes(f, u) && IsFineRun(c, Next(c, f, DeletionCommitted(u)), rest)
    ensures var next := Next(c, f, DeletionCommitted(u));
            NothingThroughout(c, next, rest, u) <==>
              NothingOf(View(f.s.db, f.deletions[u].stage.gone), u) && AddsNoneThroughout(c, next, rest, u)
  {
    var next := Next(c, f, DeletionCommitted(u));
    StepKeepsInv(c, f, DeletionCommitted(u));
    assert next.s == f.s.(db := View(f.s.db, f.deletions[u].stage.gone));
    assert DeletionHolds(f.s, u, f.deletions[u]) && u in f.s.used;
    if NothingOf(next.s.db, u) {
      NothingStaysExactlyWhen(c, next, rest, u);
    } else {
      SomethingShows(c, next, rest, u);
    }
  }

  // ----- a request that was let in before the commit

  lemma NewRowsNeedNoLock(c: Config, f: Fine, e: Event)
    requires SearchRow(f.s, e).None? && ResultRow(e).None? && RunOf(e).None? && WorkerOf(e).None?
    requires !(e.Serving? && e.user.CVDeleted?)
    ensures Unlocked(f, e)
  {
  }

  // The account is gone, but nothing looks again: the search it asked for is
  // stored and is due at once.
  lemma LateRequestIsServed(c: Config, f: Fine, id: Id, u: Id, p: CreateParams)
    requires IdsUsed(f.s) && f.s.used <= f.taken && id !in f.taken && u !in f.s.db.users
    requires Create(f.s.db, id, u, p, f.s.now).Ok?
    ensures CanStep(c, f, One(Searching(SearchCreated(id, u, p))))
    ensures var next := Next(c, f, One(Searching(SearchCreated(id, u, p)))).s;
            && u !in next.db.users && id in OwnedSearches(next.db, u)
            && (Due(next.db, id, next.now) <==> p.enabled.GetOr(true))
  {
    NewRowsNeedNoLock(c, f, Searching(SearchCreated(id, u, p)));
    CreatedIsDue(f.s.db, id, u, p, f.s.now);
  }

  predicate Stores(e: UserEvent) {
    e.SectionsStored? || e.KeyAdded? || e.SuggestionAdded?
  }

  function TableOf(e: UserEvent): Table
    requires Stores(e)
  {
    match e
    case SectionsStored(_, _, _) => SectionEmbeddings
    case KeyAdded(_, _) => APIKeys
    case SuggestionAdded(_, _) => PortalSuggestions
  }

  // The same goes for sections, whose CV may have gone with the account, and
  // for keys and suggestions.
  lemma LateRowsAreStored(c: Config, f: Fine, e: UserEvent)
    requires Stores(e) && CanUser(f.s, e) && StoredIds(Serving(e)) !! f.taken && e.userId !in f.s.db.users
    ensures CanStep(c, f, One(Serving(e)))
    ensures var next := Next(c, f, One(Serving(e))).s.db;
            e.userId !in next.users && StoredIds(Serving(e)) <= Doomed(next, TableOf(e), e.userId)
  {
    NewRowsNeedNoLock(c, f, Serving(e));
    StoredAreTheirs(f.s, e);
  }

  lemma StoredAreTheirs(s: Sys, e: UserEvent)
    requires Stores(e) && CanUser(s, e)
    ensures var next := AfterUser(s, e).db;
            next.users == s.db.users && StoredIds(Serving(e)) <= Doomed(next, TableOf(e), e.userId)
  {
  }

  lemma CreatedIsDue(db: DB, id: Id, u: Id, p: CreateParams, now: Time)
    requires Create(db, id, u, p, now).Ok?
    ensures var next := Create(db, id, u, p, now).value;
            && next.users == db.users && id in next.searches && next.searches[id].userId == u
            && (Due(next, id, now) <==> p.enabled.GetOr(true))
  {
  }
}
