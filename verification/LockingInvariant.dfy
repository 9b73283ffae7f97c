// Every step of the machine with locks keeps its invariant: pending changes
// stay what they would be now, and what a deletion deleted stays its user's.
module LockingInvariant {
  import opened Common
  import opened Tables
  import opened Worker
  import opened Account
  import opened Machine
  import opened Frames
  import opened Consistency
  import opened Locking
  import opened Belongings
  import opened LockingSteps
  import opened StepEffects

  // ----- single statements

  lemma StatementKeepsTxsTrue(c: Config, f: Fine, e: Event)
    requires Consistent(f.s) && TxsTrue(c, f) && IdsApart(f) && CanStep(c, f, One(e))
    ensures TxsTrue(c, Next(c, f, One(e))) && Consistent(Next(c, f, One(e)).s)
  {
    StatementKeepsConsistent(c, f.s, e);
    StatementIsSteady(c, f.s, e);
    EventsLeaveOthersAlone(c, f.s, e);
    StatementKeepsTxs(c, f, After(c, f.s, e), e);
  }

  lemma StatementKeepsInv(c: Config, f: Fine, e: Event)
    requires Inv(c, f) && CanStep(c, f, One(e))
    ensures Inv(c, Next(c, f, One(e)))
  {
    StatementKeepsTxsTrue(c, f, e);
    StatementKeepsIdsApart(c, f, e);
    StepKeepsDeletions(c, f, One(e));
  }

  // The deletions that are still open hold what they held.
  lemma StepKeepsDeletions(c: Config, f: Fine, step: Step)
    requires Inv(c, f) && CanStep(c, f, step)
    ensures forall u :: u in f.deletions && step != DeletionCommitted(u) ==> DeletionHolds(Next(c, f, step).s, u, f.deletions[u])
  {
    forall u | u in f.deletions && step != DeletionCommitted(u)
      ensures DeletionHolds(Next(c, f, step).s, u, f.deletions[u])
    {
      StepKeepsDeletion(c, f, step, u);
    }
  }

  // ----- transactions

  // A transaction that gets along with the others and with the deletions.
  ghost predicate Joins(c: Config, f: Fine, tx: Id, t: Txn) {
    && TxTrue(c, f.s, t) && TxIds(t) !! f.s.used
    && (forall o :: o in f.open && o != tx ==> TxIds(f.open[o]) !! TxIds(t) && !Clash(f.open[o], t))
    && (forall u :: u in f.deletions ==> Compatible(f.deletions[u], t))
  }

  lemma JoiningKeepsApart(f: Fine, tx: Id, t: Txn, taken: set<Id>)
    requires TxsApart(f)
    requires forall o :: o in f.open && o != tx ==> TxIds(f.open[o]) !! TxIds(t) && !Clash(f.open[o], t)
    ensures TxsApart(f.(taken := taken, open := f.open[tx := t]))
  {
    var next := f.(taken := taken, open := f.open[tx := t]);
    forall a, b | a in next.open && b in next.open && a != b
      ensures TxIds(next.open[a]) !! TxIds(next.open[b]) && !Clash(next.open[a], next.open[b])
    {
      assert Clash(t, next.open[b]) == Clash(next.open[b], t);
    }
  }

  lemma JoiningKeepsIds(f: Fine, tx: Id, t: Txn, taken: set<Id>)
    requires IdsApart(f) && f.taken <= taken && TxIds(t) <= taken && TxIds(t) !! f.s.used
    ensures IdsApart(f.(taken := taken, open := f.open[tx := t]))
  {
    var next := f.(taken := taken, open := f.open[tx := t]);
    forall o | o in next.open
      ensures TxIds(next.open[o]) <= taken && TxIds(next.open[o]) !! f.s.used
    {
      assert o in f.open ==> TxIds(f.open[o]) <= f.taken;
    }
  }

  lemma JoiningKeepsTrue(c: Config, f: Fine, tx: Id, t: Txn, taken: set<Id>)
    requires TxsTrue(c, f) && LocksHeld(f) && TxTrue(c, f.s, t)
    requires forall u :: u in f.deletions ==> Compatible(f.deletions[u], t)
    ensures var next := f.(taken := taken, open := f.open[tx := t]);
            TxsTrue(c, next) && LocksHeld(next)
  {
  }

  lemma JoiningKeepsInv(c: Config, f: Fine, tx: Id, t: Txn, taken: set<Id>)
    requires Inv(c, f) && Joins(c, f, tx, t) && f.taken <= taken && TxIds(t) <= taken
    ensures Inv(c, f.(taken := taken, open := f.open[tx := t]))
  {
    JoiningKeepsApart(f, tx, t, taken);
    JoiningKeepsIds(f, tx, t, taken);
    JoiningKeepsTrue(c, f, tx, t, taken);
    assert DeletionsHold(f.(taken := taken, open := f.open[tx := t]));
  }

  lemma InsertBegins(c: Config, f: Fine, tx: Id, run: Id, jobId: Id)
    requires Inv(c, f) && CanStep(c, f, InsertBegun(tx, run, jobId))
    ensures Inv(c, Next(c, f, InsertBegun(tx, run, jobId)))
  {
    var t := Inserting(run, f.s.runs[run].searchId, jobId, None);
    assert Joins(c, f, tx, t);
    JoiningKeepsInv(c, f, tx, t, f.taken);
  }

  lemma InsertJoins(c: Config, f: Fine, tx: Id, id: Id)
    requires TxsTrue(c, f) && TxsApart(f) && IdsApart(f) && LocksHeld(f) && CanStep(c, f, Inserted(tx, id))
    ensures Joins(c, f, tx, f.open[tx].(row := Some(InsertOf(f, f.open[tx], id))))
  {
    assert TxTrue(c, f.s, f.open[tx]);
    var t := f.open[tx].(row := Some(InsertOf(f, f.open[tx], id)));
    forall o | o in f.open && o != tx
      ensures TxIds(f.open[o]) !! TxIds(t) && !Clash(f.open[o], t)
    {
      assert TxIds(f.open[o]) <= f.taken;
    }
    forall u | u in f.deletions
      ensures Compatible(f.deletions[u], t)
    {
      assert Compatible(f.deletions[u], f.open[tx]);
    }
  }

  lemma InsertContinues(c: Config, f: Fine, tx: Id, id: Id)
    requires Inv(c, f) && CanStep(c, f, Inserted(tx, id))
    ensures Inv(c, Next(c, f, Inserted(tx, id)))
  {
    InsertJoins(c, f, tx, id);
    JoiningKeepsInv(c, f, tx, f.open[tx].(row := Some(InsertOf(f, f.open[tx], id))), f.taken + {id});
  }

  lemma NewRecordingJoins(c: Config, f: Fine, tx: Id, e: WorkEvent)
    requires IdsApart(f) && CanStep(c, f, RecordBegun(tx, e))
    ensures Joins(c, f, tx, Recording(e.w, e, f.s.workers[e.w].id, None))
  {
    var t := Recording(e.w, e, f.s.workers[e.w].id, None);
    forall o | o in f.open && o != tx
      ensures TxIds(f.open[o]) !! TxIds(t) && !Clash(f.open[o], t)
    {
      assert TxIds(f.open[o]) <= f.taken;
    }
  }

  lemma RecordingBegins(c: Config, f: Fine, tx: Id, e: WorkEvent)
    requires Inv(c, f) && CanStep(c, f, RecordBegun(tx, e))
    ensures Inv(c, Next(c, f, RecordBegun(tx, e)))
  {
    var t := Recording(e.w, e, f.s.workers[e.w].id, None);
    NewRecordingJoins(c, f, tx, e);
    JoiningKeepsInv(c, f, tx, t, f.taken + TxIds(t));
  }

  lemma RecordingJoins(c: Config, f: Fine, tx: Id)
    requires TxsTrue(c, f) && TxsApart(f) && IdsApart(f) && LocksHeld(f) && CanStep(c, f, Recorded(tx))
    ensures var t := f.open[tx];
            Joins(c, f, tx, t.(change := Some(WriteChange(c, f.s.db, WriteOf(f.s, t.event)))))
  {
    var was := f.open[tx];
    assert TxTrue(c, f.s, was) && TxIds(was) !! f.s.used;
    var t := was.(change := Some(WriteChange(c, f.s.db, WriteOf(f.s, was.event))));
    assert TxIds(t) == TxIds(was);
    forall o | o in f.open && o != tx
      ensures TxIds(f.open[o]) !! TxIds(t) && !Clash(f.open[o], t)
    {
      assert TxIds(f.open[o]) !! TxIds(was) && !Clash(f.open[o], was);
    }
    assert EvaluationFree(f, t.change.value);
    forall u | u in f.deletions
      ensures Compatible(f.deletions[u], t)
    {
      assert Compatible(f.deletions[u], was);
    }
  }

  lemma RecordingContinues(c: Config, f: Fine, tx: Id)
    requires Inv(c, f) && CanStep(c, f, Recorded(tx))
    ensures Inv(c, Next(c, f, Recorded(tx)))
  {
    RecordingJoins(c, f, tx);
    var t := f.open[tx].(change := Some(WriteChange(c, f.s.db, WriteOf(f.s, f.open[tx].event))));
    assert TxIds(t) == TxIds(f.open[tx]) <= f.taken;
    JoiningKeepsInv(c, f, tx, t, f.taken);
  }

  lemma CommitKeepsIdsApart(c: Config, f: Fine, tx: Id)
    requires IdsApart(f) && TxsApart(f) && (Inserts(f, tx) || Records(f, tx)) && CanStep(c, f, Committed(tx))
    ensures IdsApart(Next(c, f, Committed(tx))) && TxsApart(Next(c, f, Committed(tx)))
  {
    var next := Next(c, f, Committed(tx));
    assert next.s.used == f.s.used + TxIds(f.open[tx]);
    forall o | o in next.open
      ensures TxIds(next.open[o]) <= next.taken && TxIds(next.open[o]) !! next.s.used
    {
      assert TxIds(f.open[o]) !! TxIds(f.open[tx]) && TxIds(f.open[o]) <= f.taken;
    }
    assert TxIds(f.open[tx]) <= f.taken;
  }

  lemma InsertCommitKeepsConsistent(c: Config, f: Fine, tx: Id)
    requires Consistent(f.s) && TxsTrue(c, f) && IdsApart(f) && Inserts(f, tx) && CanStep(c, f, Committed(tx))
    ensures Consistent(AfterCommit(f, tx))
  {
    InsertIsOfItsSearch(c, f, tx);
    NewResultKeepsConsistent(f.s, f.open[tx].row.value.id, RowOf(f, tx));
  }

  lemma InsertCommitKeepsTxs(c: Config, f: Fine, tx: Id)
    requires Consistent(f.s) && TxsTrue(c, f) && TxsApart(f) && IdsApart(f) && Inserts(f, tx) && CanStep(c, f, Committed(tx))
    ensures TxsTrue(c, Next(c, f, Committed(tx)))
  {
    var next := Next(c, f, Committed(tx));
    InsertCommitKeepsConsistent(c, f, tx);
    forall o | o in next.open
      ensures TxTrue(c, next.s, next.open[o])
    {
      var t := f.open[o];
      assert TxTrue(c, f.s, t) && TxIds(t) !! f.s.used && TxIds(t) !! TxIds(f.open[tx]) && !Clash(t, f.open[tx]);
      if t.Recording? {
        InsertKeepsRecording(c, f, tx, t);
      } else {
        InsertKeepsInserting(c, f, tx, t);
      }
    }
  }

  lemma RecordCommitKeepsConsistent(c: Config, f: Fine, tx: Id)
    requires Consistent(f.s) && TxsTrue(c, f) && Records(f, tx)
    ensures Consistent(AfterCommit(f, tx))
  {
    RecordIsWritten(c, f, tx);
    assert TxTrue(c, f.s, f.open[tx]);
    WriteKeepsConsistent(c, f.s, f.open[tx].event);
  }

  lemma RecordCommitKeepsTxs(c: Config, f: Fine, tx: Id)
    requires Consistent(f.s) && TxsTrue(c, f) && TxsApart(f) && IdsApart(f) && Records(f, tx) && CanStep(c, f, Committed(tx))
    ensures TxsTrue(c, Next(c, f, Committed(tx)))
  {
    var next := Next(c, f, Committed(tx));
    RecordCommitKeepsConsistent(c, f, tx);
    forall o | o in next.open
      ensures TxTrue(c, next.s, next.open[o])
    {
      var t := f.open[o];
      assert TxTrue(c, f.s, t) && TxIds(t) !! f.s.used && TxIds(t) !! TxIds(f.open[tx]) && !Clash(t, f.open[tx]);
      if t.Recording? {
        RecordKeepsRecording(c, f, tx, t);
      } else {
        RecordKeepsInserting(c, f, tx, t);
      }
    }
  }

  lemma TxEndKeepsInv(c: Config, f: Fine, tx: Id)
    requires Inv(c, f)
    ensures Inv(c, f.(open := f.open - {tx}))
  {
  }

  lemma InsertCommitKeepsInv(c: Config, f: Fine, tx: Id)
    requires Inv(c, f) && Inserts(f, tx) && CanStep(c, f, Committed(tx))
    ensures Inv(c, Next(c, f, Committed(tx)))
  {
    InsertCommitKeepsConsistent(c, f, tx);
    InsertCommitKeepsTxs(c, f, tx);
    CommitKeepsRest(c, f, tx);
  }

  lemma RecordCommitKeepsInv(c: Config, f: Fine, tx: Id)
    requires Inv(c, f) && Records(f, tx) && CanStep(c, f, Committed(tx))
    ensures Inv(c, Next(c, f, Committed(tx)))
  {
    RecordCommitKeepsConsistent(c, f, tx);
    RecordCommitKeepsTxs(c, f, tx);
    CommitKeepsRest(c, f, tx);
  }

  lemma CommitKeepsInv(c: Config, f: Fine, tx: Id)
    requires Inv(c, f) && CanStep(c, f, Committed(tx))
    ensures Inv(c, Next(c, f, Committed(tx)))
  {
    if Inserts(f, tx) {
      InsertCommitKeepsInv(c, f, tx);
    } else if Records(f, tx) {
      RecordCommitKeepsInv(c, f, tx);
    } else {
      TxEndKeepsInv(c, f, tx);
    }
  }

  lemma CommitKeepsRest(c: Config, f: Fine, tx: Id)
    requires Inv(c, f) && (Inserts(f, tx) || Records(f, tx)) && CanStep(c, f, Committed(tx))
    ensures var next := Next(c, f, Committed(tx));
            TxsApart(next) && IdsApart(next) && LocksHeld(next) && DeletionsHold(next)
  {
    CommitKeepsIdsApart(c, f, tx);
    StepKeepsDeletions(c, f, Committed(tx));
  }

  // ----- deletions

  predicate IsDeletionStep(step: Step) {
    step.DeletionBegun? || step.SearchLocked? || step.SearchesLocked? || step.ResultLocked? || step.ResultsLocked? || step.RowsDeleted?
  }

  lemma TablesAreUsed(s: Sys, t: Table)
    requires Consistent(s)
    ensures TableIds(s.db, t) <= s.used
  {
  }

  lemma NextDoomedAreTheirs(f: Fine, u: Id)
    requires Consistent(f.s) && u in f.deletions && f.deletions[u].stage.DeleteRows? && |f.deletions[u].stage.gone| < |STEPS|
    ensures NextDoomed(f, u) == Doomed(f.s.db, STEPS[|f.deletions[u].stage.gone|], u)
    ensures NextDoomed(f, u) <= f.s.used
  {
    var n := |f.deletions[u].stage.gone|;
    ViewDooms(f.s.db, f.deletions[u].stage.gone, u);
    DoomedAreRows(f.s.db, STEPS[n], u);
    TablesAreUsed(f.s, STEPS[n]);
  }

  lemma DeletingFollows(db: DB, gone: seq<set<Id>>, ids: set<Id>, u: Id)
    requires |gone| < |STEPS| && TakesTheirs(db, gone, u) && ScoresFollow(db, gone) && ids == Doomed(db, STEPS[|gone|], u)
    ensures ScoresFollow(db, gone + [ids])
  {
    if |gone| == 1 {
      assert gone[0] * TableIds(db, STEPS[0]) <= OwnedScores(db, u);
      assert forall k :: k in gone[0] && k in db.scores ==> k in gone[0] * TableIds(db, STEPS[0]);
    }
  }

  lemma DeletingHolds(s: Sys, u: Id, d: Deletion, ids: set<Id>)
    requires DeletionHolds(s, u, d) && d.stage.DeleteRows? && |d.stage.gone| < |STEPS|
    requires ids == Doomed(s.db, STEPS[|d.stage.gone|], u) && ids <= s.used
    ensures DeletionHolds(s, u, WithDeleted(d, ids))
  {
    var gone := d.stage.gone + [ids];
    forall n | 0 <= n < |gone|
      ensures gone[n] * TableIds(s.db, STEPS[n]) <= Doomed(s.db, STEPS[n], u) && gone[n] <= s.used
    {
      assert n < |d.stage.gone| ==> gone[n] == d.stage.gone[n];
    }
    DeletingFollows(s.db, d.stage.gone, ids, u);
  }

  // The deletion a step moves on keeps its lock and delete sets right.
  lemma DeletionMovesOn(c: Config, f: Fine, step: Step)
    requires Consistent(f.s) && DeletionsHold(f) && CanStep(c, f, step) && IsDeletionStep(step)
    ensures DeletionHolds(f.s, step.u, Next(c, f, step).deletions[step.u])
  {
    if !step.DeletionBegun? {
      assert DeletionHolds(f.s, step.u, f.deletions[step.u]);
    }
    if step.RowsDeleted? {
      NextDoomedAreTheirs(f, step.u);
      DeletingHolds(f.s, step.u, f.deletions[step.u], NextDoomed(f, step.u));
    }
  }

  // A delete waits for the transactions that hold what it deletes.
  lemma DeletedAreFree(c: Config, f: Fine, u: Id, tx: Id)
    requires CanStep(c, f, RowsDeleted(u)) && tx in f.open && Compatible(f.deletions[u], f.open[tx])
    ensures Compatible(Next(c, f, RowsDeleted(u)).deletions[u], f.open[tx])
  {
    var t := f.open[tx];
    assert t.Inserting? ==> SearchShared(f, t.searchId);
    assert t.Recording? ==> ResultRecorded(f, t.id);
    if SavedIn(t).Some? {
      assert EvaluationPending(f, SavedIn(t).value.id);
      assert forall k :: k in SavedIn(t).value.oldScores ==> ScorePending(f, k);
    }
  }

  lemma DeletionStaysCompatible(c: Config, f: Fine, step: Step, tx: Id)
    requires LocksHeld(f) && CanStep(c, f, step) && IsDeletionStep(step) && tx in f.open
    ensures Compatible(Next(c, f, step).deletions[step.u], f.open[tx])
  {
    if !step.DeletionBegun? {
      assert Compatible(f.deletions[step.u], f.open[tx]);
    }
    assert f.open[tx].Inserting? ==> SearchShared(f, f.open[tx].searchId);
    assert f.open[tx].Recording? ==> ResultRecorded(f, f.open[tx].id);
    if step.RowsDeleted? {
      DeletedAreFree(c, f, step.u, tx);
    }
  }

  lemma OnlyTheDeletionMoves(c: Config, f: Fine, step: Step)
    requires CanStep(c, f, step) && IsDeletionStep(step)
    ensures step.u in Next(c, f, step).deletions
    ensures Next(c, f, step) == f.(deletions := f.deletions[step.u := Next(c, f, step).deletions[step.u]])
  {
  }

  lemma DeletionStepKeepsInv(c: Config, f: Fine, step: Step)
    requires Inv(c, f) && CanStep(c, f, step) && IsDeletionStep(step)
    ensures Inv(c, Next(c, f, step))
  {
    OnlyTheDeletionMoves(c, f, step);
    DeletionMovesOn(c, f, step);
    forall tx | tx in f.open
      ensures Compatible(Next(c, f, step).deletions[step.u], f.open[tx])
    {
      DeletionStaysCompatible(c, f, step, tx);
    }
    OneDeletionKeepsInv(c, f, step.u, Next(c, f, step).deletions[step.u]);
  }

  lemma SameTxs(c: Config, f: Fine, g: Fine)
    requires TxsTrue(c, f) && TxsApart(f) && IdsApart(f) && g.s == f.s && g.open == f.open && g.taken == f.taken
    ensures TxsTrue(c, g) && TxsApart(g) && IdsApart(g)
  {
  }

  lemma OneDeletionKeepsInv(c: Config, f: Fine, u: Id, d: Deletion)
    requires Inv(c, f) && DeletionHolds(f.s, u, d) && forall tx :: tx in f.open ==> Compatible(d, f.open[tx])
    ensures Inv(c, f.(deletions := f.deletions[u := d]))
  {
    SameTxs(c, f, f.(deletions := f.deletions[u := d]));
    OneDeletionHolds(f, u, d);
  }

  lemma OneDeletionHolds(f: Fine, u: Id, d: Deletion)
    requires LocksHeld(f) && DeletionsHold(f)
    requires DeletionHolds(f.s, u, d) && forall tx :: tx in f.open ==> Compatible(d, f.open[tx])
    ensures LocksHeld(f.(deletions := f.deletions[u := d])) && DeletionsHold(f.(deletions := f.deletions[u := d]))
  {
  }

  lemma DeletionCommitKeepsTxs(c: Config, f: Fine, u: Id)
    requires Consistent(f.s) && TxsTrue(c, f) && IdsApart(f) && LocksHeld(f) && DeletionsHold(f) && Deletes(f, u)
    ensures var next := f.s.(db := View(f.s.db, f.deletions[u].stage.gone));
            Consistent(next) && forall tx :: tx in f.open ==> TxTrue(c, next, f.open[tx])
  {
    var next := f.s.(db := View(f.s.db, f.deletions[u].stage.gone));
    ViewShrinks(f.s.db, f.deletions[u].stage.gone);
    ViewKeepsScoresOwned(f.s.db, f.deletions[u].stage.gone);
    ShrinkingKeepsConsistent(f.s, next.db);
    assert DeletionHolds(f.s, u, f.deletions[u]);
    forall tx | tx in f.open
      ensures TxTrue(c, next, f.open[tx])
    {
      assert TxTrue(c, f.s, f.open[tx]) && Compatible(f.deletions[u], f.open[tx]) && TxIds(f.open[tx]) !! f.s.used;
      if f.open[tx].Recording? {
        DeletionKeepsRecording(c, f.s, f.deletions[u], f.open[tx]);
      } else {
        DeletionKeepsInserting(c, f.s, f.deletions[u], f.open[tx]);
      }
    }
  }

  lemma DeletionCommitKeepsInv(c: Config, f: Fine, u: Id)
    requires Inv(c, f) && CanStep(c, f, DeletionCommitted(u))
    ensures Inv(c, Next(c, f, DeletionCommitted(u)))
  {
    DeletionCommitKeepsTxs(c, f, u);
    StepKeepsDeletions(c, f, DeletionCommitted(u));
  }

  lemma DeletionEndKeepsInv(c: Config, f: Fine, u: Id)
    requires Inv(c, f)
    ensures Inv(c, f.(deletions := f.deletions - {u}))
  {
  }

  // ----- every step

  lemma InsertStepKeepsInv(c: Config, f: Fine, step: Step)
    requires Inv(c, f) && CanStep(c, f, step) && (step.InsertBegun? || step.Inserted?)
    ensures Inv(c, Next(c, f, step))
  {
    if step.InsertBegun? {
      InsertBegins(c, f, step.tx, step.run, step.jobId);
    } else {
      InsertContinues(c, f, step.tx, step.id);
    }
  }

  lemma RecordStepKeepsInv(c: Config, f: Fine, step: Step)
    requires Inv(c, f) && CanStep(c, f, step) && (step.RecordBegun? || step.Recorded?)
    ensures Inv(c, Next(c, f, step))
  {
    if step.RecordBegun? {
      RecordingBegins(c, f, step.tx, step.event);
    } else {
      RecordingContinues(c, f, step.tx);
    }
  }

  lemma EndKeepsInv(c: Config, f: Fine, step: Step)
    requires Inv(c, f) && CanStep(c, f, step) && (step.RolledBack? || step.DeletionRolledBack?)
    ensures Inv(c, Next(c, f, step))
  {
    if step.RolledBack? {
      TxEndKeepsInv(c, f, step.tx);
    } else {
      DeletionEndKeepsInv(c, f, step.u);
    }
  }

  lemma TxStepKeepsInv(c: Config, f: Fine, step: Step)
    requires Inv(c, f) && CanStep(c, f, step)
    requires step.InsertBegun? || step.Inserted? || step.RecordBegun? || step.Recorded? || step.Committed?
    ensures Inv(c, Next(c, f, step))
  {
    if step.Committed? {
      CommitKeepsInv(c, f, step.tx);
    } else if step.RecordBegun? || step.Recorded? {
      RecordStepKeepsInv(c, f, step);
    } else {
      InsertStepKeepsInv(c, f, step);
    }
  }

  lemma StepKeepsInv(c: Config, f: Fine, step: Step)
    requires Inv(c, f) && CanStep(c, f, step)
    ensures Inv(c, Next(c, f, step))
  {
    if IsDeletionStep(step) {
      DeletionStepKeepsInv(c, f, step);
    } else if step.One? {
      StatementKeepsInv(c, f, step.e);
    } else if step.DeletionCommitted? {
      DeletionCommitKeepsInv(c, f, step.u);
    } else if step.RolledBack? || step.DeletionRolledBack? {
      EndKeepsInv(c, f, step);
    } else {
      TxStepKeepsInv(c, f, step);
    }
  }

  lemma {:induction false} RunKeepsInv(c: Config, f: Fine, steps: seq<Step>)
    requires Inv(c, f) && IsFineRun(c, f, steps)
    ensures Inv(c, FineEnd(c, f, steps))
    decreases |steps|
  {
    if steps != [] {
      StepKeepsInv(c, f, steps[0]);
      RunKeepsInv(c, Next(c, f, steps[0]), steps[1..]);
    }
  }
}
