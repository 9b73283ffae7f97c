// The machine at the granularity of row locks.
//
// The three transactions of several statements are taken apart: storing a
// result (a share lock on its search, the insert, the commit), recording an
// evaluation (a lock on its result, the writes, the commit), and deleting an
// account (locks on the user's searches one by one, then on their results one
// by one, then one delete per table, then the commit). Their changes are
// pending, and seen by nobody else, until they commit; they may also roll
// back. All other events stay one statement, which waits for locked rows.
module Locking {
  import opened Common
  import opened Tables
  import opened Store
  import opened Worker
  import opened Account
  import opened Machine
  import opened Frames

  // The row an insert leaves pending, unless it found one already there.
  datatype Insert = AlreadyThere | NewRow(id: Id, at: Time)

  // An open transaction of a run or of a worker, with its pending change.
  datatype Txn =
    | Inserting(run: Id, searchId: Id, jobId: Id, row: Option<Insert>)
    | Recording(w: Id, event: WorkEvent, id: Id, change: Option<Change>)

  // How far a deletion has come: rows still to lock, or the rows deleted so
  // far, one set per statement.
  datatype Stage = LockSearches(todo: set<Id>) | LockResults(todo: set<Id>) | DeleteRows(gone: seq<set<Id>>)

  datatype Deletion = Deletion(searchLocks: set<Id>, resultLocks: set<Id>, stage: Stage)

  // The rows the deletion's statement n deleted, if it came to that.
  function GoneFrom(d: Deletion, n: nat): set<Id> {
    if d.stage.DeleteRows? && n < |d.stage.gone| then d.stage.gone[n] else {}
  }

  // The evaluation a transaction has pending, if any.
  function SavedIn(t: Txn): Option<Saved> {
    match t
    case Recording(_, _, _, Some(change)) => change.saved
    case _ => None
  }

  // `s` is what is committed; `taken` adds the ids of pending rows to the used ones.
  datatype Fine = Fine(s: Sys, taken: set<Id>, open: map<Id, Txn>, deletions: map<Id, Deletion>)

  datatype Step =
    | One(e: Event)
    | InsertBegun(tx: Id, run: Id, jobId: Id)
    | Inserted(tx: Id, id: Id)
    | RecordBegun(tx: Id, event: WorkEvent)
    | Recorded(tx: Id)
    | Committed(tx: Id)
    | RolledBack(tx: Id)
    | DeletionBegun(u: Id)
    | SearchLocked(u: Id, id: Id)
    | SearchesLocked(u: Id)
    | ResultLocked(u: Id, id: Id)
    | ResultsLocked(u: Id)
    | RowsDeleted(u: Id)
    | DeletionCommitted(u: Id)
    | DeletionRolledBack(u: Id)

  // ----- locks

  ghost predicate SearchShared(f: Fine, id: Id) {
    exists tx :: tx in f.open && f.open[tx].Inserting? && f.open[tx].searchId == id
  }

  ghost predicate SearchHeld(f: Fine, id: Id) {
    exists u :: u in f.deletions && id in f.deletions[u].searchLocks
  }

  ghost predicate ResultRecorded(f: Fine, id: Id) {
    exists tx :: tx in f.open && f.open[tx].Recording? && f.open[tx].id == id
  }

  ghost predicate ResultHeld(f: Fine, id: Id) {
    exists u :: u in f.deletions && id in f.deletions[u].resultLocks
  }

  ghost predicate CVHeld(f: Fine, id: Id) {
    exists u :: u in f.deletions && id in GoneFrom(f.deletions[u], 5)
  }

  // An evaluation, and the score rows it replaces, that no deletion has deleted.
  ghost predicate EvaluationFree(f: Fine, change: Change) {
    change.saved.Some? ==>
      forall u :: u in f.deletions ==>
        && change.saved.value.id !in GoneFrom(f.deletions[u], 1)
        && change.saved.value.oldScores !! GoneFrom(f.deletions[u], 0)
  }

  // What a pending evaluation overwrites.
  ghost predicate EvaluationPending(f: Fine, id: Id) {
    exists tx :: tx in f.open && f.open[tx].Recording? && SavedIn(f.open[tx]).Some? && SavedIn(f.open[tx]).value.id == id
  }

  ghost predicate ScorePending(f: Fine, id: Id) {
    exists tx :: tx in f.open && f.open[tx].Recording? && SavedIn(f.open[tx]).Some? && id in SavedIn(f.open[tx]).value.oldScores
  }

  // The rows a statement updates are not locked, and its worker or run is not
  // in the middle of a transaction.
  ghost predicate Unlocked(f: Fine, e: Event) {
    && (SearchRow(f.s, e).Some? ==> !SearchHeld(f, SearchRow(f.s, e).value) && !SearchShared(f, SearchRow(f.s, e).value))
    && (ResultRow(e).Some? ==> !ResultHeld(f, ResultRow(e).value) && !ResultRecorded(f, ResultRow(e).value))
    && (e.Serving? && e.user.CVDeleted? ==> !CVHeld(f, e.user.id))
    && (forall tx :: tx in f.open && f.open[tx].Inserting? ==> RunOf(e) != Some(f.open[tx].run))
    && (forall tx :: tx in f.open && f.open[tx].Recording? ==> WorkerOf(e) != Some(f.open[tx].w))
  }

  // ----- new ids

  function TxIds(t: Txn): set<Id> {
    match t
    case Inserting(_, _, _, Some(NewRow(id, _))) => {id}
    case Recording(_, ResultWritten(_, _, _, _, newId, ids), _, _) => {newId} + IdSet(ids)
    case _ => {}
  }

  // ----- the deletion's own view of the database

  function View(db: DB, gone: seq<set<Id>>): DB
    requires |gone| <= |STEPS|
  {
    if gone == [] then db
    else Without(View(db, gone[..|gone| - 1]), STEPS[|gone| - 1], gone[|gone| - 1])
  }

  function NextDoomed(f: Fine, u: Id): set<Id>
    requires u in f.deletions && f.deletions[u].stage.DeleteRows? && |f.deletions[u].stage.gone| < |STEPS|
  {
    var gone := f.deletions[u].stage.gone;
    Doomed(View(f.s.db, gone), STEPS[|gone|], u)
  }

  // A delete waits for the rows it deletes.
  ghost predicate FreeToDelete(f: Fine, t: Table, ids: set<Id>) {
    match t
    case EvaluationScores => forall id :: id in ids ==> !ScorePending(f, id)
    case Evaluations => forall id :: id in ids ==> !EvaluationPending(f, id)
    case JobSearches => forall id :: id in ids ==> !SearchShared(f, id)
    case SearchResults => forall id :: id in ids ==> !ResultRecorded(f, id)
    case _ => true
  }

  function WithDeleted(d: Deletion, ids: set<Id>): Deletion
    requires d.stage.DeleteRows? && |d.stage.gone| < |STEPS|
  {
    var t := STEPS[|d.stage.gone|];
    Deletion(if t.JobSearches? then d.searchLocks + ids else d.searchLocks,
             if t.SearchResults? then d.resultLocks + ids else d.resultLocks,
             DeleteRows(d.stage.gone + [ids]))
  }

  // ----- steps

  ghost predicate CanStep(c: Config, f: Fine, step: Step) {
    match step
    case One(e) => Can(c, f.s, e) && !IsTransaction(e) && Unlocked(f, e) && (After(c, f.s, e).used - f.s.used) !! f.taken
    case InsertBegun(tx, run, jobId) =>
      && tx !in f.open && run in f.s.runs && jobId in f.s.db.jobs
      && LiveSearch(f.s.db, f.s.runs[run].searchId) && !SearchHeld(f, f.s.runs[run].searchId)
    case Inserted(tx, id) =>
      && tx in f.open && f.open[tx].Inserting? && f.open[tx].row.None? && id !in f.taken
      && forall o :: o in f.open && f.open[o].Inserting? && f.open[o].row.Some? && f.open[o].row.value.NewRow? ==>
           f.open[o].searchId != f.open[tx].searchId || f.open[o].jobId != f.open[tx].jobId
    case RecordBegun(tx, e) =>
      && tx !in f.open && e.ResultWritten? && CanWork(c, f.s, e)
      && f.s.workers[e.w].id in f.s.db.results
      && !ResultHeld(f, f.s.workers[e.w].id) && !ResultRecorded(f, f.s.workers[e.w].id)
      && TxIds(Recording(e.w, e, f.s.workers[e.w].id, None)) !! f.taken
    case Recorded(tx) =>
      && tx in f.open && f.open[tx].Recording? && f.open[tx].change.None?
      && CanWork(c, f.s, f.open[tx].event) && f.open[tx].event.ResultWritten?
      && WriteOf(f.s, f.open[tx].event).id in f.s.db.results && !Conflicts(WriteOf(f.s, f.open[tx].event))
      && EvaluationFree(f, WriteChange(c, f.s.db, WriteOf(f.s, f.open[tx].event)))
    case Committed(tx) =>
      && tx in f.open
      && (f.open[tx].Inserting? ==> f.open[tx].row.Some? && f.open[tx].run in f.s.runs)
      && (f.open[tx].Recording? ==> f.open[tx].change.Some?)
    case RolledBack(tx) => tx in f.open
    case DeletionBegun(u) => u in f.s.db.users && u !in f.deletions
    case SearchLocked(u, id) =>
      && u in f.deletions && f.deletions[u].stage.LockSearches? && id in f.deletions[u].stage.todo
      && !SearchHeld(f, id) && !SearchShared(f, id)
    case SearchesLocked(u) => u in f.deletions && f.deletions[u].stage == LockSearches({})
    case ResultLocked(u, id) =>
      && u in f.deletions && f.deletions[u].stage.LockResults? && id in f.deletions[u].stage.todo
      && !ResultHeld(f, id) && !ResultRecorded(f, id)
    case ResultsLocked(u) => u in f.deletions && f.deletions[u].stage == LockResults({})
    case RowsDeleted(u) =>
      && u in f.deletions && f.deletions[u].stage.DeleteRows? && |f.deletions[u].stage.gone| < |STEPS|
      && FreeToDelete(f, STEPS[|f.deletions[u].stage.gone|], NextDoomed(f, u))
    case DeletionCommitted(u) => u in f.deletions && f.deletions[u].stage.DeleteRows? && |f.deletions[u].stage.gone| == |STEPS|
    case DeletionRolledBack(u) => u in f.deletions
  }

  // The insert, which does nothing when the search already has the job.
  ghost function InsertOf(f: Fine, t: Txn, id: Id): Insert
    requires t.Inserting?
  {
    if ResultKnown(f.s.db, t.searchId, t.jobId) then AlreadyThere else NewRow(id, f.s.now)
  }

  ghost function AfterCommit(f: Fine, tx: Id): Sys
    requires tx in f.open
    requires f.open[tx].Inserting? ==> f.open[tx].row.Some? && f.open[tx].run in f.s.runs
    requires f.open[tx].Recording? ==> f.open[tx].change.Some?
  {
    match f.open[tx]
    case Inserting(run, searchId, jobId, row) =>
      (match row.value
       case AlreadyThere => f.s
       case NewRow(id, at) =>
         var result := NewResult(searchId, f.s.runs[run].userId, jobId, at);
         f.s.(db := f.s.db.(results := f.s.db.results[id := result]), used := f.s.used + {id}))
    case Recording(w, _, _, change) =>
      f.s.(db := Changed(f.s.db, change.value), workers := f.s.workers - {w},
           used := f.s.used + TxIds(f.open[tx]))
  }

  ghost function Next(c: Config, f: Fine, step: Step): Fine
    requires CanStep(c, f, step)
  {
    match step
    case One(e) => f.(s := After(c, f.s, e), taken := f.taken + After(c, f.s, e).used)
    case InsertBegun(tx, run, jobId) =>
      f.(open := f.open[tx := Inserting(run, f.s.runs[run].searchId, jobId, None)])
    case Inserted(tx, id) =>
      var t := f.open[tx];
      f.(taken := f.taken + {id}, open := f.open[tx := t.(row := Some(InsertOf(f, t, id)))])
    case RecordBegun(tx, e) =>
      var t := Recording(e.w, e, f.s.workers[e.w].id, None);
      f.(taken := f.taken + TxIds(t), open := f.open[tx := t])
    case Recorded(tx) =>
      var t := f.open[tx];
      f.(open := f.open[tx := t.(change := Some(WriteChange(c, f.s.db, WriteOf(f.s, t.event))))])
    case Committed(tx) => f.(s := AfterCommit(f, tx), open := f.open - {tx})
    case RolledBack(tx) => f.(open := f.open - {tx})
    case DeletionBegun(u) => f.(deletions := f.deletions[u := Deletion({}, {}, LockSearches(OwnedSearches(f.s.db, u)))])
    case SearchLocked(u, id) =>
      var d := f.deletions[u];
      f.(deletions := f.deletions[u := Deletion(d.searchLocks + {id}, {}, LockSearches(d.stage.todo - {id}))])
    case SearchesLocked(u) =>
      f.(deletions := f.deletions[u := f.deletions[u].(stage := LockResults(OwnedResults(f.s.db, u)))])
    case ResultLocked(u, id) =>
      var d := f.deletions[u];
      f.(deletions := f.deletions[u := Deletion(d.searchLocks, d.resultLocks + {id}, LockResults(d.stage.todo - {id}))])
    case ResultsLocked(u) => f.(deletions := f.deletions[u := f.deletions[u].(stage := DeleteRows([]))])
    case RowsDeleted(u) => f.(deletions := f.deletions[u := WithDeleted(f.deletions[u], NextDoomed(f, u))])
    case DeletionCommitted(u) =>
      f.(s := f.s.(db := View(f.s.db, f.deletions[u].stage.gone)), deletions := f.deletions - {u})
    case DeletionRolledBack(u) => f.(deletions := f.deletions - {u})
  }

  // ----- runs

  ghost predicate IsFineRun(c: Config, f: Fine, steps: seq<Step>)
    decreases |steps|
  {
    steps == [] || (CanStep(c, f, steps[0]) && IsFineRun(c, Next(c, f, steps[0]), steps[1..]))
  }

  ghost function FineEnd(c: Config, f: Fine, steps: seq<Step>): Fine
    requires IsFineRun(c, f, steps)
    decreases |steps|
  {
    if steps == [] then f else FineEnd(c, Next(c, f, steps[0]), steps[1..])
  }
}
