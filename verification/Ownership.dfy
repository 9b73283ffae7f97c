// Who holds a claimed row. Writes are not fenced, so exclusive ownership
// rests on every claim being of a row that no worker still holds: because
// workers write before their claim goes stale, or because nothing is reclaimed.
module Ownership {
  import opened Common
  import opened Strings
  import opened Tables
  import opened Store
  import opened Worker
  import opened Account
  import opened Machine
  import opened Integrity
  import opened Reachable

  predicate SameRow(a: Task, b: Task) {
    a.EmbedTask? == b.EmbedTask? && a.id == b.id
  }

  // The row a worker holds is still as its claim left it.
  ghost predicate Held(db: DB, t: Task) {
    match t
    case EmbedTask(id, job, at) =>
      && id in db.jobs && !db.jobs[id].deleted
      && db.jobs[id].status == JobProcessing && db.jobs[id].claimedAt == Some(at)
      && db.jobs[id].attempts == job.attempts
    case EvalTask(id, r, at, _) =>
      id in db.results ==>
        && db.results[id].evalStatus == Processing && db.results[id].claimedAt == Some(at)
        && db.results[id].attempts == r.attempts
  }

  // At most one worker is in flight per row, and it holds the row.
  ghost predicate Exclusive(s: Sys) {
    && (forall v, w :: v in s.workers && w in s.workers && v != w ==> !SameRow(s.workers[v], s.workers[w]))
    && (forall w :: w in s.workers ==> Held(s.db, s.workers[w]))
  }

  // A step claims no row that a worker in flight still has.
  ghost predicate Fenced(s: Sys, e: Event) {
    e.Working? ==>
      && (e.work.JobClaimed? ==> forall w :: w in s.workers && s.workers[w].EmbedTask? ==> s.workers[w].id != e.work.id)
      && (e.work.ResultClaimed? ==> forall w :: w in s.workers && s.workers[w].EvalTask? ==> s.workers[w].id != e.work.id)
  }

  // Every worker in flight claimed its row at most StaleTimeout ago.
  ghost predicate OnTime(c: Config, s: Sys) {
    forall w :: w in s.workers ==> s.now <= s.workers[w].claimedAt + c.staleTimeout
  }

  // A step is no stale reclaim: it claims ready rows only.
  predicate FromReady(s: Sys, e: Event) {
    e.Working? ==>
      && (e.work.JobClaimed? && e.work.id in s.db.jobs ==> JobReady(s.db.jobs[e.work.id], s.now))
      && (e.work.ResultClaimed? && e.work.id in s.db.results ==> ResultReady(s.db.results[e.work.id], s.now))
  }

  lemma OnTimeIsFenced(c: Config, s: Sys, e: Event)
    requires Exclusive(s) && OnTime(c, s) && Can(c, s, e)
    ensures Fenced(s, e)
  {
    forall w | w in s.workers
      ensures Held(s.db, s.workers[w]) && s.now <= s.workers[w].claimedAt + c.staleTimeout
    {
    }
  }

  lemma FromReadyIsFenced(c: Config, s: Sys, e: Event)
    requires Exclusive(s) && FromReady(s, e) && Can(c, s, e)
    ensures Fenced(s, e)
  {
    forall w | w in s.workers
      ensures Held(s.db, s.workers[w])
    {
    }
  }

  // ----- one step

  lemma WorkKeepsHeld(c: Config, s: Sys, e: WorkEvent, w: Id)
    requires Exclusive(s) && CanWork(c, s, e) && Fenced(s, Working(e))
    requires w in s.workers && w in AfterWork(c, s, e).workers
    ensures Held(AfterWork(c, s, e).db, AfterWork(c, s, e).workers[w])
  {
    assert Held(s.db, s.workers[w]);
    match e {
      case JobWritten(v, _, _, _) => assert !SameRow(s.workers[v], s.workers[w]);
      case ResultWritten(v, _, _, _, _, _) =>
        assert !SameRow(s.workers[v], s.workers[w]);
        WriteTouchesOneRow(c, s.db, WriteOf(s, e));
      case _ =>
    }
  }

  lemma WriteTouchesOneRow(c: Config, db: DB, w: Write)
    requires HasIds(w)
    ensures WriteResult(c, db, w).jobs == db.jobs
    ensures WriteResult(c, db, w).results.Keys == db.results.Keys
    ensures forall r :: r in db.results && r != w.id ==> WriteResult(c, db, w).results[r] == db.results[r]
  {
    if w.id in db.results && !Conflicts(w) {
      ChangeTouchesOneRow(db, WriteChange(c, db, w));
    }
  }

  lemma WorkKeepsExclusive(c: Config, s: Sys, e: WorkEvent)
    requires Exclusive(s) && IdsUsed(s) && CanWork(c, s, e) && Fenced(s, Working(e))
    ensures Exclusive(AfterWork(c, s, e))
  {
    var next := AfterWork(c, s, e);
    forall w | w in next.workers
      ensures Held(next.db, next.workers[w])
    {
      if w in s.workers {
        WorkKeepsHeld(c, s, e, w);
      }
    }
    forall v, w | v in next.workers && w in next.workers && v != w
      ensures !SameRow(next.workers[v], next.workers[w])
    {
      WorkKeepsApart(c, s, e, v, w);
    }
  }

  lemma WorkKeepsApart(c: Config, s: Sys, e: WorkEvent, v: Id, w: Id)
    requires Exclusive(s) && IdsUsed(s) && CanWork(c, s, e) && Fenced(s, Working(e))
    requires v in AfterWork(c, s, e).workers && w in AfterWork(c, s, e).workers && v != w
    ensures !SameRow(AfterWork(c, s, e).workers[v], AfterWork(c, s, e).workers[w])
  {
    if v in s.workers && w in s.workers {
      assert !SameRow(s.workers[v], s.workers[w]);
    }
  }

  lemma SearchKeepsHeld(c: Config, s: Sys, e: SearchEvent, t: Task)
    requires IdsUsed(s) && CanSearch(s, e) && Held(s.db, t) && t.id in s.used
    ensures Held(AfterSearch(c, s, e).db, t)
  {
    if IsService(e) {
      ServiceTouches(c, s, e);
    }
  }

  lemma UserKeepsHeld(s: Sys, e: UserEvent, t: Task)
    requires CanUser(s, e) && Held(s.db, t)
    ensures Held(AfterUser(s, e).db, t)
  {
    if e.AccountDeleted? {
      StepsRemove(s.db, e.userId, |STEPS|);
    }
  }

  lemma StepKeepsExclusive(c: Config, s: Sys, e: Event)
    requires Exclusive(s) && IdsUsed(s) && Can(c, s, e) && Fenced(s, e)
    ensures Exclusive(After(c, s, e))
  {
    match e {
      case Working(we) => WorkKeepsExclusive(c, s, we);
      case Searching(se) =>
        SearchKeepsWorkers(c, s, se);
        forall w | w in s.workers ensures Held(After(c, s, e).db, s.workers[w]) {
          SearchKeepsHeld(c, s, se, s.workers[w]);
        }
      case Serving(ue) =>
        forall w | w in s.workers ensures Held(After(c, s, e).db, s.workers[w]) {
          UserKeepsHeld(s, ue, s.workers[w]);
        }
      case Tick(_) =>
    }
  }

  lemma SearchKeepsWorkers(c: Config, s: Sys, e: SearchEvent)
    requires CanSearch(s, e)
    ensures AfterSearch(c, s, e).workers == s.workers
  {
  }

  // ----- runs

  // Every state an event of the run starts from is on time.
  ghost predicate OnTimeRun(c: Config, s: Sys, events: seq<Event>)
    requires IsRun(c, s, events)
    decreases |events|
  {
    OnTime(c, s) && (events != [] ==> OnTimeRun(c, After(c, s, events[0]), events[1..]))
  }

  lemma {:induction false} OnTimeKeepsExclusive(c: Config, s: Sys, events: seq<Event>)
    requires Good(s) && Exclusive(s) && IsRun(c, s, events) && OnTimeRun(c, s, events)
    ensures Exclusive(End(c, s, events)) && Good(End(c, s, events))
    decreases |events|
  {
    if events != [] {
      OnTimeIsFenced(c, s, events[0]);
      StepKeepsExclusive(c, s, events[0]);
      StepKeepsGood(c, s, events[0]);
      OnTimeKeepsExclusive(c, After(c, s, events[0]), events[1..]);
    }
  }

  // In every run where each worker writes before its claim is StaleTimeout
  // old, no row ever has two workers.
  lemma OneWorkerPerRow(c: Config, s: Sys, events: seq<Event>, v: Id, w: Id)
    requires Initial(s) && IsRun(c, s, events) && OnTimeRun(c, s, events)
    requires v in End(c, s, events).workers && w in End(c, s, events).workers && v != w
    ensures !SameRow(End(c, s, events).workers[v], End(c, s, events).workers[w])
  {
    InitialIsGood(s);
    OnTimeKeepsExclusive(c, s, events);
  }

  // ----- embedded jobs

  predicate EmbeddedIn(db: DB, id: Id) {
    id in db.jobs && db.jobs[id].status == JobEmbedded
  }

  lemma StepKeepsEmbedded(c: Config, s: Sys, e: Event, id: Id)
    requires Exclusive(s) && IdsUsed(s) && Can(c, s, e) && EmbeddedIn(s.db, id)
    ensures EmbeddedIn(After(c, s, e).db, id)
  {
    match e {
      case Working(we) => WorkKeepsEmbedded(c, s, we, id);
      case Searching(se) => SearchKeepsJob(c, s, se, id);
      case Serving(ue) => UserKeepsJobs(s, ue);
      case Tick(_) =>
    }
  }

  lemma SearchKeepsJob(c: Config, s: Sys, e: SearchEvent, id: Id)
    requires IdsUsed(s) && CanSearch(s, e) && id in s.db.jobs
    ensures id in AfterSearch(c, s, e).db.jobs && AfterSearch(c, s, e).db.jobs[id] == s.db.jobs[id]
  {
    if IsService(e) {
      ServiceTouches(c, s, e);
    } else {
      SchedulerKeepsJob(c, s, e, id);
    }
  }

  lemma SchedulerKeepsJob(c: Config, s: Sys, e: SearchEvent, id: Id)
    requires id in s.used && CanSearch(s, e) && id in s.db.jobs && !IsService(e)
    ensures id in AfterSearch(c, s, e).db.jobs && AfterSearch(c, s, e).db.jobs[id] == s.db.jobs[id]
  {
  }

  lemma UserKeepsJobs(s: Sys, e: UserEvent)
    requires CanUser(s, e)
    ensures AfterUser(s, e).db.jobs == s.db.jobs
  {
    if e.AccountDeleted? {
      StepsRemove(s.db, e.userId, |STEPS|);
    }
  }

  lemma WorkKeepsEmbedded(c: Config, s: Sys, e: WorkEvent, id: Id)
    requires Exclusive(s) && CanWork(c, s, e) && EmbeddedIn(s.db, id)
    ensures EmbeddedIn(AfterWork(c, s, e).db, id)
  {
    match e {
      case JobWritten(w, _, _, _) => assert Held(s.db, s.workers[w]);
      case ResultWritten(w, _, _, _, _, _) => WriteTouchesOneRow(c, s.db, WriteOf(s, e));
      case _ =>
    }
  }

  // Once reached, embedded is never left.
  lemma {:induction false} EmbeddedForGood(c: Config, s: Sys, events: seq<Event>, id: Id)
    requires Good(s) && Exclusive(s) && IsRun(c, s, events) && OnTimeRun(c, s, events)
    requires EmbeddedIn(s.db, id)
    ensures EmbeddedIn(End(c, s, events).db, id)
    decreases |events|
  {
    if events != [] {
      OnTimeIsFenced(c, s, events[0]);
      StepKeepsEmbedded(c, s, events[0], id);
      StepKeepsExclusive(c, s, events[0]);
      StepKeepsGood(c, s, events[0]);
      EmbeddedForGood(c, After(c, s, events[0]), events[1..], id);
    }
  }

  // ----- stored evaluations

  ghost predicate EvaluationEmbedded(db: DB, e: Id)
    requires e in db.evaluations
  {
    var r := db.evaluations[e].resultId;
    r in db.results && EmbeddedIn(db, db.results[r].jobId)
  }

  // The job of a result being evaluated, or evaluated before, is embedded.
  ghost predicate EvaluatedJobsEmbedded(s: Sys) {
    && (forall w :: w in s.workers && s.workers[w].EvalTask? ==> EmbeddedIn(s.db, s.workers[w].result.jobId))
    && (forall e :: e in s.db.evaluations ==> EvaluationEmbedded(s.db, e))
  }

  // Evaluations stay embedded while their results and the jobs stay.
  lemma EvaluationsStayEmbedded(db: DB, next: DB)
    requires forall e :: e in db.evaluations ==> EvaluationEmbedded(db, e)
    requires next.evaluations == db.evaluations
    requires forall id :: EmbeddedIn(db, id) ==> EmbeddedIn(next, id)
    requires forall r :: r in db.results ==> r in next.results && next.results[r].jobId == db.results[r].jobId
    ensures forall e :: e in next.evaluations ==> EvaluationEmbedded(next, e)
  {
    forall e | e in next.evaluations
      ensures EvaluationEmbedded(next, e)
    {
      assert EvaluationEmbedded(db, e);
    }
  }

  lemma ChangeKeepsEvaluationsEmbedded(db: DB, change: Change)
    requires forall e :: e in db.evaluations ==> EvaluationEmbedded(db, e)
    requires change.id in db.results && SamePlace(change.row, db.results[change.id])
    requires change.saved.Some? ==>
               change.saved.value.row.resultId == change.id && EmbeddedIn(db, db.results[change.id].jobId)
    ensures forall e :: e in Changed(db, change).evaluations ==> EvaluationEmbedded(Changed(db, change), e)
  {
    var next := Changed(db, change);
    forall e | e in next.evaluations
      ensures EvaluationEmbedded(next, e)
    {
      if e in db.evaluations {
        assert EvaluationEmbedded(db, e);
      }
    }
  }

  lemma WriteKeepsEvaluationsEmbedded(c: Config, db: DB, w: Write)
    requires forall e :: e in db.evaluations ==> EvaluationEmbedded(db, e)
    requires HasIds(w) && w.newId !in db.evaluations
    requires w.id in db.results ==> EmbeddedIn(db, db.results[w.id].jobId)
    ensures forall e :: e in WriteResult(c, db, w).evaluations ==> EvaluationEmbedded(WriteResult(c, db, w), e)
  {
    if w.id in db.results && !Conflicts(w) {
      WriteIsProper(c, db, w);
      ChangeKeepsEvaluationsEmbedded(db, WriteChange(c, db, w));
    }
  }

  lemma WorkKeepsEvaluated(c: Config, s: Sys, e: WorkEvent)
    requires Good(s) && Exclusive(s) && EvaluatedJobsEmbedded(s) && CanWork(c, s, e)
    ensures EvaluatedJobsEmbedded(AfterWork(c, s, e))
  {
    var next := AfterWork(c, s, e);
    forall id | EmbeddedIn(s.db, id)
      ensures EmbeddedIn(next.db, id)
    {
      WorkKeepsEmbedded(c, s, e, id);
    }
    if e.ResultWritten? {
      assert TaskTrue(s.db, s.workers[e.w]);
      WriteKeepsEvaluationsEmbedded(c, s.db, WriteOf(s, e));
    } else {
      OtherWorkKeepsRows(c, s, e);
      EvaluationsStayEmbedded(s.db, next.db);
    }
    WorkersFromBefore(c, s, e);
  }

  lemma WorkersFromBefore(c: Config, s: Sys, e: WorkEvent)
    requires CanWork(c, s, e)
    ensures forall w :: w in AfterWork(c, s, e).workers && AfterWork(c, s, e).workers[w].EvalTask? ==>
              || (w in s.workers && s.workers[w].EvalTask? && s.workers[w].result == AfterWork(c, s, e).workers[w].result)
              || EmbeddedIn(s.db, AfterWork(c, s, e).workers[w].result.jobId)
  {
  }

  lemma OtherWorkKeepsRows(c: Config, s: Sys, e: WorkEvent)
    requires CanWork(c, s, e) && !e.ResultWritten?
    ensures var next := AfterWork(c, s, e);
            && next.db.evaluations == s.db.evaluations
            && forall r :: r in s.db.results ==> r in next.db.results && next.db.results[r].jobId == s.db.results[r].jobId
  {
  }

  lemma SearchKeepsEvaluated(c: Config, s: Sys, e: SearchEvent)
    requires Good(s) && EvaluatedJobsEmbedded(s) && CanSearch(s, e)
    ensures EvaluatedJobsEmbedded(AfterSearch(c, s, e))
  {
    var next := AfterSearch(c, s, e);
    forall id | EmbeddedIn(s.db, id)
      ensures EmbeddedIn(next.db, id)
    {
      SearchKeepsJob(c, s, e, id);
    }
    SearchKeepsRows(c, s, e);
    SearchKeepsWorkers(c, s, e);
    EvaluationsStayEmbedded(s.db, next.db);
  }

  lemma SearchKeepsRows(c: Config, s: Sys, e: SearchEvent)
    requires IdsUsed(s) && CanSearch(s, e)
    ensures var next := AfterSearch(c, s, e);
            && next.db.evaluations == s.db.evaluations
            && forall r :: r in s.db.results ==> r in next.db.results && next.db.results[r].jobId == s.db.results[r].jobId
  {
    if IsService(e) {
      ServiceTouches(c, s, e);
    }
  }

  lemma UserKeepsEvaluated(s: Sys, e: UserEvent)
    requires Good(s) && EvaluatedJobsEmbedded(s) && CanUser(s, e)
    ensures EvaluatedJobsEmbedded(AfterUser(s, e))
  {
    UserKeepsJobs(s, e);
    if e.AccountDeleted? {
      DeleteErases(s.db, e.userId);
      ErasedStaysEmbedded(s.db, e.userId);
    } else {
      OtherUsersKeepRows(s, e);
      EvaluationsStayEmbedded(s.db, AfterUser(s, e).db);
    }
  }

  lemma ErasedStaysEmbedded(db: DB, u: Id)
    requires forall e :: e in db.evaluations ==> EvaluationEmbedded(db, e)
    ensures forall e :: e in Erased(db, u).evaluations ==> EvaluationEmbedded(Erased(db, u), e)
  {
    forall e | e in Erased(db, u).evaluations
      ensures EvaluationEmbedded(Erased(db, u), e)
    {
      assert EvaluationEmbedded(db, e);
    }
  }

  lemma OtherUsersKeepRows(s: Sys, e: UserEvent)
    requires CanUser(s, e) && !e.AccountDeleted?
    ensures var next := AfterUser(s, e);
            && next.db.evaluations == s.db.evaluations
            && forall r :: r in s.db.results ==> r in next.db.results && next.db.results[r].jobId == s.db.results[r].jobId
  {
  }

  lemma StepKeepsEvaluated(c: Config, s: Sys, e: Event)
    requires Good(s) && Exclusive(s) && EvaluatedJobsEmbedded(s) && Can(c, s, e)
    ensures EvaluatedJobsEmbedded(After(c, s, e))
  {
    match e {
      case Working(we) => WorkKeepsEvaluated(c, s, we);
      case Searching(se) => SearchKeepsEvaluated(c, s, se);
      case Serving(ue) => UserKeepsEvaluated(s, ue);
      case Tick(_) => EvaluationsStayEmbedded(s.db, s.db);
    }
  }

  lemma {:induction false} EvaluatedThroughout(c: Config, s: Sys, events: seq<Event>)
    requires Good(s) && Exclusive(s) && EvaluatedJobsEmbedded(s) && IsRun(c, s, events) && OnTimeRun(c, s, events)
    ensures EvaluatedJobsEmbedded(End(c, s, events))
    decreases |events|
  {
    if events != [] {
      OnTimeIsFenced(c, s, events[0]);
      StepKeepsExclusive(c, s, events[0]);
      StepKeepsEvaluated(c, s, events[0]);
      StepKeepsGood(c, s, events[0]);
      EvaluatedThroughout(c, After(c, s, events[0]), events[1..]);
    }
  }

  // Every evaluation ever stored is of an embedded job.
  lemma StoredEvaluationsAreOfEmbeddedJobs(c: Config, s: Sys, events: seq<Event>, e: Id)
    requires Initial(s) && IsRun(c, s, events) && OnTimeRun(c, s, events)
    requires e in End(c, s, events).db.evaluations
    ensures EvaluationEmbedded(End(c, s, events).db, e)
  {
    InitialIsGood(s);
    EvaluatedThroughout(c, s, events);
  }

  // ----- without the lease this fails

  const START := Sys(EMPTY_DB, 0, map[], map[], {})

  lemma Extend(c: Config, s: Sys, e: Event, rest: seq<Event>)
    requires Can(c, s, e) && IsRun(c, After(c, s, e), rest)
    ensures IsRun(c, s, [e] + rest) && End(c, s, [e] + rest) == End(c, After(c, s, e), rest)
  {
    assert ([e] + rest)[1..] == rest;
  }

  // A worker that outlives its claim's lease is cut short after the job was
  // reclaimed and embedded.
  function TwoWorkers(c: Config): seq<Event> {
    [Searching(PostingStored(1, "portal", "p", "text")), Working(JobClaimed(2, 1)), Tick(c.staleTimeout + 1),
     Working(JobClaimed(3, 1))]
  }

  const EMBEDS := Working(JobWritten(3, Ok("text"), Ok([]), false))
  const IS_CUT_SHORT := Working(JobWritten(2, Ok("text"), Err(Failure(false, "shut down")), true))

  const POSTED := NewJob("portal", "p", "text", 0)

  function WithJob(job: Job, now: Time, workers: map<Id, Task>, used: set<Id>): Sys {
    Sys(EMPTY_DB.(jobs := map[1 := job]), now, workers, map[], used)
  }

  function Posted(): Sys {
    WithJob(POSTED, 0, map[], {1})
  }

  function OneClaimed(): Sys {
    var job := ClaimedJob(POSTED, 0);
    WithJob(job, 0, map[2 := EmbedTask(1, job, 0)], {1, 2})
  }

  function BothClaimed(c: Config): Sys {
    var now := c.staleTimeout + 1;
    var job := ClaimedJob(ClaimedJob(POSTED, 0), now);
    WithJob(job, now, OneClaimed().workers[3 := EmbedTask(1, job, now)], {1, 2, 3})
  }

  lemma FirstIsClaimed(c: Config)
    ensures Can(c, START, TwoWorkers(c)[0]) && After(c, START, TwoWorkers(c)[0]) == Posted()
    ensures Can(c, Posted(), TwoWorkers(c)[1]) && After(c, Posted(), TwoWorkers(c)[1]) == OneClaimed()
  {
    assert TrimSpace("p") == "p";
  }

  lemma SecondIsClaimed(c: Config)
    ensures Can(c, OneClaimed(), TwoWorkers(c)[2])
    ensures var late := After(c, OneClaimed(), TwoWorkers(c)[2]);
            Can(c, late, TwoWorkers(c)[3]) && After(c, late, TwoWorkers(c)[3]) == BothClaimed(c)
  {
  }

  lemma BothInFlight(c: Config)
    ensures IsRun(c, START, TwoWorkers(c)) && End(c, START, TwoWorkers(c)) == BothClaimed(c)
  {
    var posted, first, late, second := TwoWorkers(c)[0], TwoWorkers(c)[1], TwoWorkers(c)[2], TwoWorkers(c)[3];
    FirstIsClaimed(c);
    SecondIsClaimed(c);
    var waited := After(c, OneClaimed(), late);
    Extend(c, waited, second, []);
    Extend(c, OneClaimed(), late, [second] + []);
    Extend(c, Posted(), first, [late] + ([second] + []));
    Extend(c, START, posted, [first] + ([late] + ([second] + [])));
    assert TwoWorkers(c) == [posted] + ([first] + ([late] + ([second] + [])));
  }

  // A write takes an embedded job back exactly when it reports an error.
  lemma WriteKeepsEmbeddedExactlyWhen(c: Config, db: DB, id: Id, claimed: Job, out: EmbedOutcome, cancelled: bool, now: Time)
    requires EmbeddedIn(db, id) && !db.jobs[id].deleted
    ensures EmbeddedIn(WriteJob(c, db, id, claimed, out, cancelled, now), id) <==> out.err.None?
  {
  }

  // A step writes an error to the job; a job that is gone is left alone.
  predicate TakesBack(s: Sys, e: Event, id: Id) {
    && e.Working? && e.work.JobWritten? && e.work.w in s.workers
    && var t := s.workers[e.work.w];
       && t.EmbedTask? && t.id == id && id in s.db.jobs && !s.db.jobs[id].deleted
       && EmbedStep(t.job, e.work.details, e.work.embedded).err.Some?
  }

  lemma WorkLeavesEmbeddedExactlyWhen(c: Config, s: Sys, e: WorkEvent, id: Id)
    requires CanWork(c, s, e) && EmbeddedIn(s.db, id)
    ensures EmbeddedIn(AfterWork(c, s, e).db, id) <==> !TakesBack(s, Working(e), id)
  {
    if e.ResultWritten? {
      WriteTouchesOneRow(c, s.db, WriteOf(s, e));
    }
  }

  lemma StepLeavesEmbeddedExactlyWhen(c: Config, s: Sys, e: Event, id: Id)
    requires IdsUsed(s) && Can(c, s, e) && EmbeddedIn(s.db, id)
    ensures EmbeddedIn(After(c, s, e).db, id) <==> !TakesBack(s, e, id)
  {
    match e {
      case Working(we) => WorkLeavesEmbeddedExactlyWhen(c, s, we, id);
      case Searching(se) => SearchKeepsJob(c, s, se, id);
      case Serving(ue) => UserKeepsJobs(s, ue);
      case Tick(_) =>
    }
  }

  ghost predicate EmbeddedThroughout(c: Config, s: Sys, events: seq<Event>, id: Id)
    requires IsRun(c, s, events)
    decreases |events|
  {
    EmbeddedIn(s.db, id) && (events != [] ==> EmbeddedThroughout(c, After(c, s, events[0]), events[1..], id))
  }

  ghost predicate NeverTakenBack(c: Config, s: Sys, events: seq<Event>, id: Id)
    requires IsRun(c, s, events)
    decreases |events|
  {
    events != [] ==> !TakesBack(s, events[0], id) && NeverTakenBack(c, After(c, s, events[0]), events[1..], id)
  }

  // Over every run, late writers included: an embedded job stays embedded
  // throughout exactly when no write to it reports an error.
  lemma {:induction false} StaysEmbeddedExactlyWhen(c: Config, s: Sys, events: seq<Event>, id: Id)
    requires Good(s) && EmbeddedIn(s.db, id) && IsRun(c, s, events)
    ensures EmbeddedThroughout(c, s, events, id) <==> NeverTakenBack(c, s, events, id)
    decreases |events|
  {
    if events != [] {
      StepLeavesEmbeddedExactlyWhen(c, s, events[0], id);
      if !TakesBack(s, events[0], id) {
        StepKeepsGood(c, s, events[0]);
        StaysEmbeddedExactlyWhen(c, After(c, s, events[0]), events[1..], id);
      }
    }
  }

  // So a late write can take an embedded job back.
  lemma LateWriteUndoesEmbedding(c: Config)
    ensures IsRun(c, START, TwoWorkers(c))
    ensures var s := End(c, START, TwoWorkers(c));
            && IsRun(c, s, [EMBEDS]) && EmbeddedIn(End(c, s, [EMBEDS]).db, 1)
            && IsRun(c, s, [EMBEDS] + [IS_CUT_SHORT]) && !EmbeddedIn(End(c, s, [EMBEDS] + [IS_CUT_SHORT]).db, 1)
  {
    BothInFlight(c);
    var s := BothClaimed(c);
    assert TrimSpace("text") == "text";
    var embedded := After(c, s, EMBEDS);
    Extend(c, s, EMBEDS, []);
    assert [EMBEDS] + [] == [EMBEDS];
    Extend(c, embedded, IS_CUT_SHORT, []);
    assert [IS_CUT_SHORT] + [] == [IS_CUT_SHORT];
    Extend(c, s, EMBEDS, [IS_CUT_SHORT]);
  }
}
