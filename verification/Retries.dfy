// How often a row is tried. While nothing is reclaimed from a worker presumed
// dead, attempts stay within MaxAttempts and the work on jobs comes to an end.
module Retries {
  import opened Common
  import opened RetryDelay
  import opened Tables
  import opened Store
  import opened Worker
  import opened Account
  import opened Machine
  import opened Integrity
  import opened Reachable
  import opened Ownership
  import opened Sums

  // ----- the attempts bound

  predicate JobBounded(c: Config, j: Job) {
    && 0 <= j.attempts
    && (j.status == JobNew || j.status == JobDescribed ==> j.attempts < c.maxAttempts)
    && (j.status == JobProcessing ==> 1 <= j.attempts <= c.maxAttempts)
  }

  predicate ResultBounded(c: Config, r: SearchResult) {
    && 0 <= r.attempts
    && (r.evalStatus == Pending ==> r.attempts < c.maxAttempts)
    && (r.evalStatus == Processing ==> 1 <= r.attempts <= c.maxAttempts)
  }

  ghost predicate Bounded(c: Config, db: DB) {
    && (forall j :: j in db.jobs ==> JobBounded(c, db.jobs[j]))
    && (forall r :: r in db.results ==> ResultBounded(c, db.results[r]))
  }

  lemma WrittenJobBounded(c: Config, j: Job, claimed: Job, out: EmbedOutcome, cancelled: bool, now: Time)
    requires JobBounded(c, j) && j.status == JobProcessing && j.attempts == claimed.attempts
    ensures JobBounded(c, WrittenJob(c, j, claimed, out, cancelled, now))
  {
  }

  lemma WrittenResultBounded(c: Config, db: DB, w: Write)
    requires w.id in db.results && HasIds(w)
    requires ResultBounded(c, db.results[w.id]) && db.results[w.id].evalStatus == Processing
    requires db.results[w.id].attempts == w.attempts
    ensures ResultBounded(c, WriteChange(c, db, w).row)
  {
  }

  lemma WriteKeepsBounded(c: Config, db: DB, w: Write)
    requires Bounded(c, db) && HasIds(w)
    requires w.id in db.results ==> db.results[w.id].evalStatus == Processing && db.results[w.id].attempts == w.attempts
    ensures Bounded(c, WriteResult(c, db, w))
  {
    if w.id in db.results && !Conflicts(w) {
      WrittenResultBounded(c, db, w);
      ChangeTouchesOneRow(db, WriteChange(c, db, w));
    }
  }

  lemma WorkKeepsBounded(c: Config, s: Sys, e: WorkEvent)
    requires Bounded(c, s.db) && Exclusive(s) && CanWork(c, s, e) && FromReady(s, Working(e))
    ensures Bounded(c, AfterWork(c, s, e).db)
  {
    match e {
      case JobClaimed(w, id) => assert JobBounded(c, s.db.jobs[id]);
      case JobWritten(w, details, embedded, cancelled) =>
        var t := s.workers[w];
        assert Held(s.db, t) && JobBounded(c, s.db.jobs[t.id]);
        WrittenJobBounded(c, s.db.jobs[t.id], t.job, EmbedStep(t.job, details, embedded), cancelled, s.now);
      case ResultClaimed(w, id) => assert ResultBounded(c, s.db.results[id]);
      case ResultWritten(w, _, _, _, _, _) =>
        assert Held(s.db, s.workers[w]);
        WriteKeepsBounded(c, s.db, WriteOf(s, e));
      case _ =>
    }
  }

  lemma SearchKeepsBounded(c: Config, s: Sys, e: SearchEvent)
    requires Bounded(c, s.db) && CanSearch(s, e)
    ensures Bounded(c, AfterSearch(c, s, e).db)
  {
    if IsService(e) {
      ServiceTouches(c, s, e);
    }
  }

  lemma UserKeepsBounded(c: Config, s: Sys, e: UserEvent)
    requires Bounded(c, s.db) && CanUser(s, e)
    ensures Bounded(c, AfterUser(s, e).db)
  {
    if e.AccountDeleted? {
      StepsRemove(s.db, e.userId, |STEPS|);
    }
  }

  lemma StepKeepsBounded(c: Config, s: Sys, e: Event)
    requires Bounded(c, s.db) && Exclusive(s) && Can(c, s, e) && FromReady(s, e)
    ensures Bounded(c, After(c, s, e).db)
  {
    match e {
      case Working(we) => WorkKeepsBounded(c, s, we);
      case Searching(se) => SearchKeepsBounded(c, s, se);
      case Serving(ue) => UserKeepsBounded(c, s, ue);
      case Tick(_) =>
    }
  }

  ghost predicate NoReclaims(c: Config, s: Sys, events: seq<Event>)
    requires IsRun(c, s, events)
    decreases |events|
  {
    events != [] ==> FromReady(s, events[0]) && NoReclaims(c, After(c, s, events[0]), events[1..])
  }

  lemma {:induction false} BoundedThroughout(c: Config, s: Sys, events: seq<Event>)
    requires Good(s) && Exclusive(s) && Bounded(c, s.db) && IsRun(c, s, events) && NoReclaims(c, s, events)
    ensures Good(End(c, s, events)) && Exclusive(End(c, s, events)) && Bounded(c, End(c, s, events).db)
    decreases |events|
  {
    if events != [] {
      FromReadyIsFenced(c, s, events[0]);
      StepKeepsBounded(c, s, events[0]);
      StepKeepsExclusive(c, s, events[0]);
      StepKeepsGood(c, s, events[0]);
      BoundedThroughout(c, After(c, s, events[0]), events[1..]);
    }
  }

  // In runs without stale reclaims, even with shutdowns, re-evaluations and
  // results waiting for a CV: a row ready for work has been tried fewer than
  // MaxAttempts times, and one being worked on at most MaxAttempts times.
  lemma AttemptsAreBounded(c: Config, s: Sys, events: seq<Event>)
    requires Initial(s) && IsRun(c, s, events) && NoReclaims(c, s, events)
    ensures Bounded(c, End(c, s, events).db)
  {
    InitialIsGood(s);
    BoundedThroughout(c, s, events);
  }

  // ----- retries wait

  // The job is ready, but not before this time.
  ghost predicate Waiting(db: DB, id: Id, until: Time) {
    id in db.jobs && (db.jobs[id].status == JobNew || db.jobs[id].status == JobDescribed)
    && db.jobs[id].nextAttemptAt == Some(until)
  }

  predicate Claims(e: Event, id: Id) {
    e.Working? && e.work.JobClaimed? && e.work.id == id
  }

  // A write that reports a failure which is not the last.
  predicate FailsForNow(c: Config, s: Sys, e: WorkEvent) {
    && e.JobWritten? && e.w in s.workers && s.workers[e.w].EmbedTask? && !e.cancelled
    && var err := EmbedStep(s.workers[e.w].job, e.details, e.embedded).err;
       err.Some? && !GivesUp(c, s.workers[e.w].job.attempts, err.value)
  }

  function RetryAt(c: Config, s: Sys, e: WorkEvent): Time
    requires FailsForNow(c, s, e)
  {
    s.now + Delay(c.baseBackoff, c.maxBackoff, Max(s.workers[e.w].job.attempts - 1, 0))
  }

  lemma FailureWaits(c: Config, s: Sys, e: WorkEvent)
    requires Exclusive(s) && CanWork(c, s, e) && FailsForNow(c, s, e)
    ensures Waiting(AfterWork(c, s, e).db, s.workers[e.w].id, RetryAt(c, s, e))
  {
    assert Held(s.db, s.workers[e.w]);
  }

  lemma StepKeepsWaiting(c: Config, s: Sys, e: Event, id: Id, until: Time)
    requires Exclusive(s) && IdsUsed(s) && Can(c, s, e) && Waiting(s.db, id, until)
    ensures if Claims(e, id) then s.now >= until else Waiting(After(c, s, e).db, id, until)
  {
    match e {
      case Working(we) => WorkKeepsWaiting(c, s, we, id, until);
      case Searching(se) => SearchKeepsJob(c, s, se, id);
      case Serving(ue) => UserKeepsJobs(s, ue);
      case Tick(_) =>
    }
  }

  lemma WorkKeepsWaiting(c: Config, s: Sys, e: WorkEvent, id: Id, until: Time)
    requires Exclusive(s) && CanWork(c, s, e) && Waiting(s.db, id, until)
    ensures if Claims(Working(e), id) then s.now >= until else Waiting(AfterWork(c, s, e).db, id, until)
  {
    match e {
      case JobWritten(w, _, _, _) => assert Held(s.db, s.workers[w]);
      case ResultWritten(_, _, _, _, _, _) => WriteTouchesOneRow(c, s.db, WriteOf(s, e));
      case _ =>
    }
  }

  // The next claim of the job in a run, if any, is not before this time.
  ghost predicate NextClaimNotBefore(c: Config, s: Sys, events: seq<Event>, id: Id, until: Time)
    requires IsRun(c, s, events)
    decreases |events|
  {
    events != [] ==>
      if Claims(events[0], id) then s.now >= until
      else NextClaimNotBefore(c, After(c, s, events[0]), events[1..], id, until)
  }

  lemma {:induction false} WaitingIsNotClaimed(c: Config, s: Sys, events: seq<Event>, id: Id, until: Time)
    requires Good(s) && Exclusive(s) && IsRun(c, s, events) && OnTimeRun(c, s, events) && Waiting(s.db, id, until)
    ensures NextClaimNotBefore(c, s, events, id, until)
    decreases |events|
  {
    if events != [] {
      StepKeepsWaiting(c, s, events[0], id, until);
      if !Claims(events[0], id) {
        OnTimeIsFenced(c, s, events[0]);
        StepKeepsExclusive(c, s, events[0]);
        StepKeepsGood(c, s, events[0]);
        WaitingIsNotClaimed(c, After(c, s, events[0]), events[1..], id, until);
      }
    }
  }

  // After a failed attempt that is not the last, whatever happens meanwhile,
  // the job's next attempt does not begin before the delay has passed.
  lemma RetriesWait(c: Config, s: Sys, e: WorkEvent, events: seq<Event>)
    requires Good(s) && Exclusive(s) && Can(c, s, Working(e)) && OnTime(c, s) && FailsForNow(c, s, e)
    requires IsRun(c, After(c, s, Working(e)), events) && OnTimeRun(c, After(c, s, Working(e)), events)
    ensures NextClaimNotBefore(c, After(c, s, Working(e)), events, s.workers[e.w].id, RetryAt(c, s, e))
  {
    FailureWaits(c, s, e);
    OnTimeIsFenced(c, s, Working(e));
    StepKeepsExclusive(c, s, Working(e));
    StepKeepsGood(c, s, Working(e));
    WaitingIsNotClaimed(c, After(c, s, Working(e)), events, s.workers[e.w].id, RetryAt(c, s, e));
  }

  // ----- work on jobs ends

  predicate Settled(j: Job) {
    j.status == JobEmbedded || j.status == JobFailed
  }

  // The attempts a job has left.
  function Left(c: Config, j: Job): int {
    if Settled(j) then 0 else c.maxAttempts - j.attempts
  }

  function LeftOf(c: Config, db: DB): Id -> int {
    id => if id in db.jobs then Left(c, db.jobs[id]) else 0
  }

  ghost function AttemptsLeft(c: Config, db: DB): int {
    Sum(db.jobs.Keys, LeftOf(c, db))
  }

  lemma AttemptsLeftBounded(c: Config, db: DB)
    requires Bounded(c, db)
    ensures 0 <= AttemptsLeft(c, db) <= |db.jobs| * c.maxAttempts
  {
    forall id | id in db.jobs.Keys
      ensures 0 <= LeftOf(c, db)(id) <= c.maxAttempts
    {
      assert JobBounded(c, db.jobs[id]);
    }
    SumAtMost(db.jobs.Keys, LeftOf(c, db), c.maxAttempts);
    assert |db.jobs| == |db.jobs.Keys|;
  }

  lemma OneJobChanges(c: Config, db: DB, id: Id, job: Job)
    requires id in db.jobs
    ensures var next := db.(jobs := db.jobs[id := job]);
            AttemptsLeft(c, next) == AttemptsLeft(c, db) - Left(c, db.jobs[id]) + Left(c, job)
  {
    var next := db.(jobs := db.jobs[id := job]);
    assert next.jobs.Keys == db.jobs.Keys;
    SumChanges(db.jobs.Keys, LeftOf(c, db), LeftOf(c, next), id);
  }

  lemma WrittenLeft(c: Config, j: Job, claimed: Job, out: EmbedOutcome, now: Time)
    requires JobBounded(c, j) && j.status == JobProcessing
    ensures Left(c, WrittenJob(c, j, claimed, out, false, now)) <= Left(c, j)
  {
  }

  // A step of a run without reclaims, shutdown releases or new postings.
  predicate Steady(s: Sys, e: Event) {
    && FromReady(s, e)
    && (e.Working? && e.work.JobWritten? ==> !e.work.cancelled)
    && !(e.Searching? && e.search.PostingStored?)
  }

  predicate ClaimsJob(e: Event) {
    e.Working? && e.work.JobClaimed?
  }

  lemma WorkUsesAttempts(c: Config, s: Sys, e: WorkEvent)
    requires Bounded(c, s.db) && Exclusive(s) && CanWork(c, s, e) && Steady(s, Working(e))
    ensures AttemptsLeft(c, AfterWork(c, s, e).db) + (if e.JobClaimed? then 1 else 0) <= AttemptsLeft(c, s.db)
  {
    match e {
      case JobClaimed(w, id) => OneJobChanges(c, s.db, id, ClaimedJob(s.db.jobs[id], s.now));
      case JobWritten(w, details, embedded, cancelled) =>
        var t := s.workers[w];
        assert Held(s.db, t) && JobBounded(c, s.db.jobs[t.id]);
        var out := EmbedStep(t.job, details, embedded);
        WrittenLeft(c, s.db.jobs[t.id], t.job, out, s.now);
        OneJobChanges(c, s.db, t.id, WrittenJob(c, s.db.jobs[t.id], t.job, out, cancelled, s.now));
      case ResultWritten(_, _, _, _, _, _) =>
        WriteTouchesOneRow(c, s.db, WriteOf(s, e));
        SameJobsSameLeft(c, s.db, AfterWork(c, s, e).db);
      case _ => SameJobsSameLeft(c, s.db, AfterWork(c, s, e).db);
    }
  }

  lemma SameJobsSameLeft(c: Config, db: DB, next: DB)
    requires next.jobs == db.jobs
    ensures AttemptsLeft(c, next) == AttemptsLeft(c, db)
  {
    SumSame(db.jobs.Keys, LeftOf(c, db), LeftOf(c, next));
  }

  lemma StepUsesAttempts(c: Config, s: Sys, e: Event)
    requires Bounded(c, s.db) && Exclusive(s) && Can(c, s, e) && Steady(s, e)
    ensures AttemptsLeft(c, After(c, s, e).db) + (if ClaimsJob(e) then 1 else 0) <= AttemptsLeft(c, s.db)
  {
    match e {
      case Working(we) => WorkUsesAttempts(c, s, we);
      case Searching(se) =>
        SearchKeepsJobs(c, s, se);
        SameJobsSameLeft(c, s.db, After(c, s, e).db);
      case Serving(ue) =>
        UserKeepsJobs(s, ue);
        SameJobsSameLeft(c, s.db, After(c, s, e).db);
      case Tick(_) => SameJobsSameLeft(c, s.db, After(c, s, e).db);
    }
  }

  lemma SearchKeepsJobs(c: Config, s: Sys, e: SearchEvent)
    requires CanSearch(s, e) && !e.PostingStored?
    ensures AfterSearch(c, s, e).db.jobs == s.db.jobs
  {
    if IsService(e) {
      ServiceTouches(c, s, e);
    }
  }

  ghost predicate SteadyRun(c: Config, s: Sys, events: seq<Event>)
    requires IsRun(c, s, events)
    decreases |events|
  {
    events != [] ==> Steady(s, events[0]) && SteadyRun(c, After(c, s, events[0]), events[1..])
  }

  function JobClaims(events: seq<Event>): nat {
    if events == [] then 0 else (if ClaimsJob(events[0]) then 1 else 0) + JobClaims(events[1..])
  }

  lemma {:induction false} ClaimsUseAttempts(c: Config, s: Sys, events: seq<Event>)
    requires Good(s) && Exclusive(s) && Bounded(c, s.db) && IsRun(c, s, events) && SteadyRun(c, s, events)
    ensures JobClaims(events) + AttemptsLeft(c, End(c, s, events).db) <= AttemptsLeft(c, s.db)
    ensures Bounded(c, End(c, s, events).db)
    decreases |events|
  {
    if events != [] {
      FromReadyIsFenced(c, s, events[0]);
      StepUsesAttempts(c, s, events[0]);
      StepKeepsBounded(c, s, events[0]);
      StepKeepsExclusive(c, s, events[0]);
      StepKeepsGood(c, s, events[0]);
      ClaimsUseAttempts(c, After(c, s, events[0]), events[1..]);
    }
  }

  // However workers interleave, n jobs are claimed at most n * MaxAttempts times.
  lemma ClaimsAreBounded(c: Config, s: Sys, events: seq<Event>)
    requires Good(s) && Exclusive(s) && Bounded(c, s.db) && IsRun(c, s, events) && SteadyRun(c, s, events)
    ensures JobClaims(events) <= |s.db.jobs| * c.maxAttempts
  {
    ClaimsUseAttempts(c, s, events);
    AttemptsLeftBounded(c, s.db);
    AttemptsLeftBounded(c, End(c, s, events).db);
  }

  // ----- one worker at a time

  // A round of EmbedOne: claim a ready job and write its outcome.
  datatype Round = Round(id: Id, now: Time, later: Time, details: Outcome<string, Failure>, embedded: Outcome<Vector, Failure>)

  predicate CanRound(db: DB, r: Round) {
    r.id in db.jobs && !db.jobs[r.id].deleted && JobReady(db.jobs[r.id], r.now)
  }

  function AfterRound(c: Config, db: DB, r: Round): DB
    requires CanRound(db, r)
  {
    var claimed := ClaimJob(db, r.id, r.now);
    var job := claimed.jobs[r.id];
    WriteJob(c, claimed, r.id, job, EmbedStep(job, r.details, r.embedded), false, r.later)
  }

  // No job is left over from an earlier worker, and none is deleted.
  ghost predicate Idle(db: DB) {
    forall j :: j in db.jobs ==> db.jobs[j].status != JobProcessing && !db.jobs[j].deleted
  }

  // The job after a round.
  function Handled(c: Config, j: Job, r: Round): Job {
    var claimed := ClaimedJob(j, r.now);
    WrittenJob(c, claimed, claimed, EmbedStep(claimed, r.details, r.embedded), false, r.later)
  }

  lemma RoundTouchesOneJob(c: Config, db: DB, r: Round)
    requires CanRound(db, r)
    ensures AfterRound(c, db, r) == db.(jobs := db.jobs[r.id := Handled(c, db.jobs[r.id], r)])
  {
    var claimed := ClaimedJob(db.jobs[r.id], r.now);
    assert ClaimJob(db, r.id, r.now).jobs[r.id] == claimed;
    assert db.jobs[r.id := claimed][r.id := Handled(c, db.jobs[r.id], r)] == db.jobs[r.id := Handled(c, db.jobs[r.id], r)];
  }

  lemma HandledUsesAttempt(c: Config, j: Job, r: Round)
    requires JobBounded(c, j) && JobReady(j, r.now) && !j.deleted
    ensures var h := Handled(c, j, r);
            JobBounded(c, h) && h.status != JobProcessing && !h.deleted && Left(c, h) < Left(c, j)
  {
    var claimed := ClaimedJob(j, r.now);
    var out := EmbedStep(claimed, r.details, r.embedded);
    WrittenJobBounded(c, claimed, claimed, out, false, r.later);
    WrittenLeft(c, claimed, claimed, out, r.later);
  }

  lemma RoundUsesAttempt(c: Config, db: DB, r: Round)
    requires Bounded(c, db) && Idle(db) && CanRound(db, r)
    ensures var next := AfterRound(c, db, r);
            Bounded(c, next) && Idle(next) && next.jobs.Keys == db.jobs.Keys && AttemptsLeft(c, next) < AttemptsLeft(c, db)
  {
    assert JobBounded(c, db.jobs[r.id]);
    HandledUsesAttempt(c, db.jobs[r.id], r);
    var h := Handled(c, db.jobs[r.id], r);
    RoundTouchesOneJob(c, db, r);
    OneJobChanges(c, db, r.id, h);
    OneJobKeepsBounded(c, db, r.id, h);
  }

  lemma OneJobKeepsBounded(c: Config, db: DB, id: Id, job: Job)
    requires Bounded(c, db) && Idle(db) && id in db.jobs
    requires JobBounded(c, job) && job.status != JobProcessing && !job.deleted
    ensures var next := db.(jobs := db.jobs[id := job]);
            Bounded(c, next) && Idle(next) && next.jobs.Keys == db.jobs.Keys
  {
  }

  predicate CanRounds(c: Config, db: DB, rs: seq<Round>)
    decreases |rs|
  {
    rs != [] ==> CanRound(db, rs[0]) && CanRounds(c, AfterRound(c, db, rs[0]), rs[1..])
  }

  function AfterRounds(c: Config, db: DB, rs: seq<Round>): DB
    requires CanRounds(c, db, rs)
    decreases |rs|
  {
    if rs == [] then db else AfterRounds(c, AfterRound(c, db, rs[0]), rs[1..])
  }

  lemma {:induction false} RoundsUseAttempts(c: Config, db: DB, rs: seq<Round>)
    requires Bounded(c, db) && Idle(db) && CanRounds(c, db, rs)
    ensures var next := AfterRounds(c, db, rs);
            && Bounded(c, next) && Idle(next) && next.jobs.Keys == db.jobs.Keys
            && AttemptsLeft(c, next) + |rs| <= AttemptsLeft(c, db)
    decreases |rs|
  {
    if rs != [] {
      RoundUsesAttempt(c, db, rs[0]);
      RoundsUseAttempts(c, AfterRound(c, db, rs[0]), rs[1..]);
    }
  }

  // A job that is not settled is ready for another round once its delay is over.
  lemma UnsettledIsReadyLater(c: Config, db: DB, id: Id)
    requires Bounded(c, db) && Idle(db) && id in db.jobs && !Settled(db.jobs[id])
    ensures exists now: Time :: JobReady(db.jobs[id], now)
    ensures Left(c, db.jobs[id]) > 0
  {
    assert JobBounded(c, db.jobs[id]);
    assert JobReady(db.jobs[id], db.jobs[id].nextAttemptAt.GetOr(0));
  }

  // n jobs are all embedded or failed after n * MaxAttempts rounds at most: no
  // more rounds are possible, and while a job is unsettled another one is.
  lemma JobsSettle(c: Config, db: DB, rs: seq<Round>)
    requires Bounded(c, db) && Idle(db) && CanRounds(c, db, rs)
    ensures |rs| <= |db.jobs| * c.maxAttempts
    ensures var next := AfterRounds(c, db, rs);
            && (|rs| == |db.jobs| * c.maxAttempts ==> forall id :: id in next.jobs ==> Settled(next.jobs[id]))
            && (forall id :: id in next.jobs && !Settled(next.jobs[id]) ==> exists now: Time :: JobReady(next.jobs[id], now))
  {
    RoundsUseAttempts(c, db, rs);
    AttemptsLeftBounded(c, db);
    var next := AfterRounds(c, db, rs);
    AttemptsLeftBounded(c, next);
    forall id | id in next.jobs && !Settled(next.jobs[id])
      ensures exists now: Time :: JobReady(next.jobs[id], now)
      ensures AttemptsLeft(c, next) > 0
    {
      UnsettledIsReadyLater(c, next, id);
      LeftIsInSum(c, next, id);
    }
  }

  lemma LeftIsInSum(c: Config, db: DB, id: Id)
    requires Bounded(c, db) && id in db.jobs
    ensures AttemptsLeft(c, db) >= Left(c, db.jobs[id])
  {
    TakeOut(db.jobs.Keys, LeftOf(c, db), id);
    forall o | o in db.jobs.Keys - {id}
      ensures 0 <= LeftOf(c, db)(o) <= c.maxAttempts
    {
      assert JobBounded(c, db.jobs[o]);
    }
    SumAtMost(db.jobs.Keys - {id}, LeftOf(c, db), c.maxAttempts);
  }
}
