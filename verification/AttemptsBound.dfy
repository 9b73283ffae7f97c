// Exactly when the bound on attempts holds. Neither the claim statement nor a
// worker's write looks at the attempts the row has by then, so a reclaim or
// the late write of a worker that lost its claim can break it.
module AttemptsBound {
  import opened Common
  import opened Strings
  import opened Tables
  import opened Store
  import opened Worker
  import opened Machine
  import opened Reachable
  import opened Ownership
  import opened Retries

  // ----- one event

  // A claim keeps the bound exactly when it is not of a row whose last attempt
  // is already being made.
  lemma ClaimKeepsBoundExactlyWhen(c: Config, db: DB, id: Id, now: Time)
    requires JobClaimable(db, id, now, now - c.staleTimeout) && Bounded(c, db)
    ensures Bounded(c, ClaimJob(db, id, now)) <==>
            !(db.jobs[id].status == JobProcessing && db.jobs[id].attempts == c.maxAttempts)
  {
    assert JobBounded(c, db.jobs[id]);
    if Bounded(c, ClaimJob(db, id, now)) {
      assert JobBounded(c, ClaimJob(db, id, now).jobs[id]);
    }
  }

  // The same for results.
  lemma ResultClaimKeepsBoundExactlyWhen(c: Config, db: DB, id: Id, now: Time)
    requires ResultClaimable(db, id, now, now - c.staleTimeout) && Bounded(c, db)
    ensures Bounded(c, ClaimResult(db, id, now)) <==>
            !(db.results[id].evalStatus == Processing && db.results[id].attempts == c.maxAttempts)
  {
    assert ResultBounded(c, db.results[id]);
    if Bounded(c, ClaimResult(db, id, now)) {
      assert ResultBounded(c, ClaimResult(db, id, now).results[id]);
    }
  }

  // The write of an outcome does not leave a row ready that was tried as often
  // as allowed: it reports no error, releases the row, gives it up, or finds
  // it with attempts to spare.
  predicate JobWriteFits(c: Config, db: DB, id: Id, claimed: Job, out: EmbedOutcome, cancelled: bool) {
    || id !in db.jobs || db.jobs[id].deleted
    || out.err.None? || cancelled || GivesUp(c, claimed.attempts, out.err.value)
    || db.jobs[id].attempts < c.maxAttempts
  }

  lemma WrittenJobBoundedExactlyWhen(c: Config, j: Job, claimed: Job, out: EmbedOutcome, cancelled: bool, now: Time)
    requires JobBounded(c, j) && 1 <= claimed.attempts <= c.maxAttempts
    ensures JobBounded(c, WrittenJob(c, j, claimed, out, cancelled, now)) <==>
            out.err.None? || cancelled || GivesUp(c, claimed.attempts, out.err.value) || j.attempts < c.maxAttempts
  {
  }

  lemma OneJobBounded(c: Config, db: DB, next: DB, id: Id, job: Job)
    requires Bounded(c, db) && next.results == db.results && next.jobs == db.jobs[id := job]
    ensures Bounded(c, next) <==> JobBounded(c, job)
  {
    assert Bounded(c, next) ==> JobBounded(c, next.jobs[id]);
  }

  lemma JobWriteKeepsBoundExactlyWhen(c: Config, db: DB, id: Id, claimed: Job, out: EmbedOutcome, cancelled: bool, now: Time)
    requires Bounded(c, db) && 1 <= claimed.attempts <= c.maxAttempts
    ensures Bounded(c, WriteJob(c, db, id, claimed, out, cancelled, now)) <==>
            JobWriteFits(c, db, id, claimed, out, cancelled)
  {
    if id in db.jobs && !db.jobs[id].deleted {
      WrittenJobBoundedExactlyWhen(c, db.jobs[id], claimed, out, cancelled, now);
      OneJobBounded(c, db, WriteJob(c, db, id, claimed, out, cancelled, now), id,
                    WrittenJob(c, db.jobs[id], claimed, out, cancelled, now));
    }
  }

  predicate ResultWriteFits(c: Config, db: DB, w: Write) {
    || w.id !in db.results || Conflicts(w)
    || Released(w) || NoCv(w) || StepError(w.out).None? || GivesUp(c, w.attempts, StepError(w.out).value)
    || db.results[w.id].attempts < c.maxAttempts
  }

  lemma WrittenRowBoundedExactlyWhen(c: Config, db: DB, w: Write)
    requires w.id in db.results && ResultBounded(c, db.results[w.id]) && HasIds(w) && !Conflicts(w)
    requires 1 <= w.attempts <= c.maxAttempts
    ensures ResultBounded(c, WriteChange(c, db, w).row) <==> ResultWriteFits(c, db, w)
  {
  }

  lemma ResultWriteKeepsBoundExactlyWhen(c: Config, db: DB, w: Write)
    requires Bounded(c, db) && HasIds(w) && 1 <= w.attempts <= c.maxAttempts
    ensures Bounded(c, WriteResult(c, db, w)) <==> ResultWriteFits(c, db, w)
  {
    if w.id in db.results && !Conflicts(w) {
      var change := WriteChange(c, db, w);
      WrittenRowBoundedExactlyWhen(c, db, w);
      ChangeTouchesOneRow(db, change);
      OneRowBounded(c, db, WriteResult(c, db, w), w.id, change.row);
    }
  }

  lemma OneRowBounded(c: Config, db: DB, next: DB, id: Id, row: SearchResult)
    requires Bounded(c, db) && next.jobs == db.jobs && next.results == db.results[id := row]
    ensures Bounded(c, next) <==> ResultBounded(c, row)
  {
    assert Bounded(c, next) ==> ResultBounded(c, next.results[id]);
  }

  // ----- whole runs

  predicate TaskBounded(c: Config, t: Task) {
    match t
    case EmbedTask(_, job, _) => 1 <= job.attempts <= c.maxAttempts
    case EvalTask(_, r, _, _) => 1 <= r.attempts <= c.maxAttempts
  }

  ghost predicate TasksBounded(c: Config, s: Sys) {
    forall w :: w in s.workers ==> TaskBounded(c, s.workers[w])
  }

  // No claim is of a row on its last attempt, and every write fits.
  predicate Fits(c: Config, s: Sys, e: WorkEvent) {
    match e
    case JobClaimed(_, id) =>
      id in s.db.jobs ==> !(s.db.jobs[id].status == JobProcessing && s.db.jobs[id].attempts == c.maxAttempts)
    case ResultClaimed(_, id) =>
      id in s.db.results ==> !(s.db.results[id].evalStatus == Processing && s.db.results[id].attempts == c.maxAttempts)
    case JobWritten(w, details, embedded, cancelled) =>
      w in s.workers && s.workers[w].EmbedTask? ==>
        var t := s.workers[w];
        JobWriteFits(c, s.db, t.id, t.job, EmbedStep(t.job, details, embedded), cancelled)
    case ResultWritten(w, _, _, _, _, _) =>
      w in s.workers && s.workers[w].EvalTask? ==> ResultWriteFits(c, s.db, WriteOf(s, e))
    case _ => true
  }

  lemma WorkKeepsBoundExactlyWhen(c: Config, s: Sys, e: WorkEvent)
    requires Bounded(c, s.db) && TasksBounded(c, s) && CanWork(c, s, e)
    ensures Bounded(c, AfterWork(c, s, e).db) <==> Fits(c, s, e)
  {
    match e {
      case JobClaimed(_, id) => ClaimKeepsBoundExactlyWhen(c, s.db, id, s.now);
      case ResultClaimed(_, id) => ResultClaimKeepsBoundExactlyWhen(c, s.db, id, s.now);
      case JobWritten(w, details, embedded, cancelled) =>
        var t := s.workers[w];
        JobWriteKeepsBoundExactlyWhen(c, s.db, t.id, t.job, EmbedStep(t.job, details, embedded), cancelled, s.now);
      case ResultWritten(w, _, _, _, _, _) =>
        assert TaskBounded(c, s.workers[w]);
        ResultWriteKeepsBoundExactlyWhen(c, s.db, WriteOf(s, e));
      case _ =>
    }
  }

  lemma ClaimsBoundTasks(c: Config, s: Sys, e: WorkEvent)
    requires TasksBounded(c, s) && CanWork(c, s, e) && Bounded(c, AfterWork(c, s, e).db)
    ensures TasksBounded(c, AfterWork(c, s, e))
  {
    var next := AfterWork(c, s, e);
    if e.JobClaimed? {
      assert JobBounded(c, next.db.jobs[e.id]);
    } else if e.ResultClaimed? {
      assert ResultBounded(c, next.db.results[e.id]);
    }
  }

  predicate EventFits(c: Config, s: Sys, e: Event) {
    e.Working? ==> Fits(c, s, e.work)
  }

  lemma EventKeepsBoundExactlyWhen(c: Config, s: Sys, e: Event)
    requires Bounded(c, s.db) && TasksBounded(c, s) && Can(c, s, e)
    ensures Bounded(c, After(c, s, e).db) <==> EventFits(c, s, e)
    ensures Bounded(c, After(c, s, e).db) ==> TasksBounded(c, After(c, s, e))
  {
    match e {
      case Working(we) =>
        WorkKeepsBoundExactlyWhen(c, s, we);
        if Fits(c, s, we) {
          ClaimsBoundTasks(c, s, we);
        }
      case Searching(se) =>
        SearchKeepsBounded(c, s, se);
        SearchKeepsWorkers(c, s, se);
      case Serving(ue) => UserKeepsBounded(c, s, ue);
      case Tick(_) =>
    }
  }

  ghost predicate BoundedAlways(c: Config, s: Sys, events: seq<Event>)
    requires IsRun(c, s, events)
    decreases |events|
  {
    Bounded(c, s.db) && (events != [] ==> BoundedAlways(c, After(c, s, events[0]), events[1..]))
  }

  ghost predicate AllFit(c: Config, s: Sys, events: seq<Event>)
    requires IsRun(c, s, events)
    decreases |events|
  {
    events != [] ==> EventFits(c, s, events[0]) && AllFit(c, After(c, s, events[0]), events[1..])
  }

  // Over every run, late writers included: the bound holds throughout exactly
  // when each claim and each write fits.
  lemma {:induction false} BoundHoldsExactlyWhen(c: Config, s: Sys, events: seq<Event>)
    requires Bounded(c, s.db) && TasksBounded(c, s) && IsRun(c, s, events)
    ensures BoundedAlways(c, s, events) <==> AllFit(c, s, events)
    decreases |events|
  {
    if events != [] {
      EventKeepsBoundExactlyWhen(c, s, events[0]);
      if EventFits(c, s, events[0]) {
        BoundHoldsExactlyWhen(c, After(c, s, events[0]), events[1..]);
      }
    }
  }

  // ----- two ways to lose the bound, for any MaxAttempts

  // One worker after the other claims the job when the claim before went stale.
  ghost function Reclaimed(c: Config, k: nat): (s: Sys)
    requires k >= 1
    ensures 1 in s.db.jobs && !s.db.jobs[1].deleted && s.db.jobs[1].status == JobProcessing
    ensures s.db.jobs[1].attempts == k && s.db.jobs[1].claimedAt == Some(s.now)
    ensures 2 in s.workers && s.workers[2] == EmbedTask(1, ClaimedJob(POSTED, 0), 0)
    ensures forall id :: id in s.used ==> id <= k + 1
  {
    if k == 1 then OneClaimed()
    else
      var before := Reclaimed(c, k - 1);
      var now := before.now + c.staleTimeout + 1;
      var job := ClaimedJob(before.db.jobs[1], now);
      WithJob(job, now, before.workers[k + 1 := EmbedTask(1, job, now)], before.used + {k + 1})
  }

  ghost function Reclaims(c: Config, k: nat): seq<Event>
    requires k >= 1
  {
    if k == 1 then TwoWorkers(c)[..2] else Reclaims(c, k - 1) + NextReclaim(c, k)
  }

  ghost function NextReclaim(c: Config, k: nat): seq<Event>
    requires k >= 2
  {
    [Tick(Reclaimed(c, k).now), Working(JobClaimed(k + 1, 1))]
  }

  lemma JoinsTo(c: Config, s: Sys, first: seq<Event>, mid: Sys, rest: seq<Event>, end: Sys)
    requires IsRun(c, s, first) && End(c, s, first) == mid && IsRun(c, mid, rest) && End(c, mid, rest) == end
    ensures IsRun(c, s, first + rest) && End(c, s, first + rest) == end
  {
    RunsJoin(c, s, first, rest);
  }

  ghost predicate LeadsToReclaimed(c: Config, k: nat)
    requires k >= 1
  {
    IsRun(c, START, Reclaims(c, k)) && End(c, START, Reclaims(c, k)) == Reclaimed(c, k)
  }

  lemma FirstLeadsThere(c: Config)
    ensures LeadsToReclaimed(c, 1)
  {
    OneClaim(c);
  }

  lemma ReclaimsGoOn(c: Config, k: nat)
    requires k >= 2 && LeadsToReclaimed(c, k - 1)
    ensures LeadsToReclaimed(c, k)
  {
    OneMoreReclaim(c, k);
    JoinsTo(c, START, Reclaims(c, k - 1), Reclaimed(c, k - 1), NextReclaim(c, k), Reclaimed(c, k));
  }

  lemma {:induction false} AllLeadThere(c: Config, k: nat)
    requires k >= 1
    ensures LeadsToReclaimed(c, k)
  {
    if k == 1 {
      FirstLeadsThere(c);
    } else {
      AllLeadThere(c, k - 1);
      ReclaimsGoOn(c, k);
    }
  }

  lemma ReclaimsLeadThere(c: Config, k: nat)
    requires k >= 1
    ensures IsRun(c, START, Reclaims(c, k)) && End(c, START, Reclaims(c, k)) == Reclaimed(c, k)
  {
    AllLeadThere(c, k);
  }

  lemma OneClaim(c: Config)
    ensures IsRun(c, START, TwoWorkers(c)[..2]) && End(c, START, TwoWorkers(c)[..2]) == OneClaimed()
  {
    FirstIsClaimed(c);
    OneEvent(c, Posted(), TwoWorkers(c)[1]);
    Extend(c, START, TwoWorkers(c)[0], [TwoWorkers(c)[1]]);
    assert TwoWorkers(c)[..2] == [TwoWorkers(c)[0]] + [TwoWorkers(c)[1]];
  }

  lemma OneMoreReclaim(c: Config, k: nat)
    requires k >= 2
    ensures IsRun(c, Reclaimed(c, k - 1), NextReclaim(c, k)) && End(c, Reclaimed(c, k - 1), NextReclaim(c, k)) == Reclaimed(c, k)
  {
    var before := Reclaimed(c, k - 1);
    var tick, claim := Tick(Reclaimed(c, k).now), Working(JobClaimed(k + 1, 1));
    var waited := After(c, before, tick);
    assert k + 1 !in waited.used;
    assert After(c, waited, claim) == Reclaimed(c, k);
    OneEvent(c, waited, claim);
    Extend(c, before, tick, [claim]);
    assert [tick] + [claim] == [tick, claim];
  }

  // Whatever MaxAttempts is, reclaims alone lead to one attempt more.
  lemma StaleReclaimExceedsTheBound(c: Config)
    ensures IsRun(c, START, Reclaims(c, c.maxAttempts + 1))
    ensures !Bounded(c, End(c, START, Reclaims(c, c.maxAttempts + 1)).db)
  {
    ReclaimsLeadThere(c, c.maxAttempts + 1);
    assert !JobBounded(c, Reclaimed(c, c.maxAttempts + 1).db.jobs[1]);
  }

  const FAILS_LATE := Working(JobWritten(2, Ok("text"), Err(Failure(false, "late")), false))

  // And where MaxAttempts is more than one, so does a write: the last allowed
  // attempt is being made when the first worker, to which it was the first,
  // reports its failure and makes the row ready for another.
  lemma LateFailureExceedsTheBound(c: Config)
    requires c.maxAttempts >= 2
    ensures IsRun(c, START, Reclaims(c, c.maxAttempts)) && IsRun(c, START, Reclaims(c, c.maxAttempts) + [FAILS_LATE])
    ensures var db := End(c, START, Reclaims(c, c.maxAttempts) + [FAILS_LATE]).db;
            1 in db.jobs && db.jobs[1].status == JobDescribed && db.jobs[1].attempts == c.maxAttempts && !Bounded(c, db)
  {
    ReclaimsLeadThere(c, c.maxAttempts);
    var s := Reclaimed(c, c.maxAttempts);
    assert TrimSpace("text") == "text";
    assert s.workers[2].job.detail == "text";
    OneEvent(c, s, FAILS_LATE);
    RunsJoin(c, START, Reclaims(c, c.maxAttempts), [FAILS_LATE]);
    var db := After(c, s, FAILS_LATE).db;
    assert db.jobs[1].status == JobDescribed && db.jobs[1].attempts == c.maxAttempts;
    assert !JobBounded(c, db.jobs[1]);
  }
}
