// A result whose evaluation failed waits out its delay: only its user can ask
// for it sooner.
module ResultRetries {
  import opened Common
  import opened RetryDelay
  import opened Tables
  import opened Worker
  import opened Account
  import opened Machine
  import opened Integrity
  import opened Reachable
  import opened Ownership
  import Results

  // A write after which the result is to be tried again later: the user has no
  // CV yet, or the attempt failed and was not the last.
  predicate PutsOff(c: Config, w: Write) {
    && !Released(w) && !Conflicts(w)
    && (NoCv(w) || (StepError(w.out).Some? && !GivesUp(c, w.attempts, StepError(w.out).value)))
  }

  function RetryAt(c: Config, w: Write): Time {
    if NoCv(w) then w.now + c.noCvRetry else w.now + Delay(c.baseBackoff, c.maxBackoff, Max(w.attempts - 1, 0))
  }

  // The result, unless it is deleted by now, is ready at this time.
  ghost predicate ResultWaiting(s: Sys, id: Id, until: Time) {
    && id in s.used
    && (id in s.db.results ==> s.db.results[id].evalStatus == Pending && s.db.results[id].nextAttemptAt == Some(until))
  }

  lemma PuttingOffWaits(c: Config, s: Sys, e: WorkEvent)
    requires IdsUsed(s) && e.ResultWritten? && CanWork(c, s, e) && PutsOff(c, WriteOf(s, e))
    ensures ResultWaiting(AfterWork(c, s, e), s.workers[e.w].id, RetryAt(c, WriteOf(s, e)))
  {
    var w := WriteOf(s, e);
    WriteTouchesOneRow(c, s.db, w);
    if w.id in s.db.results {
      ChangeTouchesOneRow(s.db, WriteChange(c, s.db, w));
    }
  }

  predicate ClaimsResult(e: Event, id: Id) {
    e.Working? && e.work.ResultClaimed? && e.work.id == id
  }

  // Its user asks for the result to be evaluated again, and it is.
  predicate Requeues(s: Sys, e: Event, id: Id) {
    e.Serving? && e.user.ReEvaluated? && e.user.id == id && Results.ReEvaluate(s.db, e.user.userId, id, s.now).Ok?
  }

  lemma WorkKeepsResultWaiting(c: Config, s: Sys, e: WorkEvent, id: Id, until: Time)
    requires Exclusive(s) && CanWork(c, s, e) && ResultWaiting(s, id, until)
    ensures if ClaimsResult(Working(e), id) then s.now >= until else ResultWaiting(AfterWork(c, s, e), id, until)
  {
    if e.ResultWritten? {
      assert Held(s.db, s.workers[e.w]);
      WriteTouchesOneRow(c, s.db, WriteOf(s, e));
    }
  }

  lemma SearchKeepsResultWaiting(c: Config, s: Sys, e: SearchEvent, id: Id, until: Time)
    requires CanSearch(s, e) && ResultWaiting(s, id, until)
    ensures ResultWaiting(AfterSearch(c, s, e), id, until)
  {
    if IsService(e) {
      ServiceTouches(c, s, e);
    }
  }

  lemma UserKeepsResultWaiting(s: Sys, e: UserEvent, id: Id, until: Time)
    requires CanUser(s, e) && ResultWaiting(s, id, until)
    ensures ResultWaiting(AfterUser(s, e), id, until) <==> !Requeues(s, Serving(e), id)
  {
    if e.AccountDeleted? {
      StepsRemove(s.db, e.userId, |STEPS|);
    }
  }

  // The one event that ends the wait, other than the claim, is a re-evaluation.
  lemma WaitEndsExactlyWhen(c: Config, s: Sys, e: Event, id: Id, until: Time)
    requires Exclusive(s) && Can(c, s, e) && ResultWaiting(s, id, until)
    ensures if ClaimsResult(e, id) then s.now >= until
            else ResultWaiting(After(c, s, e), id, until) <==> !Requeues(s, e, id)
  {
    match e {
      case Working(we) => WorkKeepsResultWaiting(c, s, we, id, until);
      case Searching(se) => SearchKeepsResultWaiting(c, s, se, id, until);
      case Serving(ue) => UserKeepsResultWaiting(s, ue, id, until);
      case Tick(_) =>
    }
  }

  // The next claim of the result in a run, if its user does not ask for it
  // first, is not before this time.
  ghost predicate NextClaimNotBefore(c: Config, s: Sys, events: seq<Event>, id: Id, until: Time)
    requires IsRun(c, s, events)
    decreases |events|
  {
    events != [] ==>
      if ClaimsResult(events[0], id) then s.now >= until
      else Requeues(s, events[0], id) || NextClaimNotBefore(c, After(c, s, events[0]), events[1..], id, until)
  }

  lemma {:induction false} WaitingResultIsNotClaimed(c: Config, s: Sys, events: seq<Event>, id: Id, until: Time)
    requires Good(s) && Exclusive(s) && IsRun(c, s, events) && OnTimeRun(c, s, events) && ResultWaiting(s, id, until)
    ensures NextClaimNotBefore(c, s, events, id, until)
    decreases |events|
  {
    if events != [] {
      WaitEndsExactlyWhen(c, s, events[0], id, until);
      if !ClaimsResult(events[0], id) && !Requeues(s, events[0], id) {
        OnTimeIsFenced(c, s, events[0]);
        StepKeepsExclusive(c, s, events[0]);
        StepKeepsGood(c, s, events[0]);
        WaitingResultIsNotClaimed(c, After(c, s, events[0]), events[1..], id, until);
      }
    }
  }

  // After a failed evaluation that is not the last, or one without a CV,
  // whatever happens meanwhile, the result's next evaluation does not begin
  // before the delay has passed, unless its user asks for it.
  lemma ResultRetriesWait(c: Config, s: Sys, e: WorkEvent, events: seq<Event>)
    requires Good(s) && Exclusive(s) && e.ResultWritten? && CanWork(c, s, e) && OnTime(c, s) && PutsOff(c, WriteOf(s, e))
    requires IsRun(c, AfterWork(c, s, e), events) && OnTimeRun(c, AfterWork(c, s, e), events)
    ensures NextClaimNotBefore(c, AfterWork(c, s, e), events, s.workers[e.w].id, RetryAt(c, WriteOf(s, e)))
  {
    PuttingOffWaits(c, s, e);
    OnTimeIsFenced(c, s, Working(e));
    StepKeepsExclusive(c, s, Working(e));
    StepKeepsGood(c, s, Working(e));
    WaitingResultIsNotClaimed(c, AfterWork(c, s, e), events, s.workers[e.w].id, RetryAt(c, WriteOf(s, e)));
  }
}
