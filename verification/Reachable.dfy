// Every reachable state of the machine is good: by induction over runs, with
// one lemma per kind of event.
module Reachable {
  import opened Common
  import opened Tables
  import opened Store
  import opened Worker
  import opened Schedule
  import opened Account
  import opened Machine
  import opened Integrity
  import Results

  // ----- workers

  lemma WorkKeepsTidy(c: Config, s: Sys, e: WorkEvent)
    requires Good(s) && CanWork(c, s, e)
    ensures Tidy(AfterWork(c, s, e).db)
  {
    match e {
      case JobClaimed(w, id) => TidyJob(s.db, id, ClaimedJob(s.db.jobs[id], s.now));
      case JobWritten(w, details, embedded, cancelled) =>
        var t := s.workers[w];
        if t.id in s.db.jobs && !s.db.jobs[t.id].deleted {
          TidyJob(s.db, t.id, WrittenJob(c, s.db.jobs[t.id], t.job, EmbedStep(t.job, details, embedded), cancelled, s.now));
        }
      case ResultClaimed(w, id) => TidyRow(s.db, id, ClaimedResult(s.db.results[id], s.now));
      case ResultWritten(w, out, _, _, newId, ids) =>
        assert TaskTrue(s.db, s.workers[w]);
        TidyWrite(c, s.db, WriteOf(s, e));
      case _ =>
    }
  }

  lemma WorkKeepsTasks(c: Config, s: Sys, e: WorkEvent)
    requires Good(s) && CanWork(c, s, e)
    ensures TasksTrue(AfterWork(c, s, e))
  {
    var next := AfterWork(c, s, e);
    forall w | w in next.workers
      ensures TaskTrue(next.db, next.workers[w])
    {
      if w in s.workers {
        assert TaskTrue(s.db, s.workers[w]);
      }
      WorkKeepsTask(c, s, e, w);
    }
  }

  lemma WorkKeepsTask(c: Config, s: Sys, e: WorkEvent, w: Id)
    requires IdsUsed(s) && CanWork(c, s, e) && w in AfterWork(c, s, e).workers
    requires w in s.workers ==> TaskTrue(s.db, s.workers[w])
    ensures TaskTrue(AfterWork(c, s, e).db, AfterWork(c, s, e).workers[w])
  {
    match e {
      case ResultWritten(_, out, _, _, newId, ids) =>
        var write := WriteOf(s, e);
        if write.id in s.db.results && !Conflicts(write) {
          WriteIsProper(c, s.db, write);
        }
      case _ =>
    }
  }

  lemma WorkKeepsIds(c: Config, s: Sys, e: WorkEvent)
    requires IdsUsed(s) && CanWork(c, s, e)
    ensures IdsUsed(AfterWork(c, s, e))
  {
    match e {
      case ResultWritten(_, out, _, _, newId, ids) =>
        var write := WriteOf(s, e);
        if write.id in s.db.results && !Conflicts(write) {
          WriteIsProper(c, s.db, write);
        }
      case _ =>
    }
  }

  lemma WorkKeepsGood(c: Config, s: Sys, e: WorkEvent)
    requires Good(s) && CanWork(c, s, e)
    ensures Good(AfterWork(c, s, e))
  {
    WorkKeepsTidy(c, s, e);
    WorkKeepsTasks(c, s, e);
    WorkKeepsIds(c, s, e);
    WorkKeepsSearches(c, s, e);
    WorkKeepsSections(c, s, e);
  }

  lemma WorkKeepsSections(c: Config, s: Sys, e: WorkEvent)
    requires CanWork(c, s, e)
    ensures AfterWork(c, s, e).db.sections == s.db.sections && s.used <= AfterWork(c, s, e).used
  {
    if e.ResultWritten? {
      WriteFrame(c, s.db, WriteOf(s, e));
    }
  }

  // The tables a worker's outcome does not touch.
  ghost predicate KeepsOtherTables(db: DB, next: DB) {
    && next.users == db.users && next.searches == db.searches && next.jobs == db.jobs && next.cvs == db.cvs
    && next.sections == db.sections && next.apiKeys == db.apiKeys && next.suggestions == db.suggestions
  }

  lemma WriteFrame(c: Config, db: DB, w: Write)
    requires HasIds(w)
    ensures KeepsOtherTables(db, WriteResult(c, db, w))
  {
    if w.id in db.results && !Conflicts(w) {
      ChangeFrame(db, WriteChange(c, db, w));
    }
  }

  lemma ChangeFrame(db: DB, change: Change)
    ensures KeepsOtherTables(db, Changed(db, change))
  {
    match change.saved {
      case None =>
      case Some(_) =>
    }
  }

  lemma ChangeTouchesOneRow(db: DB, change: Change)
    requires change.id in db.results
    ensures Changed(db, change).jobs == db.jobs
    ensures Changed(db, change).results == db.results[change.id := change.row]
  {
  }

  lemma WorkKeepsSearches(c: Config, s: Sys, e: WorkEvent)
    requires CanWork(c, s, e)
    ensures AfterWork(c, s, e).db.searches == s.db.searches && AfterWork(c, s, e).runs == s.runs
  {
    match e {
      case ResultWritten(_, _, _, _, _, _) => WriteFrame(c, s.db, WriteOf(s, e));
      case _ =>
    }
  }

  // ----- searches

  lemma SearchKeepsTidy(c: Config, s: Sys, e: SearchEvent)
    requires Good(s) && CanSearch(s, e)
    ensures Tidy(AfterSearch(c, s, e).db)
  {
    if IsService(e) {
      ServiceKeepsTidy(c, s, e);
    } else {
      SchedulerKeepsTidy(c, s, e);
    }
  }

  lemma SchedulerKeepsTidy(c: Config, s: Sys, e: SearchEvent)
    requires Tidy(s.db) && IdsUsed(s) && RunsTrue(s) && CanSearch(s, e) && !IsService(e)
    ensures Tidy(AfterSearch(c, s, e).db)
  {
    match e {
      case RunClaimed(run, id, _) => ClaimKeepsTidy(s.db, id, s.now, s.now + c.runTimeout);
      case PostingStored(id, provider, postingId, detail) =>
        PostingKeepsTidy(s.db, id, NewJob(provider, postingId, detail, s.now));
      case ResultStored(run, jobId, id, at) =>
        TidyNewResult(s.db, id, s.runs[run].searchId, s.runs[run].userId, jobId, at);
      case RunMarked(run) => MarkKeepsTidy(s.db, s.runs[run].searchId, s.runs[run].startedAt,
                                           NextRun(s.runs[run].frequency, s.runs[run].startedAt));
      case RunDropped(run) =>
    }
  }

  lemma PostingKeepsTidy(db: DB, id: Id, job: Job)
    requires Tidy(db) && id !in db.jobs
    ensures Tidy(UpsertJob(db, id, job))
  {
    if !JobKnown(db, job.provider, job.jobId) {
      TidyJob(db, id, job);
    }
  }

  lemma ClaimKeepsTidy(db: DB, id: Id, now: Time, until: Time)
    requires Tidy(db)
    ensures Tidy(ClaimRun(db, id, now, until))
  {
    if Due(db, id, now) {
      TidySearch(db, id, db.searches[id].(nextRunAt := Some(until)));
    }
  }

  lemma MarkKeepsTidy(db: DB, id: Id, ranAt: Time, next: Time)
    requires Tidy(db)
    ensures Tidy(MarkRun(db, id, ranAt, next))
  {
    if id in db.searches && !db.searches[id].deleted {
      TidySearch(db, id, MarkRun(db, id, ranAt, next).searches[id]);
    }
  }

  predicate IsService(e: SearchEvent) {
    e.SearchCreated? || e.SearchUpdated? || e.RunRequested? || e.SearchDeleted?
  }

  lemma ServiceKeepsTidy(c: Config, s: Sys, e: SearchEvent)
    requires Good(s) && CanSearch(s, e) && IsService(e)
    ensures Tidy(AfterSearch(c, s, e).db)
  {
    match e {
      case SearchCreated(id, userId, p) =>
        var o := Create(s.db, id, userId, p, s.now);
        if o.Ok? {
          CreateKeepsScheduled(s.db, id, userId, p, s.now);
          TidySearch(s.db, id, o.value.searches[id]);
        }
      case SearchUpdated(id, userId, p) =>
        var o := Update(s.db, userId, id, p, s.now);
        if o.Ok? {
          UpdateKeepsScheduled(s.db, id, userId, p, s.now);
          TidySearch(s.db, id, o.value.searches[id]);
        }
      case RunRequested(id, userId) =>
        var o := RunNow(s.db, userId, id, s.now);
        if o.Ok? {
          TidySearch(s.db, id, o.value.searches[id]);
        }
      case SearchDeleted(id, userId) =>
        var o := SoftDelete(s.db, userId, id);
        if o.Ok? {
          TidySearch(s.db, id, o.value.searches[id]);
        }
    }
  }

  lemma SearchKeepsIds(c: Config, s: Sys, e: SearchEvent)
    requires IdsUsed(s) && CanSearch(s, e)
    ensures IdsUsed(AfterSearch(c, s, e))
  {
    if IsService(e) {
      ServiceKeepsIds(c, s, e);
    }
  }

  lemma ServiceKeepsIds(c: Config, s: Sys, e: SearchEvent)
    requires IdsUsed(s) && CanSearch(s, e) && IsService(e)
    ensures IdsUsed(AfterSearch(c, s, e))
  {
    ServiceTouches(c, s, e);
  }

  // A search is changed or added, or nothing is.
  ghost predicate OneSearch(db: DB, next: DB, id: Id) {
    && next == db.(searches := next.searches)
    && (next.searches != db.searches ==> id in next.searches && next.searches == db.searches[id := next.searches[id]])
  }

  // ... and it stays its owner's.
  ghost predicate SameOwner(db: DB, next: DB, id: Id) {
    next.searches != db.searches ==>
      id in db.searches && id in next.searches && next.searches[id].userId == db.searches[id].userId
  }

  lemma CreateTouches(db: DB, id: Id, userId: Id, p: CreateParams, now: Time)
    ensures OneSearch(db, Succeeding(db, Create(db, id, userId, p, now)), id)
  {
  }

  lemma UpdateTouches(db: DB, id: Id, userId: Id, p: UpdateParams, now: Time)
    ensures var next := Succeeding(db, Update(db, userId, id, p, now));
            OneSearch(db, next, id) && SameOwner(db, next, id)
  {
  }

  lemma RunNowTouches(db: DB, id: Id, userId: Id, now: Time)
    ensures var next := Succeeding(db, RunNow(db, userId, id, now));
            OneSearch(db, next, id) && SameOwner(db, next, id)
  {
  }

  lemma SoftDeleteTouches(db: DB, id: Id, userId: Id)
    ensures var next := Succeeding(db, SoftDelete(db, userId, id));
            OneSearch(db, next, id) && SameOwner(db, next, id)
  {
  }

  // A service call changes one search at most, and never whose it is.
  lemma ServiceTouches(c: Config, s: Sys, e: SearchEvent)
    requires CanSearch(s, e) && IsService(e)
    ensures var next := AfterSearch(c, s, e);
            && next == s.(db := next.db, used := if e.SearchCreated? then s.used + {e.id} else s.used)
            && OneSearch(s.db, next.db, e.id) && (!e.SearchCreated? ==> SameOwner(s.db, next.db, e.id))
  {
    match e {
      case SearchCreated(id, userId, p) => CreateTouches(s.db, id, userId, p, s.now);
      case SearchUpdated(id, userId, p) => UpdateTouches(s.db, id, userId, p, s.now);
      case RunRequested(id, userId) => RunNowTouches(s.db, id, userId, s.now);
      case SearchDeleted(id, userId) => SoftDeleteTouches(s.db, id, userId);
    }
  }

  lemma SearchKeepsTasks(c: Config, s: Sys, e: SearchEvent)
    requires IdsUsed(s) && TasksTrue(s) && CanSearch(s, e)
    ensures TasksTrue(AfterSearch(c, s, e))
  {
    var next := AfterSearch(c, s, e);
    forall w | w in next.workers
      ensures TaskTrue(next.db, next.workers[w])
    {
      assert TaskTrue(s.db, s.workers[w]);
      SearchKeepsTask(c, s, e, w);
    }
  }

  lemma SearchKeepsTask(c: Config, s: Sys, e: SearchEvent, w: Id)
    requires IdsUsed(s) && CanSearch(s, e) && w in s.workers && TaskTrue(s.db, s.workers[w])
    ensures TaskTrue(AfterSearch(c, s, e).db, s.workers[w])
  {
    if IsService(e) {
      ServiceTouches(c, s, e);
    }
  }

  ghost predicate RunTrue(db: DB, r: Run) {
    r.searchId in db.searches ==> db.searches[r.searchId].userId == r.userId
  }

  lemma SearchKeepsRun(c: Config, s: Sys, e: SearchEvent, r: Run)
    requires CanSearch(s, e) && RunTrue(s.db, r) && r.searchId in s.used
    ensures RunTrue(AfterSearch(c, s, e).db, r)
  {
    if IsService(e) {
      ServiceTouches(c, s, e);
    }
  }

  lemma SearchKeepsRuns(c: Config, s: Sys, e: SearchEvent)
    requires IdsUsed(s) && RunsTrue(s) && CanSearch(s, e)
    ensures RunsTrue(AfterSearch(c, s, e))
  {
    var next := AfterSearch(c, s, e);
    forall r | r in next.runs
      ensures RunTrue(next.db, next.runs[r])
    {
      if r in s.runs && next.runs[r] == s.runs[r] {
        SearchKeepsRun(c, s, e, s.runs[r]);
      }
    }
  }

  lemma SearchKeepsGood(c: Config, s: Sys, e: SearchEvent)
    requires Good(s) && CanSearch(s, e)
    ensures Good(AfterSearch(c, s, e))
  {
    SearchKeepsTidy(c, s, e);
    SearchKeepsIds(c, s, e);
    SearchKeepsTasks(c, s, e);
    SearchKeepsRuns(c, s, e);
    SearchKeepsSections(c, s, e);
  }

  lemma SearchKeepsSections(c: Config, s: Sys, e: SearchEvent)
    requires CanSearch(s, e)
    ensures AfterSearch(c, s, e).db.sections == s.db.sections && s.used <= AfterSearch(c, s, e).used
  {
    if IsService(e) {
      ServiceTouches(c, s, e);
    }
  }

  // ----- users

  lemma UserKeepsTidy(s: Sys, e: UserEvent)
    requires Good(s) && CanUser(s, e)
    ensures Tidy(AfterUser(s, e).db)
  {
    match e {
      case UserAdded(id) => TidyUser(s.db, id);
      case CVAdded(id, userId) => TidyCV(s.db, id, CV(userId, s.now, false));
      case CVDeleted(id, userId) =>
        if id in s.db.cvs && s.db.cvs[id].userId == userId {
          TidyCV(s.db, id, s.db.cvs[id].(deleted := true));
        }
      case SectionsStored(ids, userId, cv) => ElsewhereKeepsTidy(s.db, AfterUser(s, e).db);
      case KeyAdded(id, userId) => ElsewhereKeepsTidy(s.db, AfterUser(s, e).db);
      case SuggestionAdded(id, userId) => ElsewhereKeepsTidy(s.db, AfterUser(s, e).db);
      case ReEvaluated(id, userId) =>
        var o := Results.ReEvaluate(s.db, userId, id, s.now);
        if o.Ok? {
          TidyRow(s.db, id, Results.Requeued(s.db.results[id]));
        }
      case StatusSet(id, userId, lower, status) =>
        var o := Results.UpdateStatus(lower, s.db, userId, id, status);
        if o.Ok? {
          TidyRow(s.db, id, o.value.results[id]);
        }
      case AccountDeleted(userId) => TidyErased(s.db, userId);
    }
  }

  lemma UserKeepsIds(s: Sys, e: UserEvent)
    requires Good(s) && CanUser(s, e)
    ensures IdsUsed(AfterUser(s, e))
  {
    if e.AccountDeleted? {
      DeleteErases(s.db, e.userId);
    }
  }

  lemma UserKeepsTasks(s: Sys, e: UserEvent)
    requires Good(s) && CanUser(s, e)
    ensures TasksTrue(AfterUser(s, e))
  {
    var next := AfterUser(s, e);
    if e.AccountDeleted? {
      DeleteErases(s.db, e.userId);
    }
    forall w | w in next.workers
      ensures TaskTrue(next.db, next.workers[w])
    {
      assert TaskTrue(s.db, s.workers[w]);
    }
  }

  lemma UserKeepsRuns(s: Sys, e: UserEvent)
    requires Good(s) && CanUser(s, e)
    ensures RunsTrue(AfterUser(s, e))
  {
    if e.AccountDeleted? {
      DeleteErases(s.db, e.userId);
    }
  }

  lemma UserKeepsSections(s: Sys, e: UserEvent)
    requires Good(s) && CanUser(s, e)
    ensures SectionCVsUsed(AfterUser(s, e).db, AfterUser(s, e).used)
  {
    if e.AccountDeleted? {
      DeleteErases(s.db, e.userId);
    }
  }

  lemma UserKeepsGood(s: Sys, e: UserEvent)
    requires Good(s) && CanUser(s, e)
    ensures Good(AfterUser(s, e))
  {
    UserKeepsTidy(s, e);
    UserKeepsIds(s, e);
    UserKeepsTasks(s, e);
    UserKeepsRuns(s, e);
    UserKeepsSections(s, e);
  }

  // ----- runs

  lemma StepKeepsGood(c: Config, s: Sys, e: Event)
    requires Good(s) && Can(c, s, e)
    ensures Good(After(c, s, e))
  {
    match e {
      case Working(we) => WorkKeepsGood(c, s, we);
      case Searching(se) => SearchKeepsGood(c, s, se);
      case Serving(ue) => UserKeepsGood(s, ue);
      case Tick(_) =>
    }
  }

  lemma {:induction false} RunsKeepGood(c: Config, s: Sys, events: seq<Event>)
    requires Good(s) && IsRun(c, s, events)
    ensures Good(End(c, s, events))
    decreases |events|
  {
    if events != [] {
      StepKeepsGood(c, s, events[0]);
      RunsKeepGood(c, After(c, s, events[0]), events[1..]);
    }
  }

  lemma InitialIsGood(s: Sys)
    requires Initial(s)
    ensures Good(s)
  {
  }

  // In every reachable state, even with workers that overlap or write late:
  // rows have their parents and one owner, unique indexes hold, searches are
  // scheduled exactly while enabled, and copied scores agree.
  lemma ReachableIsGood(c: Config, s: Sys, events: seq<Event>)
    requires Initial(s) && IsRun(c, s, events)
    ensures Good(End(c, s, events))
  {
    InitialIsGood(s);
    RunsKeepGood(c, s, events);
  }

  lemma ReachableIsIndexed(c: Config, s: Sys, events: seq<Event>)
    requires Initial(s) && IsRun(c, s, events)
    ensures Indexed(End(c, s, events).db)
  {
    ReachableIsGood(c, s, events);
  }
}
