// The whole pipeline as a state machine: the database, the clock, the workers
// that hold a claimed row while they work, and the search runs in flight.
//
// Each event is one SQL statement or transaction of a worker, the scheduler, a
// service or the account deletion; a run is any sequence of enabled events.
// Nothing fences a worker: whenever it is still in flight it may write.
module Machine {
  import opened Common
  import opened Strings
  import opened Tables
  import opened Store
  import opened Worker
  import opened Schedule
  import Results
  import Account

  // A worker between its claim and its write, with the row as claimed.
  datatype Task =
    | EmbedTask(id: Id, job: Job, claimedAt: Time)
    | EvalTask(id: Id, result: SearchResult, claimedAt: Time, cv: Option<Option<Id>>)

  datatype Run = Run(searchId: Id, userId: Id, frequency: string, startedAt: Time)

  // `used` holds every id ever generated: ULIDs do not repeat.
  datatype Sys = Sys(db: DB, now: Time, workers: map<Id, Task>, runs: map<Id, Run>, used: set<Id>)

  const EMPTY_DB := DB({}, map[], map[], map[], map[], map[], map[], map[], map[], map[])

  // An event's `at` is the instant its rows were stamped with, at or before it.
  datatype WorkEvent =
    | JobClaimed(w: Id, id: Id)
    | JobWritten(w: Id, details: Outcome<string, Failure>, embedded: Outcome<Vector, Failure>, cancelled: bool)
    | ResultClaimed(w: Id, id: Id)
    | CVSelected(w: Id, cv: Option<Id>)
    | ResultWritten(w: Id, out: EvaluateOutcome, cancelled: bool, at: Time, newId: Id, scoreIds: seq<Id>)
    | WorkerLost(w: Id)

  datatype SearchEvent =
    | RunClaimed(run: Id, searchId: Id, frequency: string)
    | PostingStored(id: Id, provider: string, postingId: string, detail: string)
    | ResultStored(run: Id, jobId: Id, id: Id, at: Time)
    | RunMarked(run: Id)
    | RunDropped(run: Id)
    | SearchCreated(id: Id, userId: Id, create: CreateParams)
    | SearchUpdated(id: Id, userId: Id, update: UpdateParams)
    | RunRequested(id: Id, userId: Id)
    | SearchDeleted(id: Id, userId: Id)

  datatype UserEvent =
    | UserAdded(id: Id)
    | CVAdded(id: Id, userId: Id)
    | CVDeleted(id: Id, userId: Id)
    | SectionsStored(ids: set<Id>, userId: Id, cv: Id)
    | KeyAdded(id: Id, userId: Id)
    | SuggestionAdded(id: Id, userId: Id)
    | ReEvaluated(id: Id, userId: Id)
    | StatusSet(id: Id, userId: Id, lower: CaseMap, status: string)
    | AccountDeleted(userId: Id)

  datatype Event = Working(work: WorkEvent) | Searching(search: SearchEvent) | Serving(user: UserEvent) | Tick(to: Time)

  // ----- workers

  // What a worker can report: it matches the CV it selected, and "no CV"
  // means the selector found none.
  predicate Possible(t: Task, out: EvaluateOutcome)
    requires t.EvalTask?
  {
    match out
    case Unmatched(err) => err.Some? || t.cv == Some(None)
    case Evaluated(cv, m) => t.cv == Some(Some(cv))
  }

  function WriteOf(s: Sys, e: WorkEvent): Write
    requires e.ResultWritten? && e.w in s.workers && s.workers[e.w].EvalTask?
  {
    var t := s.workers[e.w];
    Write(t.id, t.result.attempts, e.out, e.cancelled, e.at, e.newId, e.scoreIds)
  }

  ghost predicate NewIds(s: Sys, newId: Id, ids: seq<Id>) {
    && newId !in s.used && newId !in ids
    && Distinct(ids)
    && forall i :: 0 <= i < |ids| ==> ids[i] !in s.used
  }

  ghost predicate CanWork(c: Config, s: Sys, e: WorkEvent) {
    match e
    case JobClaimed(w, id) => w !in s.used && JobClaimable(s.db, id, s.now, s.now - c.staleTimeout)
    case JobWritten(w, _, _, _) => w in s.workers && s.workers[w].EmbedTask?
    case ResultClaimed(w, id) => w !in s.used && ResultClaimable(s.db, id, s.now, s.now - c.staleTimeout)
    case CVSelected(w, cv) =>
      && w in s.workers && s.workers[w].EvalTask? && s.workers[w].cv.None?
      && (match cv
          case Some(id) => IsLatestCV(s.db, s.workers[w].result.userId, id)
          case None => HasNoCV(s.db, s.workers[w].result.userId))
    case ResultWritten(w, out, _, at, newId, ids) =>
      && w in s.workers && s.workers[w].EvalTask? && Possible(s.workers[w], out) && at <= s.now
      && |ids| == |Breakdown(out)| && NewIds(s, newId, ids)
    case WorkerLost(w) => w in s.workers
  }

  ghost function AfterWork(c: Config, s: Sys, e: WorkEvent): Sys
    requires CanWork(c, s, e)
  {
    match e
    case JobClaimed(w, id) =>
      var db := ClaimJob(s.db, id, s.now);
      s.(db := db, workers := s.workers[w := EmbedTask(id, db.jobs[id], s.now)], used := s.used + {w})
    case JobWritten(w, details, embedded, cancelled) =>
      var t := s.workers[w];
      s.(db := WriteJob(c, s.db, t.id, t.job, EmbedStep(t.job, details, embedded), cancelled, s.now),
         workers := s.workers - {w})
    case ResultClaimed(w, id) =>
      var db := ClaimResult(s.db, id, s.now);
      s.(db := db, workers := s.workers[w := EvalTask(id, db.results[id], s.now, None)], used := s.used + {w})
    case CVSelected(w, cv) => s.(workers := s.workers[w := s.workers[w].(cv := Some(cv))])
    case ResultWritten(w, _, _, _, newId, ids) =>
      s.(db := WriteResult(c, s.db, WriteOf(s, e)), workers := s.workers - {w},
         used := s.used + {newId} + IdSet(ids))
    case WorkerLost(w) => s.(workers := s.workers - {w})
  }

  // ----- searches

  predicate CanSearch(s: Sys, e: SearchEvent) {
    match e
    case RunClaimed(run, id, _) => run !in s.used && Due(s.db, id, s.now)
    case PostingStored(id, provider, postingId, _) => id !in s.used && provider != "" && TrimSpace(postingId) != ""
    case ResultStored(run, jobId, id, at) => run in s.runs && id !in s.used && jobId in s.db.jobs && at <= s.now
    case RunMarked(run) => run in s.runs
    case RunDropped(run) => run in s.runs
    case SearchCreated(id, _, _) => id !in s.used
    case SearchUpdated(_, _, _) => true
    case RunRequested(_, _) => true
    case SearchDeleted(_, _) => true
  }

  // A service call that fails changes nothing.
  function Succeeding<E>(db: DB, o: Outcome<DB, E>): DB {
    match o
    case Ok(next) => next
    case Err(_) => db
  }

  function AfterSearch(c: Config, s: Sys, e: SearchEvent): Sys
    requires CanSearch(s, e)
  {
    match e
    case RunClaimed(run, id, frequency) =>
      s.(db := ClaimRun(s.db, id, s.now, s.now + c.runTimeout),
         runs := s.runs[run := Run(id, s.db.searches[id].userId, frequency, s.now)], used := s.used + {run})
    case PostingStored(id, provider, postingId, detail) =>
      s.(db := UpsertJob(s.db, id, NewJob(provider, postingId, detail, s.now)), used := s.used + {id})
    case ResultStored(run, jobId, id, at) =>
      s.(db := UpsertResult(s.db, id, s.runs[run].searchId, s.runs[run].userId, jobId, at), used := s.used + {id})
    case RunMarked(run) =>
      var r := s.runs[run];
      s.(db := MarkRun(s.db, r.searchId, r.startedAt, NextRun(r.frequency, r.startedAt)), runs := s.runs - {run})
    case RunDropped(run) => s.(runs := s.runs - {run})
    case SearchCreated(id, userId, p) =>
      s.(db := Succeeding(s.db, Create(s.db, id, userId, p, s.now)), used := s.used + {id})
    case SearchUpdated(id, userId, p) => s.(db := Succeeding(s.db, Update(s.db, userId, id, p, s.now)))
    case RunRequested(id, userId) => s.(db := Succeeding(s.db, RunNow(s.db, userId, id, s.now)))
    case SearchDeleted(id, userId) => s.(db := Succeeding(s.db, SoftDelete(s.db, userId, id)))
  }

  // ----- users

  // The sections of a CV are stored by the request that stored the CV, with the
  // same user, however long afterwards: the CV had an id, and is that user's
  // if it still exists. Nothing asks whether it does, or the user does.
  predicate CanUser(s: Sys, e: UserEvent) {
    match e
    case UserAdded(id) => id !in s.used
    case CVAdded(id, _) => id !in s.used
    case SectionsStored(ids, userId, cv) =>
      ids !! s.used && cv in s.used && (cv in s.db.cvs ==> s.db.cvs[cv].userId == userId)
    case KeyAdded(id, _) => id !in s.used
    case SuggestionAdded(id, _) => id !in s.used
    case AccountDeleted(userId) => userId in s.db.users
    case CVDeleted(_, _) => true
    case ReEvaluated(_, _) => true
    case StatusSet(_, _, _, _) => true
  }

  function SectionRows(ids: set<Id>, userId: Id, cv: Id): map<Id, Section> {
    map id | id in ids :: Section(userId, cv)
  }

  function AfterUser(s: Sys, e: UserEvent): Sys
    requires CanUser(s, e)
  {
    match e
    case UserAdded(id) => s.(db := s.db.(users := s.db.users + {id}), used := s.used + {id})
    case CVAdded(id, userId) =>
      s.(db := s.db.(cvs := s.db.cvs[id := CV(userId, s.now, false)]), used := s.used + {id})
    case CVDeleted(id, userId) =>
      if id in s.db.cvs && s.db.cvs[id].userId == userId
      then s.(db := s.db.(cvs := s.db.cvs[id := s.db.cvs[id].(deleted := true)])) else s
    case SectionsStored(ids, userId, cv) =>
      s.(db := s.db.(sections := s.db.sections + SectionRows(ids, userId, cv)), used := s.used + ids)
    case KeyAdded(id, userId) =>
      s.(db := s.db.(apiKeys := s.db.apiKeys[id := userId]), used := s.used + {id})
    case SuggestionAdded(id, userId) =>
      s.(db := s.db.(suggestions := s.db.suggestions[id := userId]), used := s.used + {id})
    case ReEvaluated(id, userId) => s.(db := Succeeding(s.db, Results.ReEvaluate(s.db, userId, id, s.now)))
    case StatusSet(id, userId, lower, status) =>
      s.(db := Succeeding(s.db, Results.UpdateStatus(lower, s.db, userId, id, status)))
    case AccountDeleted(userId) => s.(db := Account.AfterSteps(s.db, userId, |Account.STEPS|))
  }

  // ----- runs of the machine

  ghost predicate Can(c: Config, s: Sys, e: Event) {
    match e
    case Working(we) => CanWork(c, s, we)
    case Searching(se) => CanSearch(s, se)
    case Serving(ue) => CanUser(s, ue)
    case Tick(to) => s.now <= to
  }

  ghost function After(c: Config, s: Sys, e: Event): Sys
    requires Can(c, s, e)
  {
    match e
    case Working(we) => AfterWork(c, s, we)
    case Searching(se) => AfterSearch(c, s, se)
    case Serving(ue) => AfterUser(s, ue)
    case Tick(to) => s.(now := to)
  }

  ghost predicate Initial(s: Sys) {
    s.db == EMPTY_DB && s.workers == map[] && s.runs == map[] && s.used == {}
  }

  ghost predicate IsRun(c: Config, s: Sys, events: seq<Event>)
    decreases |events|
  {
    events == [] || (Can(c, s, events[0]) && IsRun(c, After(c, s, events[0]), events[1..]))
  }

  ghost function End(c: Config, s: Sys, events: seq<Event>): Sys
    requires IsRun(c, s, events)
    decreases |events|
  {
    if events == [] then s else End(c, After(c, s, events[0]), events[1..])
  }

  lemma OneEvent(c: Config, s: Sys, e: Event)
    requires Can(c, s, e)
    ensures IsRun(c, s, [e]) && End(c, s, [e]) == After(c, s, e)
  {
    assert [e][1..] == [];
    assert IsRun(c, After(c, s, e), []);
  }

  lemma {:induction false} RunsJoin(c: Config, s: Sys, first: seq<Event>, rest: seq<Event>)
    requires IsRun(c, s, first) && IsRun(c, End(c, s, first), rest)
    ensures IsRun(c, s, first + rest) && End(c, s, first + rest) == End(c, End(c, s, first), rest)
    decreases |first|
  {
    if first == [] {
      assert first + rest == rest;
    } else {
      assert (first + rest)[0] == first[0] && (first + rest)[1..] == first[1..] + rest;
      RunsJoin(c, After(c, s, first[0]), first[1..], rest);
    }
  }
}
