// Where a job's description and embedding come from: over whole runs they are
// what the workers that handled it last fetched and last embedded.
module JobReports {
  import opened Common
  import opened Strings
  import opened Tables
  import opened Worker
  import opened Machine
  import opened Integrity
  import opened Reachable
  import opened Ownership

  // What a worker reported on a job: the description it claimed the job with,
  // and what the portal and the embedder answered.
  datatype JobReport = JobReport(
    id: Id, had: string, details: Outcome<string, Failure>, embedded: Outcome<Vector, Failure>)

  // The worker had no description and got one.
  predicate Fetched(r: JobReport) {
    TrimSpace(r.had) == "" && r.details.Ok? && TrimSpace(r.details.value) != ""
  }

  // There was a description, and it could be embedded.
  predicate Embedded(r: JobReport) {
    (TrimSpace(r.had) != "" || Fetched(r)) && r.embedded.Ok?
  }

  ghost function Reported(c: Config, s: Sys, events: seq<Event>): seq<JobReport>
    requires IsRun(c, s, events)
    decreases |events|
  {
    if events == [] then []
    else ReportedBy(s, events[0]) + Reported(c, After(c, s, events[0]), events[1..])
  }

  function ReportedBy(s: Sys, e: Event): seq<JobReport> {
    if e.Working? && e.work.JobWritten? && e.work.w in s.workers && s.workers[e.work.w].EmbedTask? then
      var t := s.workers[e.work.w];
      [JobReport(t.id, t.job.detail, e.work.details, e.work.embedded)]
    else []
  }

  // The last embedding reported for a job, and the last description.
  function LastEmbedding(reports: seq<JobReport>, id: Id): Option<Vector> {
    if reports == [] then None
    else
      var r := reports[|reports| - 1];
      if r.id == id && Embedded(r) then Some(r.embedded.value) else LastEmbedding(reports[..|reports| - 1], id)
  }

  function LastFetched(reports: seq<JobReport>, id: Id): Option<string> {
    if reports == [] then None
    else
      var r := reports[|reports| - 1];
      if r.id == id && Fetched(r) then Some(r.details.value) else LastFetched(reports[..|reports| - 1], id)
  }

  // The row has the last of both; an embedded job has an embedding.
  predicate Tells(j: Job, id: Id, reports: seq<JobReport>) {
    && j.embedding == LastEmbedding(reports, id)
    && (j.status == JobEmbedded ==> j.embedding.Some?)
    && (LastFetched(reports, id).Some? ==> j.detail == LastFetched(reports, id).value)
    && (j.visited <==> j.detail != "")
  }

  ghost predicate AllTell(db: DB, reports: seq<JobReport>) {
    forall id :: id in db.jobs ==> !db.jobs[id].deleted && Tells(db.jobs[id], id, reports)
  }

  ghost predicate Known(used: set<Id>, reports: seq<JobReport>) {
    forall i :: 0 <= i < |reports| ==> reports[i].id in used
  }

  // ----- one report

  lemma LastOf(reports: seq<JobReport>, r: JobReport, id: Id)
    ensures LastEmbedding(reports + [r], id)
         == if r.id == id && Embedded(r) then Some(r.embedded.value) else LastEmbedding(reports, id)
    ensures LastFetched(reports + [r], id)
         == if r.id == id && Fetched(r) then Some(r.details.value) else LastFetched(reports, id)
  {
    assert (reports + [r])[..|reports|] == reports;
  }

  lemma {:induction false} NoneOfNew(reports: seq<JobReport>, used: set<Id>, id: Id)
    requires Known(used, reports) && id !in used
    ensures LastEmbedding(reports, id).None? && LastFetched(reports, id).None?
  {
    if reports != [] {
      NoneOfNew(reports[..|reports| - 1], used, id);
    }
  }

  lemma StepOutcome(job: Job, details: Outcome<string, Failure>, embedded: Outcome<Vector, Failure>)
    ensures var r := JobReport(0, job.detail, details, embedded);
            var out := EmbedStep(job, details, embedded);
            && (out.err.None? <==> Embedded(r)) && (Embedded(r) ==> out.embedding == embedded.value)
            && (out.fetched == if Fetched(r) then Some(details.value) else None)
  {
  }

  lemma TrimmedEmpty()
    ensures TrimSpace("") == ""
  {
  }

  lemma WrittenTells(c: Config, j: Job, id: Id, t: Job, details: Outcome<string, Failure>,
                     embedded: Outcome<Vector, Failure>, cancelled: bool, now: Time, reports: seq<JobReport>)
    requires Tells(j, id, reports)
    ensures Tells(WrittenJob(c, j, t, EmbedStep(t, details, embedded), cancelled, now), id,
                  reports + [JobReport(id, t.detail, details, embedded)])
  {
    var r := JobReport(id, t.detail, details, embedded);
    StepOutcome(t, details, embedded);
    LastOf(reports, r, id);
    TrimmedEmpty();
  }

  lemma OthersTell(j: Job, id: Id, reports: seq<JobReport>, r: JobReport)
    requires Tells(j, id, reports) && r.id != id
    ensures Tells(j, id, reports + [r])
  {
    LastOf(reports, r, id);
  }

  // ----- one step

  lemma WriteKeepsTelling(c: Config, s: Sys, e: WorkEvent, reports: seq<JobReport>)
    requires CanWork(c, s, e) && e.JobWritten? && AllTell(s.db, reports)
    ensures AllTell(AfterWork(c, s, e).db, reports + ReportedBy(s, Working(e)))
  {
    var t := s.workers[e.w];
    var next := AfterWork(c, s, e).db;
    forall id | id in next.jobs
      ensures !next.jobs[id].deleted && Tells(next.jobs[id], id, reports + ReportedBy(s, Working(e)))
    {
      if id == t.id {
        WrittenTells(c, s.db.jobs[id], id, t.job, e.details, e.embedded, e.cancelled, s.now, reports);
      } else {
        OthersTell(s.db.jobs[id], id, reports, ReportedBy(s, Working(e))[0]);
      }
    }
  }

  // A job that is only claimed tells what it told.
  lemma WorkKeepsTelling(c: Config, s: Sys, e: WorkEvent, reports: seq<JobReport>)
    requires CanWork(c, s, e) && !e.JobWritten? && AllTell(s.db, reports)
    ensures AllTell(AfterWork(c, s, e).db, reports)
  {
    if e.ResultWritten? {
      WriteTouchesOneRow(c, s.db, WriteOf(s, e));
    }
  }

  lemma SearchKeepsTelling(c: Config, s: Sys, e: SearchEvent, reports: seq<JobReport>)
    requires CanSearch(s, e) && AllTell(s.db, reports) && Known(s.used, reports)
    ensures AllTell(AfterSearch(c, s, e).db, reports)
  {
    if IsService(e) {
      ServiceTouches(c, s, e);
    } else if e.PostingStored? {
      NoneOfNew(reports, s.used, e.id);
    }
  }

  lemma StepKeepsTelling(c: Config, s: Sys, e: Event, reports: seq<JobReport>)
    requires Can(c, s, e) && AllTell(s.db, reports) && Known(s.used, reports)
    ensures AllTell(After(c, s, e).db, reports + ReportedBy(s, e))
  {
    assert ReportedBy(s, e) == [] ==> reports + ReportedBy(s, e) == reports;
    match e {
      case Working(we) =>
        if we.JobWritten? {
          WriteKeepsTelling(c, s, we, reports);
        } else {
          WorkKeepsTelling(c, s, we, reports);
        }
      case Searching(se) => SearchKeepsTelling(c, s, se, reports);
      case Serving(ue) => UserKeepsJobs(s, ue);
      case Tick(_) =>
    }
  }

  lemma StepKeepsKnown(c: Config, s: Sys, e: Event, reports: seq<JobReport>)
    requires IdsUsed(s) && Can(c, s, e) && Known(s.used, reports)
    ensures Known(After(c, s, e).used, reports + ReportedBy(s, e))
  {
    match e {
      case Working(we) =>
      case Searching(se) => SearchKeepsSections(c, s, se);
      case Serving(ue) =>
      case Tick(_) =>
    }
  }

  // ----- runs

  lemma InOneRow(first: seq<JobReport>, next: seq<JobReport>, rest: seq<JobReport>)
    ensures (first + next) + rest == first + (next + rest)
  {
  }

  lemma {:induction false} TellingThroughout(c: Config, s: Sys, events: seq<Event>, reports: seq<JobReport>)
    requires Good(s) && IsRun(c, s, events) && AllTell(s.db, reports) && Known(s.used, reports)
    ensures AllTell(End(c, s, events).db, reports + Reported(c, s, events))
    decreases |events|
  {
    if events == [] {
      assert reports + [] == reports;
    } else {
      var next := After(c, s, events[0]);
      StepKeepsGood(c, s, events[0]);
      StepKeepsTelling(c, s, events[0], reports);
      StepKeepsKnown(c, s, events[0], reports);
      TellingThroughout(c, next, events[1..], reports + ReportedBy(s, events[0]));
      InOneRow(reports, ReportedBy(s, events[0]), Reported(c, next, events[1..]));
    }
  }

  // Over every run, late workers included: a job has the embedding that was
  // last reported for it, and the description that was last fetched for it,
  // whether or not that could be embedded; an embedded job has an embedding,
  // and a job is visited exactly when it has a description.
  lemma JobsTellTheLastReports(c: Config, s: Sys, events: seq<Event>, id: Id)
    requires Initial(s) && IsRun(c, s, events) && id in End(c, s, events).db.jobs
    ensures Tells(End(c, s, events).db.jobs[id], id, Reported(c, s, events))
  {
    InitialIsGood(s);
    TellingThroughout(c, s, events, []);
    assert [] + Reported(c, s, events) == Reported(c, s, events);
  }
}
