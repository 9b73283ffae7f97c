// The tables the pipeline and the account service work on (internal/models).
//
// `DB` is the contents of the database as a value; `Database` is the database
// itself, whose tables the services change. Columns that nothing modelled here
// reads (updated_at, model, prompt_version, titles and the like) are left out.
module Tables {
  import opened Common
  import opened Matcher

  datatype Search = Search(
    userId: Id, name: string, query: string, location: string, frequency: string, enabled: bool,
    createdAt: Time, lastRunAt: Option<Time>, nextRunAt: Option<Time>, deleted: bool)

  datatype JobStatus = JobNew | JobDescribed | JobProcessing | JobEmbedded | JobFailed

  type Vector = seq<real>

  datatype Job = Job(
    provider: string, jobId: string, createdAt: Time, status: JobStatus, attempts: int,
    nextAttemptAt: Option<Time>, claimedAt: Option<Time>, lastError: string,
    detail: string, visited: bool, embedding: Option<Vector>, deleted: bool)

  datatype EvalStatus = Pending | Processing | Done | Failed

  datatype SearchResult = SearchResult(
    searchId: Id, userId: Id, jobId: Id, createdAt: Time, status: string,
    evalStatus: EvalStatus, attempts: int, nextAttemptAt: Option<Time>, claimedAt: Option<Time>,
    lastError: string, evaluationId: Option<Id>, overallScore: Option<int>)

  // The statuses a user can give a result.
  const RESULT_STATUSES := ["new", "saved", "applied", "dismissed"]

  datatype Evaluation = Evaluation(
    resultId: Id, cvId: Id, createdAt: Time, completed: bool, overallScore: int,
    strengths: seq<string>, missingSkills: seq<string>, summary: string, raw: Raw, error: string)

  datatype Score = Score(evaluationId: Id, content: CriterionScore)

  datatype CV = CV(userId: Id, createdAt: Time, deleted: bool)

  datatype Section = Section(userId: Id, cvId: Id)

  datatype DB = DB(
    users: set<Id>,
    searches: map<Id, Search>,
    jobs: map<Id, Job>,
    results: map<Id, SearchResult>,
    evaluations: map<Id, Evaluation>,
    scores: map<Id, Score>,
    cvs: map<Id, CV>,
    sections: map<Id, Section>,
    apiKeys: map<Id, Id>,       // key -> user
    suggestions: map<Id, Id>)   // suggestion -> user

  // ----- unique indexes

  ghost predicate UniqueJobs(db: DB) {
    forall a, b :: a in db.jobs && b in db.jobs && a != b
      ==> db.jobs[a].provider != db.jobs[b].provider || db.jobs[a].jobId != db.jobs[b].jobId
  }

  ghost predicate UniqueResults(db: DB) {
    forall a, b :: a in db.results && b in db.results && a != b
      ==> db.results[a].searchId != db.results[b].searchId || db.results[a].jobId != db.results[b].jobId
  }

  ghost predicate UniqueEvaluations(db: DB) {
    forall a, b :: a in db.evaluations && b in db.evaluations && a != b
      ==> db.evaluations[a].resultId != db.evaluations[b].resultId || db.evaluations[a].cvId != db.evaluations[b].cvId
  }

  ghost predicate UniqueScores(db: DB) {
    forall a, b :: a in db.scores && b in db.scores && a != b
      ==> db.scores[a].evaluationId != db.scores[b].evaluationId
          || db.scores[a].content.criterion != db.scores[b].content.criterion
  }

  ghost predicate Indexed(db: DB) {
    UniqueJobs(db) && UniqueResults(db) && UniqueEvaluations(db) && UniqueScores(db)
  }

  // ----- settings of the worker (Config)

  datatype Settings = Settings(
    maxAttempts: int, baseBackoff: Time, maxBackoff: Time, staleTimeout: Time, runTimeout: Time, noCvRetry: Time)

  const SECOND: Time := 1_000_000_000
  const MINUTE: Time := 60 * SECOND
  const HOUR: Time := 60 * MINUTE

  const DEFAULTS := Settings(5, 30 * SECOND, HOUR, 5 * MINUTE, 30 * MINUTE, HOUR)

  function WithDefaults(c: Settings): Config {
    Settings(if c.maxAttempts <= 0 then DEFAULTS.maxAttempts else c.maxAttempts,
             if c.baseBackoff <= 0 then DEFAULTS.baseBackoff else c.baseBackoff,
             if c.maxBackoff <= 0 then DEFAULTS.maxBackoff else c.maxBackoff,
             if c.staleTimeout <= 0 then DEFAULTS.staleTimeout else c.staleTimeout,
             if c.runTimeout <= 0 then DEFAULTS.runTimeout else c.runTimeout,
             if c.noCvRetry <= 0 then DEFAULTS.noCvRetry else c.noCvRetry)
  }

  type Config = c: Settings |
    c.maxAttempts > 0 && c.baseBackoff > 0 && c.maxBackoff > 0
    && c.staleTimeout > 0 && c.runTimeout > 0 && c.noCvRetry > 0
    witness DEFAULTS

  class Database {
    var users: set<Id>
    var searches: map<Id, Search>
    var jobs: map<Id, Job>
    var results: map<Id, SearchResult>
    var evaluations: map<Id, Evaluation>
    var scores: map<Id, Score>
    var cvs: map<Id, CV>
    var sections: map<Id, Section>
    var apiKeys: map<Id, Id>
    var suggestions: map<Id, Id>

    function Rows(): DB
      reads this
    {
      DB(users, searches, jobs, results, evaluations, scores, cvs, sections, apiKeys, suggestions)
    }

    // Ends a transaction by restoring what it began with.
    method Rollback(begin: DB)
      modifies this
      ensures Rows() == begin
    {
      users, searches, jobs, results, evaluations :=
        begin.users, begin.searches, begin.jobs, begin.results, begin.evaluations;
      scores, cvs, sections, apiKeys, suggestions :=
        begin.scores, begin.cvs, begin.sections, begin.apiKeys, begin.suggestions;
    }
  }
}
