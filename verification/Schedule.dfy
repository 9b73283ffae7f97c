// Saved searches and their runs: the service that edits them
// (internal/services/jobsearches/jobsearches.go) and the scheduler's lease on
// a run (internal/pipeline/sources/sources.go).
module Schedule {
  import opened Common
  import opened Strings
  import opened Tables

  const MAX_NAME := 100
  const MAX_QUERY := 200
  const MAX_LOCATION := 200

  datatype CreateParams = CreateParams(name: string, query: string, location: string, frequency: string, enabled: Option<bool>)

  datatype UpdateParams = UpdateParams(
    name: Option<string>, query: Option<string>, location: Option<string>, frequency: Option<string>, enabled: Option<bool>)

  datatype Error = NotFound | Disabled | BadParam(param: string, missing: bool)

  function FrequencyInterval(frequency: string): Option<Time> {
    if frequency == "hourly" then Some(HOUR)
    else if frequency == "daily" then Some(24 * HOUR)
    else if frequency == "weekly" then Some(7 * 24 * HOUR)
    else None
  }

  // When a search is next due after a run at `from`; an unknown frequency is daily.
  function NextRun(frequency: string, from: Time): Time {
    from + FrequencyInterval(frequency).GetOr(24 * HOUR)
  }

  // ----- the service

  // A search being created or edited, before it is saved.
  class Record {
    var name: string
    var query: string
    var location: string
    var frequency: string
    var enabled: bool
    var lastRunAt: Option<Time>
    var nextRunAt: Option<Time>
    const userId: Id
    const createdAt: Time

    constructor (s: Search)
      requires !s.deleted
      ensures Row() == s
    {
      name, query, location, frequency, enabled := s.name, s.query, s.location, s.frequency, s.enabled;
      lastRunAt, nextRunAt, userId, createdAt := s.lastRunAt, s.nextRunAt, s.userId, s.createdAt;
    }

    function Row(): Search
      reads this
    {
      Search(userId, name, query, location, frequency, enabled, createdAt, lastRunAt, nextRunAt, false)
    }

    method Set(p: UpdateParams)
      modifies this
      ensures Row() == Edited(old(Row()), p)
    {
      if p.name.Some? { name := TrimSpace(p.name.value); }
      if p.query.Some? { query := TrimSpace(p.query.value); }
      if p.location.Some? { location := TrimSpace(p.location.value); }
      if p.frequency.Some? { frequency := TrimSpace(p.frequency.value); }
      if p.enabled.Some? { enabled := p.enabled.value; }
    }

    // Enabling a search makes it due at once, disabling unschedules it, and a
    // new frequency reschedules it from its last run.
    method Reschedule(oldFrequency: string, wasEnabled: bool, now: Time)
      modifies this`nextRunAt
      ensures Row() == Rescheduled(oldFrequency, wasEnabled, old(Row()), now)
    {
      if !enabled {
        nextRunAt := None;
      } else if !wasEnabled {
        nextRunAt := Some(now);
      } else if frequency != oldFrequency && lastRunAt.Some? {
        nextRunAt := Some(NextRun(frequency, lastRunAt.value));
      }
    }

    // Checks the record and fills in a default name.
    method Validate() returns (err: Option<Error>)
      modifies this`name
      ensures err == Invalid(old(Row()))
      ensures err.None? ==> Row() == Named(old(Row()))
    {
      if query == "" {
        return Some(BadParam("query", true));
      }
      if |query| > MAX_QUERY {
        return Some(BadParam("query", false));
      }
      if |location| > MAX_LOCATION {
        return Some(BadParam("location", false));
      }
      if name == "" {
        name := query;
      }
      if |name| > MAX_NAME {
        return Some(BadParam("name", false));
      }
      if FrequencyInterval(frequency).None? {
        return Some(BadParam("frequency", false));
      }
      return None;
    }
  }

  function Named(s: Search): Search {
    if s.name == "" then s.(name := s.query) else s
  }

  function Invalid(s: Search): Option<Error> {
    if s.query == "" then Some(BadParam("query", true))
    else if |s.query| > MAX_QUERY then Some(BadParam("query", false))
    else if |s.location| > MAX_LOCATION then Some(BadParam("location", false))
    else if |Named(s).name| > MAX_NAME then Some(BadParam("name", false))
    else if FrequencyInterval(s.frequency).None? then Some(BadParam("frequency", false))
    else None
  }

  function Drafted(userId: Id, p: CreateParams, now: Time): Search {
    var frequency := TrimSpace(p.frequency);
    Search(userId, TrimSpace(p.name), TrimSpace(p.query), TrimSpace(p.location),
           if frequency == "" then "daily" else frequency, p.enabled.GetOr(true), now, None, None, false)
  }

  // An enabled search is due at once.
  function Create(db: DB, id: Id, userId: Id, p: CreateParams, now: Time): Outcome<DB, Error> {
    var s := Drafted(userId, p, now);
    match Invalid(s)
    case Some(e) => Err(e)
    case None =>
      Ok(db.(searches := db.searches[id := Named(s).(nextRunAt := if s.enabled then Some(now) else None)]))
  }

  method CreateSearch(d: Database, id: Id, userId: Id, p: CreateParams, now: Time) returns (err: Option<Error>)
    modifies d`searches
    ensures match Create(old(d.Rows()), id, userId, p, now)
            case Ok(next) => err.None? && d.Rows() == next
            case Err(e) => err == Some(e) && d.Rows() == old(d.Rows())
  {
    var rec := new Record(Search(userId, TrimSpace(p.name), TrimSpace(p.query), TrimSpace(p.location),
                                 TrimSpace(p.frequency), p.enabled.None? || p.enabled.value, now, None, None, false));
    if rec.frequency == "" {
      rec.frequency := "daily";
    }
    assert rec.Row() == Drafted(userId, p, now);
    err := rec.Validate();
    if err.Some? {
      return;
    }
    if rec.enabled {
      rec.nextRunAt := Some(now);
    }
    d.searches := d.searches[id := rec.Row()];
  }

  predicate Has(db: DB, userId: Id, id: Id) {
    id in db.searches && db.searches[id].userId == userId && !db.searches[id].deleted
  }

  function Edited(s: Search, p: UpdateParams): Search {
    s.(name := if p.name.Some? then TrimSpace(p.name.value) else s.name,
       query := if p.query.Some? then TrimSpace(p.query.value) else s.query,
       location := if p.location.Some? then TrimSpace(p.location.value) else s.location,
       frequency := if p.frequency.Some? then TrimSpace(p.frequency.value) else s.frequency,
       enabled := p.enabled.GetOr(s.enabled))
  }

  function Rescheduled(oldFrequency: string, wasEnabled: bool, s: Search, now: Time): Search {
    if !s.enabled then s.(nextRunAt := None)
    else if !wasEnabled then s.(nextRunAt := Some(now))
    else if s.frequency != oldFrequency && s.lastRunAt.Some? then
      s.(nextRunAt := Some(NextRun(s.frequency, s.lastRunAt.value)))
    else s
  }

  function Update(db: DB, userId: Id, id: Id, p: UpdateParams, now: Time): Outcome<DB, Error> {
    if !Has(db, userId, id) then Err(NotFound)
    else
      var s := db.searches[id];
      match Invalid(Edited(s, p))
      case Some(e) => Err(e)
      case None => Ok(db.(searches := db.searches[id := Rescheduled(s.frequency, s.enabled, Named(Edited(s, p)), now)]))
  }

  method UpdateSearch(d: Database, userId: Id, id: Id, p: UpdateParams, now: Time) returns (err: Option<Error>)
    modifies d`searches
    ensures match Update(old(d.Rows()), userId, id, p, now)
            case Ok(next) => err.None? && d.Rows() == next
            case Err(e) => err == Some(e) && d.Rows() == old(d.Rows())
  {
    if !(id in d.searches && d.searches[id].userId == userId && !d.searches[id].deleted) {
      return Some(NotFound);
    }
    var rec := new Record(d.searches[id]);
    var oldFrequency, wasEnabled := rec.frequency, rec.enabled;
    rec.Set(p);
    err := rec.Validate();
    if err.Some? {
      return;
    }
    rec.Reschedule(oldFrequency, wasEnabled, now);
    d.searches := d.searches[id := rec.Row()];
  }

  function RunNow(db: DB, userId: Id, id: Id, now: Time): Outcome<DB, Error> {
    if !Has(db, userId, id) then Err(NotFound)
    else if !db.searches[id].enabled then Err(Disabled)
    else Ok(db.(searches := db.searches[id := db.searches[id].(nextRunAt := Some(now))]))
  }

  method RunSearchNow(d: Database, userId: Id, id: Id, now: Time) returns (err: Option<Error>)
    modifies d`searches
    ensures match RunNow(old(d.Rows()), userId, id, now)
            case Ok(next) => err.None? && d.Rows() == next
            case Err(e) => err == Some(e) && d.Rows() == old(d.Rows())
  {
    if !(id in d.searches && d.searches[id].userId == userId && !d.searches[id].deleted) {
      return Some(NotFound);
    }
    if !d.searches[id].enabled {
      return Some(Disabled);
    }
    d.searches := d.searches[id := d.searches[id].(nextRunAt := Some(now))];
    return None;
  }

  function SoftDelete(db: DB, userId: Id, id: Id): Outcome<DB, Error> {
    if Has(db, userId, id) then Ok(db.(searches := db.searches[id := db.searches[id].(deleted := true)]))
    else Err(NotFound)
  }

  // ----- the scheduler

  predicate Due(db: DB, id: Id, now: Time) {
    && id in db.searches
    && !db.searches[id].deleted
    && db.searches[id].enabled
    && db.searches[id].nextRunAt.Some?
    && db.searches[id].nextRunAt.value <= now
  }

  function ClaimRun(db: DB, id: Id, now: Time, until: Time): DB {
    if Due(db, id, now) then db.(searches := db.searches[id := db.searches[id].(nextRunAt := Some(until))]) else db
  }

  method ClaimSearchRun(d: Database, id: Id, now: Time, until: Time) returns (claimed: bool)
    modifies d`searches
    ensures claimed == Due(old(d.Rows()), id, now)
    ensures d.Rows() == ClaimRun(old(d.Rows()), id, now, until)
  {
    claimed := false;
    if id in d.searches {
      var s := d.searches[id];
      if !s.deleted && s.enabled && s.nextRunAt.Some? && s.nextRunAt.value <= now {
        d.searches := d.searches[id := s.(nextRunAt := Some(until))];
        claimed := true;
      }
    }
  }

  // A search disabled while it ran is left unscheduled.
  function MarkRun(db: DB, id: Id, ranAt: Time, next: Time): DB {
    if id in db.searches && !db.searches[id].deleted then
      var s := db.searches[id];
      db.(searches := db.searches[id := s.(lastRunAt := Some(ranAt), nextRunAt := if s.enabled then Some(next) else None)])
    else db
  }

  method MarkSearchRun(d: Database, id: Id, ranAt: Time, next: Time)
    modifies d`searches
    ensures d.Rows() == MarkRun(old(d.Rows()), id, ranAt, next)
  {
    if id in d.searches && !d.searches[id].deleted {
      var s := d.searches[id];
      s := s.(lastRunAt := Some(ranAt));
      s := s.(nextRunAt := if s.enabled then Some(next) else None);
      d.searches := d.searches[id := s];
    }
  }

  // ----- a search is scheduled exactly while it is enabled

  ghost predicate Scheduled(db: DB) {
    forall s :: s in db.searches ==> (db.searches[s].enabled <==> db.searches[s].nextRunAt.Some?)
  }

  lemma CreateKeepsScheduled(db: DB, id: Id, userId: Id, c: CreateParams, now: Time)
    requires Scheduled(db) && Create(db, id, userId, c, now).Ok?
    ensures Scheduled(Create(db, id, userId, c, now).value)
  {
  }

  lemma UpdateKeepsScheduled(db: DB, id: Id, userId: Id, u: UpdateParams, now: Time)
    requires Scheduled(db) && Update(db, userId, id, u, now).Ok?
    ensures Scheduled(Update(db, userId, id, u, now).value)
  {
    var s := db.searches[id];
    assert s.enabled <==> s.nextRunAt.Some?;
    var t := Rescheduled(s.frequency, s.enabled, Named(Edited(s, u)), now);
    assert t.enabled <==> t.nextRunAt.Some?;
  }

  // Of any callers racing for one due run, only the first wins until its lease ends.
  function Winners(db: DB, id: Id, calls: seq<(Time, Time)>): nat
    decreases |calls|
  {
    if calls == [] then 0
    else
      var (now, until) := calls[0];
      (if Due(db, id, now) then 1 else 0) + Winners(ClaimRun(db, id, now, until), id, calls[1..])
  }

  lemma {:induction false} NoWinnerDuringLease(db: DB, id: Id, calls: seq<(Time, Time)>)
    requires forall i :: 0 <= i < |calls| ==> !Due(db, id, calls[i].0)
    ensures Winners(db, id, calls) == 0
    decreases |calls|
  {
    if calls != [] {
      assert !Due(db, id, calls[0].0);
      NoWinnerDuringLease(db, id, calls[1..]);
    }
  }

  lemma OneWinnerPerRun(db: DB, id: Id, calls: seq<(Time, Time)>)
    requires calls != [] && Due(db, id, calls[0].0)
    requires forall i :: 0 <= i < |calls| ==> calls[i].0 < calls[0].1
    ensures Winners(db, id, calls) == 1
  {
    var claimed := ClaimRun(db, id, calls[0].0, calls[0].1);
    forall i | 0 <= i < |calls| - 1
      ensures !Due(claimed, id, calls[1..][i].0)
    {
      assert calls[1..][i] == calls[i + 1];
    }
    NoWinnerDuringLease(claimed, id, calls[1..]);
  }
}
