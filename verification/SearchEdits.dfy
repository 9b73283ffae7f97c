// What creating, editing and running a saved search does to its columns, and
// when it is due afterwards.
module SearchEdits {
  import opened Common
  import opened Strings
  import opened Tables
  import opened Schedule

  // An hour, a day or a week in nanoseconds; anything else is no frequency.
  function Every(frequency: string): Option<Time> {
    if frequency == "hourly" then Some(3_600_000_000_000)
    else if frequency == "daily" then Some(86_400_000_000_000)
    else if frequency == "weekly" then Some(604_800_000_000_000)
    else None
  }

  // What is wrong with a search of these texts.
  predicate Refused(name: string, query: string, location: string, frequency: string) {
    || query == "" || |query| > 200 || |location| > 200
    || |(if name == "" then query else name)| > 100 || Every(frequency).None?
  }

  function TextOr(given: Option<string>, was: string): string {
    if given.Some? then TrimSpace(given.value) else was
  }

  // The texts are checked in this order, and the first bad one is named.
  lemma RefusalNamesFirst(s: Search)
    ensures Invalid(s) ==
              if s.query == "" then Some(BadParam("query", true))
              else if |s.query| > 200 then Some(BadParam("query", false))
              else if |s.location| > 200 then Some(BadParam("location", false))
              else if |(if s.name == "" then s.query else s.name)| > 100 then Some(BadParam("name", false))
              else if Every(s.frequency).None? then Some(BadParam("frequency", false))
              else None
  {
  }

  // ----- creating

  // A search is refused exactly for its texts; otherwise there is one row more,
  // due at once unless it is created disabled.
  lemma CreateColumns(db: DB, id: Id, u: Id, p: CreateParams, now: Time)
    ensures var frequency := if TrimSpace(p.frequency) == "" then "daily" else TrimSpace(p.frequency);
            var name, query, location := TrimSpace(p.name), TrimSpace(p.query), TrimSpace(p.location);
            var enabled := p.enabled != Some(false);
            && (Create(db, id, u, p, now).Err? <==> Refused(name, query, location, frequency))
            && (Create(db, id, u, p, now).Ok? ==>
                  Create(db, id, u, p, now).value == db.(searches := db.searches[id :=
                    Search(u, if name == "" then query else name, query, location, frequency, enabled, now, None,
                           if enabled then Some(now) else None, false)]))
  {
  }

  // ----- editing

  // The next run after an edit: none while disabled, now when just enabled, by
  // the new frequency from the last run when that changed, else as it was.
  function NextAfterEdit(was: Search, frequency: string, enabled: bool, now: Time): Option<Time> {
    if !enabled then None
    else if !was.enabled then Some(now)
    else if frequency != was.frequency && was.lastRunAt.Some? && Every(frequency).Some? then
      Some(was.lastRunAt.value + Every(frequency).value)
    else was.nextRunAt
  }

  predicate EditRefused(was: Search, p: UpdateParams) {
    Refused(TextOr(p.name, was.name), TextOr(p.query, was.query), TextOr(p.location, was.location),
            TextOr(p.frequency, was.frequency))
  }

  // The given columns, trimmed, and the next run; the others stay.
  function EditedRow(was: Search, p: UpdateParams, now: Time): Search {
    var name, query := TextOr(p.name, was.name), TextOr(p.query, was.query);
    var frequency := TextOr(p.frequency, was.frequency);
    var enabled := if p.enabled.Some? then p.enabled.value else was.enabled;
    Search(was.userId, if name == "" then query else name, query, TextOr(p.location, was.location), frequency, enabled,
           was.createdAt, was.lastRunAt, NextAfterEdit(was, frequency, enabled, now), was.deleted)
  }

  lemma EditIsRefused(was: Search, p: UpdateParams)
    ensures Invalid(Edited(was, p)).Some? <==> EditRefused(was, p)
  {
  }

  lemma EditMakesRow(was: Search, p: UpdateParams, now: Time)
    requires !EditRefused(was, p)
    ensures Rescheduled(was.frequency, was.enabled, Named(Edited(was, p)), now) == EditedRow(was, p, now)
  {
  }

  // An update is refused exactly when the user has no such search, or for its
  // texts; otherwise that row alone has the given columns and its next run.
  lemma UpdateColumns(db: DB, u: Id, id: Id, p: UpdateParams, now: Time)
    ensures if id in db.searches && db.searches[id].userId == u && !db.searches[id].deleted then
              && (Update(db, u, id, p, now).Err? <==> EditRefused(db.searches[id], p))
              && (Update(db, u, id, p, now).Ok? ==>
                    Update(db, u, id, p, now).value == db.(searches := db.searches[id := EditedRow(db.searches[id], p, now)]))
            else Update(db, u, id, p, now) == Err(NotFound)
  {
    if id in db.searches {
      EditIsRefused(db.searches[id], p);
      if !EditRefused(db.searches[id], p) {
        EditMakesRow(db.searches[id], p, now);
      }
    }
  }

  lemma EditTwice(was: Search, p: UpdateParams, now: Time, later: Time)
    requires !EditRefused(was, p) && (was.enabled <==> was.nextRunAt.Some?)
    ensures !EditRefused(EditedRow(was, p, now), p)
    ensures EditedRow(EditedRow(was, p, now), p, later) == EditedRow(was, p, now)
  {
  }

  // Saying the same again changes nothing.
  lemma UpdateTwice(db: DB, u: Id, id: Id, p: UpdateParams, now: Time, later: Time)
    requires Update(db, u, id, p, now).Ok? && Scheduled(db)
    ensures Update(Update(db, u, id, p, now).value, u, id, p, later) == Update(db, u, id, p, now)
  {
    UpdateColumns(db, u, id, p, now);
    var once := Update(db, u, id, p, now).value;
    EditTwice(db.searches[id], p, now, later);
    UpdateColumns(once, u, id, p, later);
    assert once.searches[id := once.searches[id]] == once.searches;
  }

  // Disabling a search and enabling it again makes it due at once.
  lemma EnablingIsDue(db: DB, u: Id, id: Id, now: Time, later: Time)
    requires var off := UpdateParams(None, None, None, None, Some(false));
             var on := UpdateParams(None, None, None, None, Some(true));
             Update(db, u, id, off, now).Ok? && Update(Update(db, u, id, off, now).value, u, id, on, later).Ok?
    ensures var off := Update(db, u, id, UpdateParams(None, None, None, None, Some(false)), now).value;
            var on := Update(off, u, id, UpdateParams(None, None, None, None, Some(true)), later).value;
            (forall t :: !Due(off, id, t)) && forall t :: Due(on, id, t) <==> later <= t
  {
    UpdateColumns(db, u, id, UpdateParams(None, None, None, None, Some(false)), now);
    UpdateColumns(Update(db, u, id, UpdateParams(None, None, None, None, Some(false)), now).value, u, id,
                  UpdateParams(None, None, None, None, Some(true)), later);
  }

  // A deleted search is gone for its user and is not due; the row stays.
  lemma DeletedIsNotDue(db: DB, u: Id, id: Id, t: Time)
    ensures SoftDelete(db, u, id).Ok? <==> id in db.searches && db.searches[id].userId == u && !db.searches[id].deleted
    ensures SoftDelete(db, u, id).Ok? ==>
              var next := SoftDelete(db, u, id).value;
              && next == db.(searches := db.searches[id := db.searches[id].(deleted := true)])
              && !Due(next, id, t) && SoftDelete(next, u, id) == Err(NotFound)
  {
  }

  // ----- running

  // A claimed search is due again exactly when its lease is over, and a marked
  // one exactly one period after its run began; a period of no known frequency
  // is a day.
  lemma DueAgainExactlyWhen(db: DB, id: Id, now: Time, until: Time, startedAt: Time, frequency: string, t: Time)
    requires Due(db, id, now)
    ensures Due(ClaimRun(db, id, now, until), id, t) <==> until <= t
    ensures Due(MarkRun(db, id, startedAt, NextRun(frequency, startedAt)), id, t)
            <==> startedAt + Every(frequency).GetOr(86_400_000_000_000) <= t
    ensures ClaimRun(db, id, now, until) == db.(searches := db.searches[id := db.searches[id].(nextRunAt := Some(until))])
    ensures var next := MarkRun(db, id, startedAt, NextRun(frequency, startedAt));
            next == db.(searches := db.searches[id :=
              db.searches[id].(lastRunAt := Some(startedAt), nextRunAt := next.searches[id].nextRunAt)])
  {
  }

  // A search that is gone or deleted is not marked, nor one claimed that is not due.
  lemma OthersAreLeftAlone(db: DB, id: Id, startedAt: Time, next: Time, now: Time, until: Time)
    ensures id !in db.searches || db.searches[id].deleted ==> MarkRun(db, id, startedAt, next) == db
    ensures !Due(db, id, now) ==> ClaimRun(db, id, now, until) == db
  {
  }

  // A search disabled while it ran is not due again, whatever its run marks.
  lemma DisabledIsNotDue(db: DB, id: Id, startedAt: Time, frequency: string, t: Time)
    requires id in db.searches && !db.searches[id].enabled
    ensures !Due(MarkRun(db, id, startedAt, NextRun(frequency, startedAt)), id, t)
  {
  }

  // Asking for a run makes an enabled search due at once, and nothing else.
  lemma RunNowIsDue(db: DB, u: Id, id: Id, now: Time)
    ensures var mine := id in db.searches && db.searches[id].userId == u && !db.searches[id].deleted;
            && (RunNow(db, u, id, now).Ok? <==> mine && db.searches[id].enabled)
            && (mine && !db.searches[id].enabled ==> RunNow(db, u, id, now) == Err(Disabled))
            && (!mine ==> RunNow(db, u, id, now) == Err(NotFound))
            && (RunNow(db, u, id, now).Ok? ==>
                  && (forall t :: Due(RunNow(db, u, id, now).value, id, t) <==> now <= t)
                  && RunNow(db, u, id, now).value
                     == db.(searches := db.searches[id := db.searches[id].(nextRunAt := Some(now))]))
  {
  }
}
