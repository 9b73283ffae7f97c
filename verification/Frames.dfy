// What the events that are one SQL statement leave as it was: the rows of a
// user, other than the one row an event updates.
module Frames {
  import opened Common
  import opened Tables
  import opened Schedule
  import opened Machine
  import opened Integrity
  import opened Reachable

  // The events that the source does in a transaction of several statements.
  predicate IsTransaction(e: Event) {
    || (e.Working? && e.work.ResultWritten?)
    || (e.Searching? && e.search.ResultStored?)
    || (e.Serving? && e.user.AccountDeleted?)
  }

  // The search an event updates, if any.
  function SearchRow(s: Sys, e: Event): Option<Id> {
    if !e.Searching? then None
    else match e.search
         case RunClaimed(_, id, _) => Some(id)
         case RunMarked(run) => if run in s.runs then Some(s.runs[run].searchId) else None
         case SearchUpdated(id, _, _) => Some(id)
         case RunRequested(id, _) => Some(id)
         case SearchDeleted(id, _) => Some(id)
         case _ => None
  }

  // The result an event updates, if any.
  function ResultRow(e: Event): Option<Id> {
    match e
    case Working(ResultClaimed(_, id)) => Some(id)
    case Serving(ReEvaluated(id, _)) => Some(id)
    case Serving(StatusSet(id, _, _, _)) => Some(id)
    case _ => None
  }

  ghost predicate ResultsSteady(db: DB, next: DB, row: Option<Id>) {
    && next.results.Keys == db.results.Keys
    && forall r :: r in db.results ==>
         SamePlace(next.results[r], db.results[r]) && (Some(r) != row ==> next.results[r] == db.results[r])
  }

  ghost predicate SearchesSteady(db: DB, next: DB, row: Option<Id>) {
    forall x :: x in db.searches ==>
      && x in next.searches && next.searches[x].userId == db.searches[x].userId
      && (Some(x) != row ==> next.searches[x] == db.searches[x])
  }

  // Only their own call gives a user a new search or CV, with a new id.
  ghost predicate NewRowsAreTheirs(s: Sys, db: DB, next: DB, e: Event) {
    && (forall x :: x in next.searches && x !in db.searches ==>
          && e.Searching? && e.search.SearchCreated? && next.searches[x].userId == e.search.userId
          && x == e.search.id && x !in s.used)
    && (forall k :: k in next.cvs && k !in db.cvs ==>
          && e.Serving? && e.user.CVAdded? && next.cvs[k].userId == e.user.userId
          && k == e.user.id && k !in s.used)
    && (next.users - db.users) !! s.used
  }

  // The ids of the rows a request stores, other than a search, a CV or a user.
  function StoredIds(e: Event): set<Id> {
    match e
    case Serving(SectionsStored(ids, _, _)) => ids
    case Serving(KeyAdded(id, _)) => {id}
    case Serving(SuggestionAdded(id, _)) => {id}
    case _ => {}
  }

  lemma StoredIdsAreUsed(c: Config, s: Sys, e: Event)
    requires Can(c, s, e)
    ensures StoredIds(e) <= After(c, s, e).used
  {
  }

  // The tables that only get new rows.
  function SectionsAfter(db: DB, e: Event): map<Id, Section> {
    match e
    case Serving(SectionsStored(ids, userId, cv)) => db.sections + SectionRows(ids, userId, cv)
    case _ => db.sections
  }

  function KeysAfter(db: DB, e: Event): map<Id, Id> {
    match e
    case Serving(KeyAdded(id, userId)) => db.apiKeys[id := userId]
    case _ => db.apiKeys
  }

  function SuggestionsAfter(db: DB, e: Event): map<Id, Id> {
    match e
    case Serving(SuggestionAdded(id, userId)) => db.suggestions[id := userId]
    case _ => db.suggestions
  }

  ghost predicate RestSteady(db: DB, next: DB, e: Event) {
    && next.evaluations == db.evaluations && next.scores == db.scores
    && next.sections == SectionsAfter(db, e) && next.apiKeys == KeysAfter(db, e)
    && next.suggestions == SuggestionsAfter(db, e)
    && db.users <= next.users && db.jobs.Keys <= next.jobs.Keys
    && forall k :: k in db.cvs ==> k in next.cvs && next.cvs[k].userId == db.cvs[k].userId
  }

  ghost predicate Steady(s: Sys, db: DB, next: DB, e: Event) {
    && ResultsSteady(db, next, ResultRow(e)) && SearchesSteady(db, next, SearchRow(s, e))
    && NewRowsAreTheirs(s, db, next, e) && RestSteady(db, next, e)
    && (e.Serving? ==> CanUser(s, e.user))
  }

  lemma WorkIsSteady(c: Config, s: Sys, e: WorkEvent)
    requires CanWork(c, s, e) && !e.ResultWritten?
    ensures Steady(s, s.db, AfterWork(c, s, e).db, Working(e))
  {
    var next := AfterWork(c, s, e).db;
    assert next == s.db.(jobs := next.jobs, results := next.results) && s.db.jobs.Keys <= next.jobs.Keys;
    assert ResultsSteady(s.db, next, ResultRow(Working(e)));
  }

  lemma SearchIsSteady(c: Config, s: Sys, e: SearchEvent)
    requires IdsUsed(s) && CanSearch(s, e) && !e.ResultStored?
    ensures Steady(s, s.db, AfterSearch(c, s, e).db, Searching(e))
  {
    SearchTouches(c, s, e);
    if IsService(e) {
      ServiceIsSteady(c, s, e);
    } else {
      SchedulerIsSteady(c, s, e);
    }
  }

  lemma SearchTouches(c: Config, s: Sys, e: SearchEvent)
    requires CanSearch(s, e) && !e.ResultStored?
    ensures var next := AfterSearch(c, s, e).db;
            next == s.db.(jobs := next.jobs, searches := next.searches) && s.db.jobs.Keys <= next.jobs.Keys
  {
    if IsService(e) {
      ServiceTouches(c, s, e);
    }
  }

  lemma SchedulerIsSteady(c: Config, s: Sys, e: SearchEvent)
    requires CanSearch(s, e) && !e.ResultStored? && !IsService(e)
    ensures SearchesSteady(s.db, AfterSearch(c, s, e).db, SearchRow(s, Searching(e)))
    ensures AfterSearch(c, s, e).db.searches.Keys == s.db.searches.Keys
  {
  }

  lemma ServiceIsSteady(c: Config, s: Sys, e: SearchEvent)
    requires IdsUsed(s) && CanSearch(s, e) && IsService(e)
    ensures var next := AfterSearch(c, s, e).db;
            && SearchesSteady(s.db, next, SearchRow(s, Searching(e)))
            && forall x :: x in next.searches && x !in s.db.searches ==>
                 e.SearchCreated? && next.searches[x].userId == e.userId && x == e.id && x !in s.used
  {
    ServiceTouches(c, s, e);
    if e.SearchCreated? {
      CreatedIsTheirs(s.db, e.id, e.userId, e.create, s.now);
    }
  }

  lemma CreatedIsTheirs(db: DB, id: Id, userId: Id, p: CreateParams, now: Time)
    ensures var o := Create(db, id, userId, p, now);
            o.Ok? ==> id in o.value.searches && o.value.searches[id].userId == userId
  {
  }

  lemma UserIsSteady(s: Sys, e: UserEvent)
    requires IdsUsed(s) && CanUser(s, e) && !e.AccountDeleted?
    ensures Steady(s, s.db, AfterUser(s, e).db, Serving(e))
  {
    UserTouches(s, e);
    UserKeepsResults(s, e);
    UserKeepsCVs(s, e);
  }

  lemma UserTouches(s: Sys, e: UserEvent)
    requires CanUser(s, e) && !e.AccountDeleted?
    ensures var next := AfterUser(s, e).db;
            && next.evaluations == s.db.evaluations && next.scores == s.db.scores && next.searches == s.db.searches
            && next.sections == SectionsAfter(s.db, Serving(e)) && next.apiKeys == KeysAfter(s.db, Serving(e))
            && next.suggestions == SuggestionsAfter(s.db, Serving(e))
            && next.jobs == s.db.jobs && s.db.users <= next.users
  {
    match e {
      case ReEvaluated(id, userId) =>
      case StatusSet(id, userId, lower, status) =>
      case _ =>
    }
  }

  lemma UserKeepsResults(s: Sys, e: UserEvent)
    requires CanUser(s, e) && !e.AccountDeleted?
    ensures ResultsSteady(s.db, AfterUser(s, e).db, ResultRow(Serving(e)))
  {
  }

  lemma UserKeepsCVs(s: Sys, e: UserEvent)
    requires IdsUsed(s) && CanUser(s, e) && !e.AccountDeleted?
    ensures var next := AfterUser(s, e).db;
            && (forall k :: k in s.db.cvs ==> k in next.cvs && next.cvs[k].userId == s.db.cvs[k].userId)
            && (forall k :: k in next.cvs && k !in s.db.cvs ==>
                  e.CVAdded? && next.cvs[k].userId == e.userId && k == e.id && k !in s.used)
  {
  }

  lemma StatementIsSteady(c: Config, s: Sys, e: Event)
    requires IdsUsed(s) && Can(c, s, e) && !IsTransaction(e)
    ensures Steady(s, s.db, After(c, s, e).db, e)
  {
    match e {
      case Working(we) => WorkIsSteady(c, s, we);
      case Searching(se) => SearchIsSteady(c, s, se);
      case Serving(ue) => UserIsSteady(s, ue);
      case Tick(_) =>
    }
  }

  // The worker and the run an event is of.
  function WorkerOf(e: Event): Option<Id> {
    match e
    case Working(CVSelected(w, _)) => Some(w)
    case Working(JobWritten(w, _, _, _)) => Some(w)
    case Working(ResultWritten(w, _, _, _, _, _)) => Some(w)
    case Working(WorkerLost(w)) => Some(w)
    case _ => None
  }

  function RunOf(e: Event): Option<Id> {
    match e
    case Searching(ResultStored(run, _, _, _)) => Some(run)
    case Searching(RunMarked(run)) => Some(run)
    case Searching(RunDropped(run)) => Some(run)
    case _ => None
  }

  // Workers and runs are only changed by their own events.
  ghost predicate Undisturbed(s: Sys, next: Sys, e: Event) {
    && (forall w :: w in s.workers && Some(w) != WorkerOf(e) ==> w in next.workers && next.workers[w] == s.workers[w])
    && (forall r :: r in s.runs && Some(r) != RunOf(e) ==> r in next.runs && next.runs[r] == s.runs[r])
    && s.used <= next.used && s.now <= next.now
  }

  lemma WorkLeavesOthersAlone(c: Config, s: Sys, e: WorkEvent)
    requires IdsUsed(s) && CanWork(c, s, e)
    ensures Undisturbed(s, AfterWork(c, s, e), Working(e))
  {
  }

  lemma SearchLeavesOthersAlone(c: Config, s: Sys, e: SearchEvent)
    requires IdsUsed(s) && CanSearch(s, e)
    ensures Undisturbed(s, AfterSearch(c, s, e), Searching(e))
  {
    if IsService(e) {
      ServiceTouches(c, s, e);
    }
  }

  lemma UserLeavesOthersAlone(s: Sys, e: UserEvent)
    requires CanUser(s, e)
    ensures Undisturbed(s, AfterUser(s, e), Serving(e))
  {
  }

  lemma EventsLeaveOthersAlone(c: Config, s: Sys, e: Event)
    requires IdsUsed(s) && Can(c, s, e)
    ensures Undisturbed(s, After(c, s, e), e)
  {
    match e {
      case Working(we) => WorkLeavesOthersAlone(c, s, we);
      case Searching(se) => SearchLeavesOthersAlone(c, s, se);
      case Serving(ue) => UserLeavesOthersAlone(s, ue);
      case Tick(_) =>
    }
  }
}
