// The dashboard's counts (Summary in internal/services/results/results.go), on
// one state of the tables.
module Summary {
  import opened Common
  import opened Ordering
  import opened Sums
  import opened Tables
  import opened Account
  import opened Machine
  import opened Integrity
  import opened Reachable
  import Results

  // 7 * 24 hours
  const WEEK: Time := 604_800_000_000_000
  const STRONG_SCORE := 80

  datatype SearchCount = SearchCount(id: Id, name: string, total: nat, newThisWeek: nat)

  datatype Counts = Counts(
    weekStart: Time, total: nat, scored: nat, evaluating: nat, failedEvaluation: nat,
    newThisWeek: nat, newThisWeekSearches: nat, strongMatches: nat, strongMatchesNew: nat,
    byStatus: map<string, nat>, bySearch: seq<SearchCount>)

  // ----- the two queries

  function Shown(db: DB, u: Id): set<Id> {
    set r | r in db.results && Results.Visible(db, u, r)
  }

  function NewOf(db: DB, rs: set<Id>, since: Time): set<Id> {
    set r | r in rs && r in db.results && db.results[r].createdAt >= since
  }

  predicate IsStrong(r: SearchResult) {
    r.overallScore.Some? && r.overallScore.value >= STRONG_SCORE
  }

  function WithStatus(db: DB, rs: set<Id>, status: string): set<Id> {
    set r | r in rs && r in db.results && db.results[r].status == status
  }

  function SearchesOf(db: DB, rs: set<Id>): set<Id> {
    set r | r in rs && r in db.results :: db.results[r].searchId
  }

  function LiveSearches(db: DB, u: Id): set<Id> {
    set x | x in db.searches && db.searches[x].userId == u && !db.searches[x].deleted
  }

  // What the second query joins to a search: its results whose job exists.
  function FoundBy(db: DB, x: Id): set<Id> {
    set r | r in db.results && db.results[r].searchId == x
            && db.results[r].jobId in db.jobs && !db.jobs[db.results[r].jobId].deleted
  }

  function SearchAge(db: DB, x: Id): Time {
    if x in db.searches then db.searches[x].createdAt else 0
  }

  predicate OlderSearch(db: DB, x: Id, y: Id) {
    SearchAge(db, x) < SearchAge(db, y) || (SearchAge(db, x) == SearchAge(db, y) && x < y)
  }

  function OldestFirst(db: DB): (Id, Id) -> bool {
    (x: Id, y: Id) => OlderSearch(db, x, y)
  }

  lemma OldestFirstIsTotal(db: DB)
    ensures StrictTotal(OldestFirst(db))
  {
  }

  function CountOf(db: DB, x: Id, since: Time): SearchCount {
    SearchCount(x, if x in db.searches then db.searches[x].name else "", |FoundBy(db, x)|, |NewOf(db, FoundBy(db, x), since)|)
  }

  function CountsOf(db: DB, xs: seq<Id>, since: Time): seq<SearchCount> {
    if xs == [] then [] else [CountOf(db, xs[0], since)] + CountsOf(db, xs[1..], since)
  }

  function Scored(db: DB, rs: set<Id>): set<Id> {
    set r | r in rs && r in db.results && db.results[r].overallScore.Some?
  }

  function Evaluating(db: DB, rs: set<Id>): set<Id> {
    set r | r in rs && r in db.results && (db.results[r].evalStatus == Pending || db.results[r].evalStatus == Processing)
  }

  function FailedToEvaluate(db: DB, rs: set<Id>): set<Id> {
    set r | r in rs && r in db.results && db.results[r].evalStatus == Failed
  }

  function Strong(db: DB, rs: set<Id>): set<Id> {
    set r | r in rs && r in db.results && IsStrong(db.results[r])
  }

  // Every status is present.
  function StatusCounts(db: DB, rs: set<Id>): map<string, nat> {
    map status | status in RESULT_STATUSES :: |WithStatus(db, rs, status)|
  }

  ghost function SearchCounts(db: DB, u: Id, since: Time): seq<SearchCount> {
    OldestFirstIsTotal(db);
    CountsOf(db, Sort(LiveSearches(db, u), OldestFirst(db)), since)
  }

  ghost function CountedSince(db: DB, u: Id, since: Time): Counts {
    var shown := Shown(db, u);
    var recent := NewOf(db, shown, since);
    var strong := Strong(db, shown);
    Counts(since, |shown|, |Scored(db, shown)|, |Evaluating(db, shown)|, |FailedToEvaluate(db, shown)|,
           |recent|, |SearchesOf(db, recent)|,
           |strong - WithStatus(db, strong, "dismissed")|, |WithStatus(db, strong, "new")|,
           StatusCounts(db, shown), SearchCounts(db, u, since))
  }

  ghost function Summarise(db: DB, u: Id, now: Time): Counts {
    CountedSince(db, u, now - WEEK)
  }

  // ----- conservation

  function TotalOf(rows: seq<SearchCount>): int {
    if rows == [] then 0 else rows[0].total + TotalOf(rows[1..])
  }

  function NewIn(rows: seq<SearchCount>): int {
    if rows == [] then 0 else rows[0].newThisWeek + NewIn(rows[1..])
  }

  function SearchesWithNew(rows: seq<SearchCount>): int {
    if rows == [] then 0 else (if rows[0].newThisWeek > 0 then 1 else 0) + SearchesWithNew(rows[1..])
  }

  function SearchOf(db: DB): Id -> Id {
    (r: Id) => if r in db.results then db.results[r].searchId else 0
  }

  function StatusOf(db: DB): Id -> string {
    (r: Id) => if r in db.results then db.results[r].status else ""
  }

  function FoundCount(db: DB): Id -> int {
    (x: Id) => |FoundBy(db, x)|
  }

  function NewCount(db: DB, since: Time): Id -> int {
    (x: Id) => |NewOf(db, FoundBy(db, x), since)|
  }

  function HasNew(db: DB, since: Time): Id -> int {
    (x: Id) => if |NewOf(db, FoundBy(db, x), since)| > 0 then 1 else 0
  }

  lemma {:induction false} RowSums(db: DB, xs: seq<Id>, since: Time)
    ensures var rows := CountsOf(db, xs, since);
            && TotalOf(rows) == SumOf(xs, FoundCount(db)) && NewIn(rows) == SumOf(xs, NewCount(db, since))
            && SearchesWithNew(rows) == SumOf(xs, HasNew(db, since))
  {
    if xs != [] {
      RowSums(db, xs[1..], since);
      assert CountsOf(db, xs, since)[1..] == CountsOf(db, xs[1..], since);
    }
  }

  // A search's share of what its owner is shown is what it found.
  lemma ShownOfSearch(db: DB, u: Id, x: Id)
    requires ResultsOwned(db) && x in LiveSearches(db, u)
    ensures Part(Shown(db, u), SearchOf(db), x) == FoundBy(db, x)
  {
    forall r | r in FoundBy(db, x)
      ensures r in Shown(db, u)
    {
      assert db.results[r].userId == u;
    }
  }

  lemma ShownAreOfSearches(db: DB, u: Id)
    requires ResultsOwned(db)
    ensures forall r :: r in Shown(db, u) ==> SearchOf(db)(r) in LiveSearches(db, u)
  {
  }

  lemma TotalIsBySearch(db: DB, u: Id)
    requires ResultsOwned(db)
    ensures |Shown(db, u)| == Sum(LiveSearches(db, u), FoundCount(db))
  {
    ShownAreOfSearches(db, u);
    forall x | x in LiveSearches(db, u)
      ensures FoundCount(db)(x) == |Part(Shown(db, u), SearchOf(db), x)|
    {
      ShownOfSearch(db, u, x);
    }
    PartsAddUp(Shown(db, u), SearchOf(db), LiveSearches(db, u), FoundCount(db));
  }

  lemma NewOfSearch(db: DB, u: Id, x: Id, since: Time)
    requires ResultsOwned(db) && x in LiveSearches(db, u)
    ensures Part(NewOf(db, Shown(db, u), since), SearchOf(db), x) == NewOf(db, FoundBy(db, x), since)
  {
    ShownOfSearch(db, u, x);
    forall r
      ensures r in Part(NewOf(db, Shown(db, u), since), SearchOf(db), x) <==> r in NewOf(db, FoundBy(db, x), since)
    {
      assert r in Part(Shown(db, u), SearchOf(db), x) <==> r in FoundBy(db, x);
    }
  }

  lemma NewIsBySearch(db: DB, u: Id, since: Time)
    requires ResultsOwned(db)
    ensures |NewOf(db, Shown(db, u), since)| == Sum(LiveSearches(db, u), NewCount(db, since))
  {
    ShownAreOfSearches(db, u);
    var recent := NewOf(db, Shown(db, u), since);
    forall x | x in LiveSearches(db, u)
      ensures NewCount(db, since)(x) == |Part(recent, SearchOf(db), x)|
    {
      NewOfSearch(db, u, x, since);
    }
    PartsAddUp(recent, SearchOf(db), LiveSearches(db, u), NewCount(db, since));
  }

  lemma {:induction false} SumOfOnes(s: set<Id>, f: Id -> int, ones: set<Id>)
    requires ones <= s && forall x :: x in s ==> f(x) == if x in ones then 1 else 0
    ensures Sum(s, f) == |ones|
    decreases s
  {
    if s != {} {
      var x :| x in s;
      TakeOut(s, f, x);
      SumOfOnes(s - {x}, f, ones - {x});
    }
  }

  lemma NewSearchesAreTheirs(db: DB, u: Id, since: Time)
    requires ResultsOwned(db)
    ensures var found := SearchesOf(db, NewOf(db, Shown(db, u), since));
            && found <= LiveSearches(db, u)
            && forall x :: x in LiveSearches(db, u) ==> (x in found <==> |NewOf(db, FoundBy(db, x), since)| > 0)
  {
    ShownAreOfSearches(db, u);
    var recent := NewOf(db, Shown(db, u), since);
    forall x | x in LiveSearches(db, u)
      ensures x in SearchesOf(db, recent) <==> |NewOf(db, FoundBy(db, x), since)| > 0
    {
      NewOfSearch(db, u, x, since);
      if x in SearchesOf(db, recent) {
        var r :| r in recent && r in db.results && db.results[r].searchId == x;
        assert r in Part(recent, SearchOf(db), x);
      }
      if |NewOf(db, FoundBy(db, x), since)| > 0 {
        var r :| r in NewOf(db, FoundBy(db, x), since);
        assert r in Part(recent, SearchOf(db), x);
      }
    }
  }

  function CountIn(counts: map<string, nat>): string -> int {
    (status: string) => if status in counts then counts[status] else 0
  }

  lemma TotalIsByStatus(db: DB, u: Id)
    requires StatusesKnown(db)
    ensures var counts := StatusCounts(db, Shown(db, u));
            |Shown(db, u)| == Sum(counts.Keys, CountIn(counts))
  {
    var shown := Shown(db, u);
    var counts := StatusCounts(db, shown);
    forall status | status in counts.Keys
      ensures CountIn(counts)(status) == |Part(shown, StatusOf(db), status)|
    {
      assert Part(shown, StatusOf(db), status) == WithStatus(db, shown, status);
    }
    PartsAddUp(shown, StatusOf(db), counts.Keys, CountIn(counts));
  }

  lemma SearchCountsAddUp(db: DB, u: Id, since: Time)
    ensures var rows := SearchCounts(db, u, since);
            var live := LiveSearches(db, u);
            && TotalOf(rows) == Sum(live, FoundCount(db)) && NewIn(rows) == Sum(live, NewCount(db, since))
            && SearchesWithNew(rows) == Sum(live, HasNew(db, since))
  {
    var live := LiveSearches(db, u);
    OldestFirstIsTotal(db);
    var xs := Sort(live, OldestFirst(db));
    SortIsSorted(live, OldestFirst(db));
    RowSums(db, xs, since);
    ListSums(xs, live, FoundCount(db));
    ListSums(xs, live, NewCount(db, since));
    ListSums(xs, live, HasNew(db, since));
  }

  // Nothing is counted twice or left out: the total is the sum over statuses
  // and over searches, the new results are the sum of the searches' new ones,
  // and as many searches found them as have a positive count.
  ghost predicate Conserved(c: Counts) {
    && c.total == Sum(c.byStatus.Keys, CountIn(c.byStatus))
    && c.total == TotalOf(c.bySearch)
    && c.newThisWeek == NewIn(c.bySearch)
    && c.newThisWeekSearches == SearchesWithNew(c.bySearch)
  }

  lemma TotalsAgree(db: DB, u: Id, since: Time)
    requires ResultsOwned(db)
    ensures |Shown(db, u)| == TotalOf(SearchCounts(db, u, since))
    ensures |NewOf(db, Shown(db, u), since)| == NewIn(SearchCounts(db, u, since))
  {
    SearchCountsAddUp(db, u, since);
    TotalIsBySearch(db, u);
    NewIsBySearch(db, u, since);
  }

  lemma SearchesAgree(db: DB, u: Id, since: Time)
    requires ResultsOwned(db)
    ensures |SearchesOf(db, NewOf(db, Shown(db, u), since))| == SearchesWithNew(SearchCounts(db, u, since))
  {
    SearchCountsAddUp(db, u, since);
    NewSearchesAreTheirs(db, u, since);
    SumOfOnes(LiveSearches(db, u), HasNew(db, since), SearchesOf(db, NewOf(db, Shown(db, u), since)));
  }

  lemma CountsConserve(db: DB, u: Id, since: Time)
    requires ResultsOwned(db) && StatusesKnown(db)
    ensures Conserved(CountedSince(db, u, since))
  {
    TotalIsByStatus(db, u);
    TotalsAgree(db, u, since);
    SearchesAgree(db, u, since);
  }

  lemma SummaryConserves(db: DB, u: Id, now: Time)
    requires ResultsOwned(db) && StatusesKnown(db)
    ensures Conserved(Summarise(db, u, now))
  {
    CountsConserve(db, u, now - WEEK);
  }

  // So the counts add up in every state the pipeline and its users can reach.
  lemma ReachableSummaryConserves(c: Config, s: Sys, events: seq<Event>, u: Id, now: Time)
    requires Initial(s) && IsRun(c, s, events)
    ensures Conserved(Summarise(End(c, s, events).db, u, now))
  {
    ReachableIsGood(c, s, events);
    SummaryConserves(End(c, s, events).db, u, now);
  }
}
