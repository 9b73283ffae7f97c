// Listing a user's results page by page (List, after and normalize in
// internal/services/results/results.go), on one state of the tables.
module Paging {
  import opened Common
  import opened Strings
  import opened Matcher
  import opened Ordering
  import opened Tables
  import Schedule
  import opened Results

  const DEFAULT_LIMIT := 20
  const MAX_LIMIT := 100

  const EVALUATION_STATUSES := ["pending", "processing", "done", "failed"]

  datatype ListParams = ListParams(
    search: Option<Id>, minScore: Option<int>, statuses: seq<string>, evalStatuses: seq<string>, since: Option<Time>,
    criterion: string, minCriterionScore: Option<int>, sort: string, limit: int, startingAfter: Option<Id>)

  datatype Page = Page(results: seq<Id>, hasMore: bool, total: nat)

  // ----- parameters

  predicate OutOfRange(score: Option<int>) {
    score.Some? && (score.value < 0 || score.value > 100)
  }

  // The first thing wrong with the criterion filter.
  function CriterionError(criterion: string, min: Option<int>): Option<Error> {
    if criterion == "" && min.Some? then Some(BadParam("criterion", true))
    else if criterion != "" && min.None? then Some(BadParam("min_criterion_score", true))
    else if criterion != "" && !IsCriterion(criterion) then Some(BadParam("criterion", false))
    else if OutOfRange(min) then Some(BadParam("min_criterion_score", false))
    else None
  }

  function Normalized(lower: CaseMap, p: ListParams): Outcome<ListParams, Error> {
    var statuses := Chosen(lower, p.statuses, RESULT_STATUSES, {});
    var evalStatuses := Chosen(lower, p.evalStatuses, EVALUATION_STATUSES, {});
    var criterion := NameOf(lower, p.criterion);
    if OutOfRange(p.minScore) then Err(BadParam("min_score", false))
    else if statuses.None? then Err(BadParam("status", false))
    else if evalStatuses.None? then Err(BadParam("evaluation_status", false))
    else if CriterionError(criterion, p.minCriterionScore).Some? then
      Err(CriterionError(criterion, p.minCriterionScore).value)
    else if p.sort !in ["", "score", "newest"] then Err(BadParam("sort", false))
    else if p.limit != 0 && !(1 <= p.limit <= MAX_LIMIT) then Err(BadParam("limit", false))
    else
      Ok(p.(statuses := statuses.value, evalStatuses := evalStatuses.value, criterion := criterion,
            sort := if p.sort == "" then "score" else p.sort,
            limit := if p.limit == 0 then DEFAULT_LIMIT else p.limit))
  }

  method Normalize(lower: CaseMap, p: ListParams) returns (out: Outcome<ListParams, Error>)
    ensures out == Normalized(lower, p)
    ensures out.Ok? ==> 1 <= out.value.limit <= MAX_LIMIT && out.value.sort in ["score", "newest"]
  {
    var q := p;
    if q.minScore.Some? && (q.minScore.value < 0 || q.minScore.value > 100) {
      return Err(BadParam("min_score", false));
    }
    var statuses := OneOf(lower, "status", q.statuses, RESULT_STATUSES);
    if statuses.Err? {
      return Err(statuses.error);
    }
    q := q.(statuses := statuses.value);
    var evalStatuses := OneOf(lower, "evaluation_status", q.evalStatuses, EVALUATION_STATUSES);
    if evalStatuses.Err? {
      return Err(evalStatuses.error);
    }
    q := q.(evalStatuses := evalStatuses.value, criterion := ToLower(lower, TrimSpace(q.criterion)));
    if q.criterion == "" && q.minCriterionScore.Some? {
      return Err(BadParam("criterion", true));
    } else if q.criterion != "" && q.minCriterionScore.None? {
      return Err(BadParam("min_criterion_score", true));
    } else if q.criterion != "" && !IsCriterion(q.criterion) {
      return Err(BadParam("criterion", false));
    } else if q.minCriterionScore.Some? && (q.minCriterionScore.value < 0 || q.minCriterionScore.value > 100) {
      return Err(BadParam("min_criterion_score", false));
    }
    if q.sort == "" {
      q := q.(sort := "score");
    } else if q.sort != "score" && q.sort != "newest" {
      return Err(BadParam("sort", false));
    }
    if q.limit == 0 {
      q := q.(limit := DEFAULT_LIMIT);
    } else if q.limit < 1 || q.limit > MAX_LIMIT {
      return Err(BadParam("limit", false));
    }
    return Ok(q);
  }

  // ----- the filtered rows

  function EvaluationStatusName(e: EvalStatus): string {
    match e
    case Pending => "pending"
    case Processing => "processing"
    case Done => "done"
    case Failed => "failed"
  }

  predicate ScoredAtLeast(db: DB, r: SearchResult, criterion: string, min: int) {
    && r.overallScore.Some? && r.evaluationId.Some?
    && exists s :: s in db.scores && db.scores[s].evaluationId == r.evaluationId.value
                   && db.scores[s].content.criterion == criterion && db.scores[s].content.score >= min
  }

  predicate Passes(db: DB, r: SearchResult, q: ListParams) {
    && (q.search.Some? ==> r.searchId == q.search.value)
    && (q.minScore.Some? ==> r.overallScore.Some? && r.overallScore.value >= q.minScore.value)
    && (q.statuses != [] ==> r.status in q.statuses)
    && (q.evalStatuses != [] ==> EvaluationStatusName(r.evalStatus) in q.evalStatuses)
    && (q.since.Some? ==> r.createdAt >= q.since.value)
    && (q.criterion != "" ==> q.minCriterionScore.Some? && ScoredAtLeast(db, r, q.criterion, q.minCriterionScore.value))
  }

  function Matching(db: DB, u: Id, q: ListParams): set<Id> {
    set r | r in db.results && Visible(db, u, r) && Passes(db, db.results[r], q)
  }

  // ----- the order

  function ScoreOf(db: DB, r: Id): Option<int> {
    if r in db.results then db.results[r].overallScore else None
  }

  function FoundAt(db: DB, r: Id): Time {
    if r in db.results then db.results[r].createdAt else 0
  }

  // Whether a is listed before b: newest first, or by score descending with
  // unscored results last; ties by id descending.
  predicate Before(db: DB, sort: string, a: Id, b: Id) {
    if sort == "newest" then FoundAt(db, a) > FoundAt(db, b) || (FoundAt(db, a) == FoundAt(db, b) && a > b)
    else if ScoreOf(db, a) == ScoreOf(db, b) then a > b
    else ScoreOf(db, a).Some? && (ScoreOf(db, b).Some? ==> ScoreOf(db, a).value > ScoreOf(db, b).value)
  }

  function ListOrder(db: DB, sort: string): (Id, Id) -> bool {
    (a: Id, b: Id) => Before(db, sort, a, b)
  }

  // The list order is a strict total order on ids, unscored results included.
  lemma ListOrderIsTotal(db: DB, sort: string)
    ensures StrictTotal(ListOrder(db, sort))
  {
  }

  // The condition that continues a query past the cursor c, by the cases of
  // the sort order and of the cursor's score.
  predicate Follows(db: DB, sort: string, c: Id, r: Id) {
    if sort == "newest" then FoundAt(db, r) < FoundAt(db, c) || (FoundAt(db, r) == FoundAt(db, c) && r < c)
    else match ScoreOf(db, c)
         case None => ScoreOf(db, r).None? && r < c
         case Some(score) =>
           || (ScoreOf(db, r).Some? && ScoreOf(db, r).value < score)
           || (ScoreOf(db, r).Some? && ScoreOf(db, r).value == score && r < c)
           || ScoreOf(db, r).None?
  }

  lemma FollowsIsAfter(db: DB, sort: string, c: Id, r: Id)
    ensures Follows(db, sort, c, r) <==> Before(db, sort, c, r)
  {
  }

  // ----- a page

  function Selected(db: DB, u: Id, q: ListParams): set<Id> {
    set r | r in Matching(db, u, q) && (q.startingAfter.Some? ==> Follows(db, q.sort, q.startingAfter.value, r))
  }

  // All the rows a query lists, in order.
  ghost function Listing(db: DB, u: Id, q: ListParams): seq<Id> {
    ListOrderIsTotal(db, q.sort);
    Sort(Matching(db, u, q), ListOrder(db, q.sort))
  }

  ghost function Query(db: DB, u: Id, q: ListParams): Outcome<Page, Error>
    requires q.limit >= 1
  {
    if q.search.Some? && !Schedule.Has(db, u, q.search.value) then Err(SearchNotFound)
    else if q.startingAfter.Some? && !OwnResult(db, u, q.startingAfter.value) then Err(BadParam("starting_after", false))
    else
      ListOrderIsTotal(db, q.sort);
      var rows := Take(Sort(Selected(db, u, q), ListOrder(db, q.sort)), q.limit + 1);
      Ok(Page(Take(rows, q.limit), |rows| > q.limit, |Matching(db, u, q)|))
  }

  // The cursor may be any result of the user, shown or not.
  predicate OwnResult(db: DB, u: Id, r: Id) {
    r in db.results && db.results[r].userId == u
  }

  ghost function List(lower: CaseMap, db: DB, u: Id, p: ListParams): Outcome<Page, Error> {
    match Normalized(lower, p)
    case Ok(q) => Query(db, u, q)
    case Err(e) => Err(e)
  }

  lemma SelectedIsAfter(db: DB, u: Id, q: ListParams)
    requires q.startingAfter.Some?
    ensures Selected(db, u, q) == After(Matching(db, u, q), ListOrder(db, q.sort), q.startingAfter.value)
  {
    forall r
      ensures Follows(db, q.sort, q.startingAfter.value, r) <==> ListOrder(db, q.sort)(q.startingAfter.value, r)
    {
      FollowsIsAfter(db, q.sort, q.startingAfter.value, r);
    }
  }

  lemma MatchingIgnoresCursor(db: DB, u: Id, q: ListParams, c: Option<Id>)
    ensures Matching(db, u, q.(startingAfter := c)) == Matching(db, u, q)
    ensures Listing(db, u, q.(startingAfter := c)) == Listing(db, u, q)
  {
    forall r | r in db.results
      ensures Passes(db, db.results[r], q.(startingAfter := c)) == Passes(db, db.results[r], q)
    {
    }
    assert Matching(db, u, q.(startingAfter := c)) == Matching(db, u, q);
  }

  // The cursor after k rows of the listing.
  ghost function CursorAt(list: seq<Id>, k: nat): Option<Id>
    requires k <= |list|
  {
    if k == 0 then None else Some(list[k - 1])
  }

  lemma ListingIsTheMatching(db: DB, u: Id, q: ListParams)
    ensures Lists(Listing(db, u, q), Matching(db, u, q)) && InOrder(Listing(db, u, q), ListOrder(db, q.sort))
  {
    ListOrderIsTotal(db, q.sort);
    SortIsSorted(Matching(db, u, q), ListOrder(db, q.sort));
  }

  lemma SelectedAt(db: DB, u: Id, q: ListParams, k: nat)
    requires k <= |Listing(db, u, q)| && q.startingAfter == CursorAt(Listing(db, u, q), k)
    ensures StrictTotal(ListOrder(db, q.sort))
    ensures Sort(Selected(db, u, q), ListOrder(db, q.sort)) == Listing(db, u, q)[k..]
  {
    ListOrderIsTotal(db, q.sort);
    if k == 0 {
      assert Selected(db, u, q) == Matching(db, u, q);
    } else {
      SelectedIsAfter(db, u, q);
      AfterIsRest(Matching(db, u, q), ListOrder(db, q.sort), k - 1);
    }
  }

  lemma TakeTwice(rows: seq<Id>, n: nat)
    ensures Take(Take(rows, n + 1), n) == rows[..Min(n, |rows|)]
    ensures |Take(rows, n + 1)| > n <==> |rows| > n
  {
  }

  lemma CursorIsOwn(db: DB, u: Id, q: ListParams, k: nat)
    requires 0 < k <= |Listing(db, u, q)|
    ensures OwnResult(db, u, Listing(db, u, q)[k - 1])
  {
    ListingIsTheMatching(db, u, q);
    assert Listing(db, u, q)[k - 1] in Matching(db, u, q);
  }

  // The page after k rows is the next Limit rows of the listing, and there is
  // more exactly when rows remain after it.
  lemma PageIsSlice(db: DB, u: Id, q: ListParams, k: nat)
    requires q.limit >= 1 && k <= |Listing(db, u, q)| && q.startingAfter == CursorAt(Listing(db, u, q), k)
    requires q.search.Some? ==> Schedule.Has(db, u, q.search.value)
    ensures var list := Listing(db, u, q);
            Query(db, u, q) == Ok(Page(list[k..][..Min(q.limit, |list| - k)], k + q.limit < |list|, |list|))
  {
    var list := Listing(db, u, q);
    assert |list| == |Matching(db, u, q)| by {
      ListingIsTheMatching(db, u, q);
    }
    if k > 0 {
      CursorIsOwn(db, u, q, k);
    }
    SelectedAt(db, u, q, k);
    TakeTwice(list[k..], q.limit);
  }

  // ----- following starting_after from page to page

  type Fetcher = Option<Id> -> Outcome<Page, Error>

  // The query with each cursor.
  ghost function Fetch(lower: CaseMap, db: DB, u: Id, p: ListParams): Fetcher {
    (cursor: Option<Id>) => List(lower, db, u, p.(startingAfter := cursor))
  }

  ghost predicate IsWalk(fetch: Fetcher, cursor: Option<Id>, pages: seq<Page>)
    decreases |pages|
  {
    && pages != [] && fetch(cursor) == Ok(pages[0])
    && if pages[0].hasMore && pages[0].results != []
       then IsWalk(fetch, Some(pages[0].results[|pages[0].results| - 1]), pages[1..])
       else |pages| == 1
  }

  function Flat(pages: seq<Page>): seq<Id> {
    if pages == [] then [] else pages[0].results + Flat(pages[1..])
  }

  // Each page reports the total and, but for the last, more to come and is full.
  ghost predicate Paged(pages: seq<Page>, total: nat, limit: int) {
    forall i :: 0 <= i < |pages| ==>
      && pages[i].total == total && (pages[i].hasMore <==> i < |pages| - 1)
      && (pages[i].hasMore ==> |pages[i].results| == limit)
  }

  function PageAt(list: seq<Id>, k: nat, limit: nat): Page
    requires k <= |list|
  {
    Page(list[k..][..Min(limit, |list| - k)], k + limit < |list|, |list|)
  }

  // Every page fetched along the list is a slice of it.
  ghost predicate Slices(fetch: Fetcher, list: seq<Id>, limit: nat) {
    limit >= 1 && forall k :: 0 <= k <= |list| ==> fetch(CursorAt(list, k)) == Ok(PageAt(list, k, limit))
  }

  lemma CursorMovesOn(list: seq<Id>, k: nat, n: nat)
    requires 1 <= n && k + n <= |list|
    ensures list[k..][..n][n - 1] == list[k + n - 1]
    ensures list[k..][..n] + list[k + n..] == list[k..]
  {
  }

  lemma PagedFrom(pages: seq<Page>, total: nat, limit: int)
    requires |pages| >= 2 && Paged(pages[1..], total, limit)
    requires pages[0].hasMore && pages[0].total == total && |pages[0].results| == limit
    ensures Paged(pages, total, limit)
  {
    forall i | 1 <= i < |pages|
      ensures pages[i] == pages[1..][i - 1]
    {
    }
  }

  lemma {:induction false} WalkFrom(fetch: Fetcher, list: seq<Id>, limit: nat, k: nat, pages: seq<Page>)
    requires Slices(fetch, list, limit) && k <= |list| && IsWalk(fetch, CursorAt(list, k), pages)
    ensures Flat(pages) == list[k..] && Paged(pages, |list|, limit)
    decreases |pages|
  {
    assert pages[0] == PageAt(list, k, limit);
    if pages[0].hasMore {
      CursorMovesOn(list, k, limit);
      WalkFrom(fetch, list, limit, k + limit, pages[1..]);
      PagedFrom(pages, |list|, limit);
    } else {
      assert list[k..][..|list| - k] == list[k..];
      assert Flat(pages[1..]) == [] && list[k..] + [] == list[k..];
    }
  }

  lemma FetchSlices(lower: CaseMap, db: DB, u: Id, p: ListParams, q: ListParams)
    requires Normalized(lower, p) == Ok(q) && (q.search.Some? ==> Schedule.Has(db, u, q.search.value))
    ensures Slices(Fetch(lower, db, u, p), Listing(db, u, q), q.limit)
  {
    var list := Listing(db, u, q);
    forall k | 0 <= k <= |list|
      ensures Fetch(lower, db, u, p)(CursorAt(list, k)) == Ok(PageAt(list, k, q.limit))
    {
      FetchSlice(lower, db, u, p, q, k);
    }
  }

  lemma FetchSlice(lower: CaseMap, db: DB, u: Id, p: ListParams, q: ListParams, k: nat)
    requires Normalized(lower, p) == Ok(q) && (q.search.Some? ==> Schedule.Has(db, u, q.search.value))
    requires k <= |Listing(db, u, q)|
    ensures var cursor := CursorAt(Listing(db, u, q), k);
            List(lower, db, u, p.(startingAfter := cursor)) == Ok(PageAt(Listing(db, u, q), k, q.limit))
  {
    var cursor := CursorAt(Listing(db, u, q), k);
    MatchingIgnoresCursor(db, u, q, cursor);
    assert Normalized(lower, p.(startingAfter := cursor)) == Ok(q.(startingAfter := cursor));
    PageIsSlice(db, u, q.(startingAfter := cursor), k);
  }

  // Following starting_after from the first page, with any limit, lists
  // exactly the matching results in order, each once: no page is short but
  // the last, there is more exactly before the last, and the sizes of the
  // pages add up to the total each of them reports.
  lemma PagesConcatenate(lower: CaseMap, db: DB, u: Id, p: ListParams, q: ListParams, pages: seq<Page>)
    requires Normalized(lower, p) == Ok(q) && IsWalk(Fetch(lower, db, u, p), None, pages)
    ensures Lists(Flat(pages), Matching(db, u, q)) && InOrder(Flat(pages), ListOrder(db, q.sort))
    ensures Paged(pages, |Flat(pages)|, q.limit)
  {
    assert List(lower, db, u, p.(startingAfter := None)).Ok?;
    FetchSlices(lower, db, u, p, q);
    WalkFrom(Fetch(lower, db, u, p), Listing(db, u, q), q.limit, 0, pages);
    ListingIsTheMatching(db, u, q);
  }

  lemma {:induction false} WalkGoesOn(fetch: Fetcher, list: seq<Id>, limit: nat, k: nat) returns (pages: seq<Page>)
    requires Slices(fetch, list, limit) && k <= |list|
    ensures IsWalk(fetch, CursorAt(list, k), pages)
    decreases |list| - k
  {
    var page := PageAt(list, k, limit);
    pages := [page];
    if page.hasMore {
      CursorMovesOn(list, k, limit);
      var rest := WalkGoesOn(fetch, list, limit, k + limit);
      pages := [page] + rest;
      assert pages[1..] == rest;
    }
  }

  // The walk comes to an end: where there is a first page there is one.
  lemma PagesEnd(lower: CaseMap, db: DB, u: Id, p: ListParams)
    requires Fetch(lower, db, u, p)(None).Ok?
    ensures exists pages :: IsWalk(Fetch(lower, db, u, p), None, pages)
  {
    var q := Normalized(lower, p).value;
    FetchSlices(lower, db, u, p, q);
    var pages := WalkGoesOn(Fetch(lower, db, u, p), Listing(db, u, q), q.limit, 0);
  }

  // From any result of the user, even one the filters leave out, the list goes
  // on with the matching results that come strictly after it.
  lemma ListGoesOnAfterCursor(lower: CaseMap, db: DB, u: Id, p: ListParams, q: ListParams, c: Id)
    requires Normalized(lower, p) == Ok(q) && p.startingAfter == Some(c) && OwnResult(db, u, c)
    requires List(lower, db, u, p).Ok?
    ensures StrictTotal(ListOrder(db, q.sort))
    ensures var rest := Sort(After(Matching(db, u, q), ListOrder(db, q.sort), c), ListOrder(db, q.sort));
            List(lower, db, u, p).value == Page(rest[..Min(q.limit, |rest|)], |rest| > q.limit, |Matching(db, u, q)|)
  {
    ListOrderIsTotal(db, q.sort);
    SelectedIsAfter(db, u, q);
    TakeTwice(Sort(Selected(db, u, q), ListOrder(db, q.sort)), q.limit);
  }
}
