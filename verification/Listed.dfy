// What the pages of a list show, said on the columns of the rows and on the
// parameters as they were given.
module Listed {
  import opened Common
  import opened Strings
  import opened Ordering
  import opened Tables
  import opened Results
  import opened Paging

  // ----- the rows asked for

  // One of the names given, up to white space and case.
  ghost predicate Given(lower: CaseMap, values: seq<string>, name: string) {
    name != "" && exists i :: 0 <= i < |values| && ToLower(lower, TrimSpace(values[i])) == name
  }

  ghost predicate AnyGiven(lower: CaseMap, values: seq<string>) {
    exists name :: Given(lower, values, name)
  }

  function EvaluationWord(row: SearchResult): string {
    if row.evalStatus == Pending then "pending"
    else if row.evalStatus == Processing then "processing"
    else if row.evalStatus == Done then "done"
    else "failed"
  }

  ghost predicate HasScore(db: DB, row: SearchResult, criterion: string, atLeast: int) {
    && row.overallScore.Some? && row.evaluationId.Some?
    && exists k :: k in db.scores && db.scores[k].evaluationId == row.evaluationId.value
                   && db.scores[k].content.criterion == criterion && atLeast <= db.scores[k].content.score
  }

  // The row meets the filters, said on its columns.
  ghost predicate Meets(lower: CaseMap, db: DB, p: ListParams, row: SearchResult) {
    && (p.search.Some? ==> p.search.value == row.searchId)
    && (p.minScore.Some? ==> row.overallScore.Some? && p.minScore.value <= row.overallScore.value)
    && (AnyGiven(lower, p.statuses) ==> Given(lower, p.statuses, row.status))
    && (AnyGiven(lower, p.evalStatuses) ==> Given(lower, p.evalStatuses, EvaluationWord(row)))
    && (p.since.Some? ==> p.since.value <= row.createdAt)
    && (TrimSpace(p.criterion) != "" && p.minCriterionScore.Some? ==>
          HasScore(db, row, ToLower(lower, TrimSpace(p.criterion)), p.minCriterionScore.value))
  }

  // The user's result, whose search and job still exist, meets every filter given.
  ghost predicate Asked(lower: CaseMap, db: DB, u: Id, p: ListParams, r: Id) {
    && r in db.results
    && var row := db.results[r];
       && row.userId == u
       && row.searchId in db.searches && !db.searches[row.searchId].deleted
       && row.jobId in db.jobs && !db.jobs[row.jobId].deleted
       && Meets(lower, db, p, row)
  }

  // ----- the order

  // a comes before b: by age, or by score with those without one last, and
  // then the greater id first.
  predicate Precedes(db: DB, newest: bool, a: Id, b: Id)
    requires a in db.results && b in db.results
  {
    var x, y := db.results[a], db.results[b];
    if newest then y.createdAt < x.createdAt || (x.createdAt == y.createdAt && b < a)
    else match x.overallScore
         case Some(score) =>
           (match y.overallScore
            case Some(other) => other < score || (other == score && b < a)
            case None => true)
         case None => y.overallScore.None? && b < a
  }

  ghost predicate InTheOrder(db: DB, newest: bool, rows: seq<Id>) {
    && (forall r :: r in rows ==> r in db.results)
    && forall i, j :: 0 <= i < j < |rows| ==> Precedes(db, newest, rows[i], rows[j])
  }

  lemma BeforeIsPrecedes(db: DB, sort: string, a: Id, b: Id)
    requires a in db.results && b in db.results
    ensures Before(db, sort, a, b) <==> Precedes(db, sort == "newest", a, b)
  {
  }

  lemma InOrderIsInTheOrder(db: DB, sort: string, rows: seq<Id>)
    requires InOrder(rows, ListOrder(db, sort)) && forall r :: r in rows ==> r in db.results
    ensures InTheOrder(db, sort == "newest", rows)
  {
    forall i, j | 0 <= i < j < |rows|
      ensures Precedes(db, sort == "newest", rows[i], rows[j])
    {
      assert ListOrder(db, sort)(rows[i], rows[j]);
      BeforeIsPrecedes(db, sort, rows[i], rows[j]);
    }
  }

  // ----- the parameters

  lemma GivenIsWanted(lower: CaseMap, values: seq<string>, name: string)
    ensures Given(lower, values, name) <==> Wanted(lower, values, {}, name)
  {
    if Given(lower, values, name) {
      var i :| 0 <= i < |values| && ToLower(lower, TrimSpace(values[i])) == name;
      assert NameOf(lower, values[i]) == name;
    }
    if Wanted(lower, values, {}, name) {
      var i :| 0 <= i < |values| && NameOf(lower, values[i]) == name;
      assert ToLower(lower, TrimSpace(values[i])) == name;
    }
  }

  lemma ChosenAreGiven(lower: CaseMap, values: seq<string>, allowed: seq<string>, names: seq<string>)
    requires Chosen(lower, values, allowed, {}) == Some(names)
    ensures forall name :: name in names <==> Given(lower, values, name)
    ensures names == [] <==> !AnyGiven(lower, values)
  {
    ChosenAreTheWanted(lower, values, allowed, {});
    forall name
      ensures name in names <==> Given(lower, values, name)
    {
      GivenIsWanted(lower, values, name);
    }
    if names != [] {
      assert names[0] in names && Given(lower, values, names[0]);
    }
    if AnyGiven(lower, values) {
      var name :| Given(lower, values, name);
      assert name in names;
    }
  }

  lemma TrimmedOrNot(lower: CaseMap, s: string)
    ensures ToLower(lower, s) == "" <==> s == ""
  {
    assert |ToLower(lower, s)| == |s|;
  }

  lemma FiltersAsGiven(lower: CaseMap, p: ListParams, q: ListParams)
    requires Normalized(lower, p) == Ok(q)
    ensures q.search == p.search && q.minScore == p.minScore && q.since == p.since
    ensures (forall n :: n in q.statuses <==> Given(lower, p.statuses, n)) && (q.statuses == [] <==> !AnyGiven(lower, p.statuses))
    ensures forall n :: n in q.evalStatuses <==> Given(lower, p.evalStatuses, n)
    ensures q.evalStatuses == [] <==> !AnyGiven(lower, p.evalStatuses)
    ensures q.criterion == ToLower(lower, TrimSpace(p.criterion)) && q.minCriterionScore == p.minCriterionScore
    ensures q.criterion != "" <==> TrimSpace(p.criterion) != "" && p.minCriterionScore.Some?
  {
    ChosenAreGiven(lower, p.statuses, RESULT_STATUSES, q.statuses);
    ChosenAreGiven(lower, p.evalStatuses, EVALUATION_STATUSES, q.evalStatuses);
    TrimmedOrNot(lower, TrimSpace(p.criterion));
  }

  lemma HasScoreIsScored(db: DB, row: SearchResult, criterion: string, atLeast: int)
    ensures HasScore(db, row, criterion, atLeast) <==> ScoredAtLeast(db, row, criterion, atLeast)
  {
  }

  lemma PassesIsMeets(lower: CaseMap, db: DB, p: ListParams, q: ListParams, row: SearchResult)
    requires Normalized(lower, p) == Ok(q)
    ensures Passes(db, row, q) <==> Meets(lower, db, p, row)
  {
    FiltersAsGiven(lower, p, q);
    assert EvaluationWord(row) == EvaluationStatusName(row.evalStatus);
    if p.minCriterionScore.Some? {
      HasScoreIsScored(db, row, q.criterion, p.minCriterionScore.value);
    }
  }

  lemma PassesIsAsked(lower: CaseMap, db: DB, u: Id, p: ListParams, q: ListParams, r: Id)
    requires Normalized(lower, p) == Ok(q)
    ensures r in Matching(db, u, q) <==> Asked(lower, db, u, p, r)
  {
    if r in db.results {
      PassesIsMeets(lower, db, p, q, db.results[r]);
    }
  }

  // ----- the pages

  lemma MatchingAreAsked(lower: CaseMap, db: DB, u: Id, p: ListParams, q: ListParams, rows: seq<Id>)
    requires Normalized(lower, p) == Ok(q) && forall r :: r in rows <==> r in Matching(db, u, q)
    ensures forall r :: r in rows <==> Asked(lower, db, u, p, r)
    ensures forall r :: r in rows ==> r in db.results
  {
    forall r
      ensures r in rows <==> Asked(lower, db, u, p, r)
    {
      PassesIsAsked(lower, db, u, p, q, r);
    }
  }

  lemma OrderAsGiven(lower: CaseMap, p: ListParams, q: ListParams)
    requires Normalized(lower, p) == Ok(q)
    ensures (q.sort == "newest") == (p.sort == "newest")
  {
  }

  lemma WalkIsOfGoodParams(lower: CaseMap, db: DB, u: Id, p: ListParams, pages: seq<Page>)
    requires IsWalk(Fetch(lower, db, u, p), None, pages)
    ensures Normalized(lower, p).Ok?
  {
    assert List(lower, db, u, p.(startingAfter := None)).Ok?;
  }

  lemma ListedAreAsked(lower: CaseMap, db: DB, u: Id, p: ListParams, q: ListParams, rows: seq<Id>)
    requires Normalized(lower, p) == Ok(q) && Lists(rows, Matching(db, u, q)) && InOrder(rows, ListOrder(db, q.sort))
    ensures forall r :: r in rows <==> Asked(lower, db, u, p, r)
    ensures InTheOrder(db, p.sort == "newest", rows)
  {
    MatchingAreAsked(lower, db, u, p, q, rows);
    InOrderIsInTheOrder(db, q.sort, rows);
    OrderAsGiven(lower, p, q);
  }

  // Following starting_after from the first page lists exactly the rows asked
  // for, each once, in the order of the parameters.
  lemma PagesListTheAsked(lower: CaseMap, db: DB, u: Id, p: ListParams, pages: seq<Page>)
    requires IsWalk(Fetch(lower, db, u, p), None, pages)
    ensures forall r :: r in Flat(pages) <==> Asked(lower, db, u, p, r)
    ensures InTheOrder(db, p.sort == "newest", Flat(pages))
  {
    WalkIsOfGoodParams(lower, db, u, p, pages);
    var q := Normalized(lower, p).value;
    PagesConcatenate(lower, db, u, p, q, pages);
    ListedAreAsked(lower, db, u, p, q, Flat(pages));
  }

  // Each page gives the number of all of them, and every page but the last has
  // as many as the limit asks for, 20 where there is none.
  lemma PagesAreFull(lower: CaseMap, db: DB, u: Id, p: ListParams, pages: seq<Page>)
    requires IsWalk(Fetch(lower, db, u, p), None, pages)
    ensures forall i :: 0 <= i < |pages| ==> pages[i].total == |Flat(pages)|
    ensures forall i :: 0 <= i < |pages| - 1 ==> |pages[i].results| == if p.limit == 0 then 20 else p.limit
  {
    WalkIsOfGoodParams(lower, db, u, p, pages);
    var q := Normalized(lower, p).value;
    LimitAsGiven(lower, p, q);
    PagesConcatenate(lower, db, u, p, q, pages);
    PagedAreFull(pages, |Flat(pages)|, q.limit);
  }

  lemma LimitAsGiven(lower: CaseMap, p: ListParams, q: ListParams)
    requires Normalized(lower, p) == Ok(q)
    ensures q.limit == if p.limit == 0 then 20 else p.limit
  {
  }

  lemma PagedAreFull(pages: seq<Page>, total: nat, limit: int)
    requires Paged(pages, total, limit)
    ensures forall i :: 0 <= i < |pages| ==> pages[i].total == total
    ensures forall i :: 0 <= i < |pages| - 1 ==> |pages[i].results| == limit
  {
  }

  // These are all the rows asked for that come after c, in order.
  ghost predicate AskedAfter(lower: CaseMap, db: DB, u: Id, p: ListParams, c: Id, rest: seq<Id>)
    requires c in db.results
  {
    && (forall r :: r in rest <==> Asked(lower, db, u, p, r) && Precedes(db, p.sort == "newest", c, r))
    && InTheOrder(db, p.sort == "newest", rest)
  }

  lemma RestIsAsked(lower: CaseMap, db: DB, u: Id, p: ListParams, q: ListParams, c: Id, rest: seq<Id>)
    requires Normalized(lower, p) == Ok(q) && c in db.results && StrictTotal(ListOrder(db, q.sort))
    requires rest == Sort(After(Matching(db, u, q), ListOrder(db, q.sort), c), ListOrder(db, q.sort))
    ensures AskedAfter(lower, db, u, p, c, rest)
  {
    SortIsSorted(After(Matching(db, u, q), ListOrder(db, q.sort), c), ListOrder(db, q.sort));
    forall r
      ensures r in rest <==> Asked(lower, db, u, p, r) && Precedes(db, p.sort == "newest", c, r)
    {
      PassesIsAsked(lower, db, u, p, q, r);
      if r in db.results {
        BeforeIsPrecedes(db, q.sort, c, r);
      }
    }
    InOrderIsInTheOrder(db, q.sort, rest);
  }

  // The page is the first of these rows, as many as the limit asks for.
  predicate IsFirstOf(page: Page, rest: seq<Id>, limit: int) {
    && page.results <= rest && (page.hasMore <==> page.results != rest)
    && (page.hasMore ==> |page.results| == if limit == 0 then 20 else limit)
  }

  lemma TakenIsFirst(page: Page, rest: seq<Id>, n: nat, limit: int)
    requires page.results == rest[..Min(n, |rest|)] && (page.hasMore <==> |rest| > n)
    requires n == if limit == 0 then 20 else limit
    ensures IsFirstOf(page, rest, limit)
  {
  }

  // From any result of the user, even one the filters leave out: the page is
  // the first rows asked for that come after it.
  lemma PageShowsTheNext(lower: CaseMap, db: DB, u: Id, p: ListParams, c: Id)
    requires p.startingAfter == Some(c) && List(lower, db, u, p).Ok?
    ensures c in db.results && db.results[c].userId == u
    ensures exists rest :: AskedAfter(lower, db, u, p, c, rest) && IsFirstOf(List(lower, db, u, p).value, rest, p.limit)
  {
    var q := Normalized(lower, p).value;
    ListGoesOnAfterCursor(lower, db, u, p, q, c);
    var rest := Sort(After(Matching(db, u, q), ListOrder(db, q.sort), c), ListOrder(db, q.sort));
    RestIsAsked(lower, db, u, p, q, c, rest);
    LimitAsGiven(lower, p, q);
    TakenIsFirst(List(lower, db, u, p).value, rest, q.limit, p.limit);
  }

  // ----- refusals

  // A name that is none of these.
  ghost predicate Strange(lower: CaseMap, values: seq<string>, allowed: seq<string>) {
    exists name :: Given(lower, values, name) && name !in allowed
  }

  predicate OffScale(score: Option<int>) {
    score.Some? && !(0 <= score.value <= 100)
  }

  ghost predicate BadParams(lower: CaseMap, p: ListParams) {
    var criterion := ToLower(lower, TrimSpace(p.criterion));
    || OffScale(p.minScore) || OffScale(p.minCriterionScore)
    || Strange(lower, p.statuses, ["new", "saved", "applied", "dismissed"])
    || Strange(lower, p.evalStatuses, ["pending", "processing", "done", "failed"])
    || (p.minCriterionScore.Some? <==> criterion == "")
    || (criterion != "" && criterion !in ["skills", "experience", "seniority", "domain", "education"])
    || p.sort !in ["", "score", "newest"]
    || !(0 <= p.limit <= 100)
  }

  lemma StrangeExactlyWhen(lower: CaseMap, values: seq<string>, allowed: seq<string>)
    ensures Chosen(lower, values, allowed, {}).None? <==> Strange(lower, values, allowed)
  {
    ChosenAreTheWanted(lower, values, allowed, {});
    forall name
      ensures Given(lower, values, name) <==> Wanted(lower, values, {}, name)
    {
      GivenIsWanted(lower, values, name);
    }
    if Strange(lower, values, allowed) {
      var name :| Given(lower, values, name) && name !in allowed;
      assert Wanted(lower, values, {}, name);
    }
    if Chosen(lower, values, allowed, {}).None? {
      var name :| Wanted(lower, values, {}, name) && name !in allowed;
      assert Given(lower, values, name);
    }
  }

  // The parameters are checked in this order, and the first bad one is named.
  lemma FirstBadIsNamed(lower: CaseMap, p: ListParams)
    requires Normalized(lower, p).Err?
    ensures var criterion := ToLower(lower, TrimSpace(p.criterion));
            Normalized(lower, p).error ==
              if OffScale(p.minScore) then BadParam("min_score", false)
              else if Strange(lower, p.statuses, ["new", "saved", "applied", "dismissed"]) then BadParam("status", false)
              else if Strange(lower, p.evalStatuses, ["pending", "processing", "done", "failed"]) then
                BadParam("evaluation_status", false)
              else if criterion == "" && p.minCriterionScore.Some? then BadParam("criterion", true)
              else if criterion != "" && p.minCriterionScore.None? then BadParam("min_criterion_score", true)
              else if criterion != "" && criterion !in ["skills", "experience", "seniority", "domain", "education"] then
                BadParam("criterion", false)
              else if OffScale(p.minCriterionScore) then BadParam("min_criterion_score", false)
              else if p.sort !in ["", "score", "newest"] then BadParam("sort", false)
              else BadParam("limit", false)
  {
    StrangeExactlyWhen(lower, p.statuses, RESULT_STATUSES);
    StrangeExactlyWhen(lower, p.evalStatuses, EVALUATION_STATUSES);
  }

  // The list is refused exactly when a parameter is bad, the search is not one
  // the user has, or the cursor is not a result of theirs.
  lemma ListFailsExactlyWhen(lower: CaseMap, db: DB, u: Id, p: ListParams)
    ensures List(lower, db, u, p).Err? <==>
              || BadParams(lower, p)
              || (p.search.Some? && !(p.search.value in db.searches && db.searches[p.search.value].userId == u
                                      && !db.searches[p.search.value].deleted))
              || (p.startingAfter.Some? && !(p.startingAfter.value in db.results
                                             && db.results[p.startingAfter.value].userId == u))
  {
    NormalFailsExactlyWhen(lower, p);
  }

  lemma CriterionFailsExactlyWhen(criterion: string, min: Option<int>)
    ensures CriterionError(criterion, min).Some? <==>
              || OffScale(min) || (min.Some? <==> criterion == "")
              || (criterion != "" && criterion !in ["skills", "experience", "seniority", "domain", "education"])
  {
  }

  lemma NormalFailsExactlyWhen(lower: CaseMap, p: ListParams)
    ensures Normalized(lower, p).Err? <==> BadParams(lower, p)
    ensures Normalized(lower, p).Ok? ==>
              Normalized(lower, p).value.search == p.search && Normalized(lower, p).value.startingAfter == p.startingAfter
  {
    StrangeExactlyWhen(lower, p.statuses, RESULT_STATUSES);
    StrangeExactlyWhen(lower, p.evalStatuses, EVALUATION_STATUSES);
    CriterionFailsExactlyWhen(NameOf(lower, p.criterion), p.minCriterionScore);
  }
}
