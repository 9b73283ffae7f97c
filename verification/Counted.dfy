// What each of the dashboard's counts counts, said on the columns of the rows.
module Counted {
  import opened Common
  import opened Ordering
  import opened Tables
  import opened Summary

  // The user's results whose search and job still exist.
  predicate Mine(db: DB, u: Id, r: Id) {
    && r in db.results
    && var row := db.results[r];
       && row.userId == u
       && row.searchId in db.searches && !db.searches[row.searchId].deleted
       && row.jobId in db.jobs && !db.jobs[row.jobId].deleted
  }

  // A score of 80 or more.
  predicate IsGood(row: SearchResult) {
    row.overallScore.Some? && 80 <= row.overallScore.value
  }

  // Found by the search, and the job still exists.
  predicate IsFound(db: DB, x: Id, r: Id) {
    && r in db.results && db.results[r].searchId == x
    && db.results[r].jobId in db.jobs && !db.jobs[db.results[r].jobId].deleted
  }

  lemma MineAreShown(db: DB, u: Id)
    ensures Shown(db, u) == set r | r in db.results && Mine(db, u, r)
  {
  }

  // A week is 604800 seconds.
  lemma CountsCount(db: DB, u: Id, now: Time)
    ensures var c := Summarise(db, u, now);
            var week := now - 604_800_000_000_000;
            && c.weekStart == week
            && c.total == |set r | r in db.results && Mine(db, u, r)|
            && c.scored == |set r | r in db.results && Mine(db, u, r) && db.results[r].overallScore.Some?|
            && c.evaluating == |set r | r in db.results && Mine(db, u, r)
                                       && (db.results[r].evalStatus == Pending || db.results[r].evalStatus == Processing)|
            && c.failedEvaluation == |set r | r in db.results && Mine(db, u, r) && db.results[r].evalStatus == Failed|
            && c.newThisWeek == |set r | r in db.results && Mine(db, u, r) && week <= db.results[r].createdAt|
            && c.newThisWeekSearches
               == |set r | r in db.results && Mine(db, u, r) && week <= db.results[r].createdAt :: db.results[r].searchId|
  {
    var week := now - 604_800_000_000_000;
    MineAreShown(db, u);
    var shown := Shown(db, u);
    assert Scored(db, shown) == set r | r in db.results && Mine(db, u, r) && db.results[r].overallScore.Some?;
    assert Evaluating(db, shown) == set r | r in db.results && Mine(db, u, r)
        && (db.results[r].evalStatus == Pending || db.results[r].evalStatus == Processing);
    assert FailedToEvaluate(db, shown) == set r | r in db.results && Mine(db, u, r) && db.results[r].evalStatus == Failed;
    assert NewOf(db, shown, week) == set r | r in db.results && Mine(db, u, r) && week <= db.results[r].createdAt;
    assert SearchesOf(db, NewOf(db, shown, week))
        == set r | r in db.results && Mine(db, u, r) && week <= db.results[r].createdAt :: db.results[r].searchId;
  }

  // Strong matches are the good ones not dismissed, and of those the new ones.
  lemma StrongCountsCount(db: DB, u: Id, now: Time)
    ensures var c := Summarise(db, u, now);
            && c.strongMatches == |set r | r in db.results && Mine(db, u, r) && IsGood(db.results[r])
                                          && db.results[r].status != "dismissed"|
            && c.strongMatchesNew == |set r | r in db.results && Mine(db, u, r) && IsGood(db.results[r])
                                             && db.results[r].status == "new"|
  {
    MineAreShown(db, u);
    var strong := Strong(db, Shown(db, u));
    assert strong - WithStatus(db, strong, "dismissed")
        == set r | r in db.results && Mine(db, u, r) && IsGood(db.results[r]) && db.results[r].status != "dismissed";
    assert WithStatus(db, strong, "new")
        == set r | r in db.results && Mine(db, u, r) && IsGood(db.results[r]) && db.results[r].status == "new";
  }

  // Each of the four statuses has its count, and nothing else has one.
  lemma StatusCountsCount(db: DB, u: Id, now: Time, status: string)
    ensures var counts := Summarise(db, u, now).byStatus;
            && (status in counts <==> status in ["new", "saved", "applied", "dismissed"])
            && (status in counts ==>
                  counts[status] == |set r | r in db.results && Mine(db, u, r) && db.results[r].status == status|)
  {
    MineAreShown(db, u);
    assert WithStatus(db, Shown(db, u), status) == set r | r in db.results && Mine(db, u, r) && db.results[r].status == status;
  }

  // ----- by search

  predicate IsCountOf(db: DB, since: Time, count: SearchCount) {
    && count.id in db.searches && count.name == db.searches[count.id].name
    && count.total == |set r | r in db.results && IsFound(db, count.id, r)|
    && count.newThisWeek == |set r | r in db.results && IsFound(db, count.id, r) && since <= db.results[r].createdAt|
  }

  lemma CountIsOf(db: DB, x: Id, since: Time)
    requires x in db.searches
    ensures IsCountOf(db, since, CountOf(db, x, since)) && CountOf(db, x, since).id == x
  {
    assert FoundBy(db, x) == set r | r in db.results && IsFound(db, x, r);
    assert NewOf(db, FoundBy(db, x), since) == set r | r in db.results && IsFound(db, x, r) && since <= db.results[r].createdAt;
  }

  lemma {:induction false} CountsAreOf(db: DB, xs: seq<Id>, since: Time)
    requires forall x :: x in xs ==> x in db.searches
    ensures |CountsOf(db, xs, since)| == |xs|
    ensures forall i :: 0 <= i < |xs| ==>
              CountsOf(db, xs, since)[i].id == xs[i] && IsCountOf(db, since, CountsOf(db, xs, since)[i])
  {
    if xs != [] {
      CountIsOf(db, xs[0], since);
      CountsAreOf(db, xs[1..], since);
    }
  }

  predicate IsOlder(db: DB, x: Id, y: Id) {
    && x in db.searches && y in db.searches
    && (db.searches[x].createdAt < db.searches[y].createdAt
        || (db.searches[x].createdAt == db.searches[y].createdAt && x < y))
  }

  lemma RowsInOrder(db: DB, xs: seq<Id>, rows: seq<SearchCount>)
    requires InOrder(xs, OldestFirst(db)) && (forall x :: x in xs ==> x in db.searches)
    requires |rows| == |xs| && forall i :: 0 <= i < |xs| ==> rows[i].id == xs[i]
    ensures forall i, j :: 0 <= i < j < |rows| ==> IsOlder(db, rows[i].id, rows[j].id)
  {
    forall i, j | 0 <= i < j < |rows|
      ensures IsOlder(db, rows[i].id, rows[j].id)
    {
      assert OldestFirst(db)(xs[i], xs[j]);
    }
  }

  ghost predicate HasRow(rows: seq<SearchCount>, x: Id) {
    exists i :: 0 <= i < |rows| && rows[i].id == x
  }

  lemma RowsAreOf(xs: seq<Id>, rows: seq<SearchCount>, x: Id)
    requires |rows| == |xs| && forall i :: 0 <= i < |xs| ==> rows[i].id == xs[i]
    ensures HasRow(rows, x) <==> x in xs
  {
    if x in xs {
      var i :| 0 <= i < |xs| && xs[i] == x;
      assert rows[i].id == x;
    }
  }

  // The user's searches that are not deleted, the oldest first, each once and
  // with its own counts.
  lemma SearchesAreCounted(db: DB, u: Id, now: Time)
    ensures var rows := Summarise(db, u, now).bySearch;
            && (forall i :: 0 <= i < |rows| ==> IsCountOf(db, now - 604_800_000_000_000, rows[i]))
            && (forall x :: HasRow(rows, x) <==> x in db.searches && db.searches[x].userId == u && !db.searches[x].deleted)
            && (forall i, j :: 0 <= i < j < |rows| ==> IsOlder(db, rows[i].id, rows[j].id))
  {
    OldestFirstIsTotal(db);
    var live := LiveSearches(db, u);
    var xs := Sort(live, OldestFirst(db));
    SortIsSorted(live, OldestFirst(db));
    CountsAreOf(db, xs, now - WEEK);
    var rows := CountsOf(db, xs, now - WEEK);
    RowsInOrder(db, xs, rows);
    forall x
      ensures HasRow(rows, x) <==> x in live
    {
      RowsAreOf(xs, rows, x);
    }
  }
}
