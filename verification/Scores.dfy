// What stored evaluations and their copies mean, in every reachable state.
module Scores {
  import opened Common
  import opened Strings
  import opened Matcher
  import opened Answers
  import opened Tables
  import opened Store
  import opened Worker
  import opened Account
  import opened Machine
  import opened Integrity
  import opened Reachable

  // ----- the copied score

  // However workers overlap, a result that points at an evaluation points at
  // one of its own, and copies that evaluation's score exactly while it is
  // completed.
  lemma CopiedScoreAgrees(c: Config, s: Sys, events: seq<Event>, r: Id)
    requires Initial(s) && IsRun(c, s, events) && r in End(c, s, events).db.results
    ensures var db := End(c, s, events).db;
            var row := db.results[r];
            match row.evaluationId
            case None => row.overallScore == None
            case Some(e) =>
              && e in db.evaluations && db.evaluations[e].resultId == r
              && (db.evaluations[e].completed ==> row.overallScore == Some(db.evaluations[e].overallScore))
              && (!db.evaluations[e].completed ==> row.overallScore == None)
  {
    ReachableIsGood(c, s, events);
    assert ScoreAgrees(End(c, s, events).db, End(c, s, events).db.results[r], r);
  }

  // ----- done results

  // An evaluator that returns no error returns a response.
  predicate Responds(out: EvaluateOutcome) {
    out.Evaluated? && out.m.err.None? ==> out.m.resp.Some?
  }

  ghost predicate AllRespond(events: seq<Event>) {
    forall i :: 0 <= i < |events| && events[i].Working? && events[i].work.ResultWritten? ==> Responds(events[i].work.out)
  }

  // The evaluation a result points at is completed.
  predicate HasCompleted(db: DB, r: SearchResult) {
    r.evaluationId.Some? && r.evaluationId.value in db.evaluations && db.evaluations[r.evaluationId.value].completed
  }

  predicate DoneIsCompleted(db: DB, r: SearchResult) {
    r.evalStatus == Done ==> HasCompleted(db, r)
  }

  ghost predicate DoneAreCompleted(db: DB) {
    forall r :: r in db.results ==> DoneIsCompleted(db, db.results[r])
  }

  lemma WrittenDoneIsAnswered(c: Config, db: DB, w: Write)
    requires w.id in db.results && HasIds(w) && Responds(w.out)
    ensures var change := WriteChange(c, db, w);
            change.row.evalStatus == Done ==> change.saved.Some? && change.saved.value.row.completed
  {
  }

  lemma ChangeKeepsDone(db: DB, change: Change)
    requires Coherent(db) && DoneAreCompleted(db) && change.id in db.results && CopiesScore(db, change)
    requires change.saved.Some? ==> Fits(db, change.saved.value)
    requires change.row.evalStatus == Done ==> change.saved.Some? && change.saved.value.row.completed
    ensures DoneAreCompleted(Changed(db, change))
  {
    var next := Changed(db, change);
    forall r | r in next.results
      ensures DoneIsCompleted(next, next.results[r])
    {
      if r != change.id {
        assert DoneIsCompleted(db, db.results[r]) && ScoreAgrees(db, db.results[r], r);
      }
    }
  }

  lemma WriteKeepsDone(c: Config, db: DB, w: Write)
    requires Coherent(db) && DoneAreCompleted(db) && HasIds(w) && w.newId !in db.evaluations && Responds(w.out)
    ensures DoneAreCompleted(WriteResult(c, db, w))
  {
    if w.id in db.results && !Conflicts(w) {
      WriteIsProper(c, db, w);
      WrittenDoneIsAnswered(c, db, w);
      ChangeKeepsDone(db, WriteChange(c, db, w));
    }
  }

  lemma ErasedKeepsDone(db: DB, u: Id)
    requires Tidy(db) && DoneAreCompleted(db)
    ensures DoneAreCompleted(Erased(db, u))
  {
    var next := Erased(db, u);
    forall r | r in next.results
      ensures DoneIsCompleted(next, next.results[r])
    {
      assert DoneIsCompleted(db, db.results[r]) && ScoreAgrees(db, db.results[r], r);
    }
  }

  lemma RowsKeepDone(db: DB, next: DB)
    requires DoneAreCompleted(db) && next.evaluations == db.evaluations
    requires forall r :: r in next.results && next.results[r].evalStatus == Done ==>
               r in db.results && db.results[r].evalStatus == Done && next.results[r].evaluationId == db.results[r].evaluationId
    ensures DoneAreCompleted(next)
  {
    forall r | r in next.results
      ensures DoneIsCompleted(next, next.results[r])
    {
      if next.results[r].evalStatus == Done {
        assert DoneIsCompleted(db, db.results[r]);
      }
    }
  }

  lemma StepKeepsDone(c: Config, s: Sys, e: Event)
    requires Good(s) && DoneAreCompleted(s.db) && Can(c, s, e)
    requires e.Working? && e.work.ResultWritten? ==> Responds(e.work.out)
    ensures DoneAreCompleted(After(c, s, e).db)
  {
    if e.Working? && e.work.ResultWritten? {
      WriteKeepsDone(c, s.db, WriteOf(s, e.work));
    } else if e.Serving? && e.user.AccountDeleted? {
      DeleteErases(s.db, e.user.userId);
      ErasedKeepsDone(s.db, e.user.userId);
    } else {
      OthersLeaveEvaluations(c, s, e);
      RowsKeepDone(s.db, After(c, s, e).db);
    }
  }

  // The steps that neither write an outcome nor delete an account leave
  // evaluations and scores alone, and make no result done.
  ghost predicate LeavesEvaluations(db: DB, next: DB) {
    && next.evaluations == db.evaluations && next.scores == db.scores
    && forall r :: r in next.results && next.results[r].evalStatus == Done ==>
         r in db.results && db.results[r].evalStatus == Done && next.results[r].evaluationId == db.results[r].evaluationId
  }

  lemma WorkLeavesEvaluations(c: Config, s: Sys, e: WorkEvent)
    requires CanWork(c, s, e) && !e.ResultWritten?
    ensures LeavesEvaluations(s.db, AfterWork(c, s, e).db)
  {
  }

  lemma SearchLeavesEvaluations(c: Config, s: Sys, e: SearchEvent)
    requires CanSearch(s, e)
    ensures LeavesEvaluations(s.db, AfterSearch(c, s, e).db)
  {
    if IsService(e) {
      ServiceTouches(c, s, e);
    }
  }

  lemma UserLeavesEvaluations(s: Sys, e: UserEvent)
    requires CanUser(s, e) && !e.AccountDeleted?
    ensures LeavesEvaluations(s.db, AfterUser(s, e).db)
  {
  }

  lemma OthersLeaveEvaluations(c: Config, s: Sys, e: Event)
    requires Can(c, s, e)
    requires !(e.Working? && e.work.ResultWritten?) && !(e.Serving? && e.user.AccountDeleted?)
    ensures LeavesEvaluations(s.db, After(c, s, e).db)
  {
    match e {
      case Working(we) => WorkLeavesEvaluations(c, s, we);
      case Searching(se) => SearchLeavesEvaluations(c, s, se);
      case Serving(ue) => UserLeavesEvaluations(s, ue);
      case Tick(_) =>
    }
  }

  lemma {:induction false} DoneStaysCompleted(c: Config, s: Sys, events: seq<Event>)
    requires Good(s) && DoneAreCompleted(s.db) && IsRun(c, s, events) && AllRespond(events)
    ensures DoneAreCompleted(End(c, s, events).db)
    decreases |events|
  {
    if events != [] {
      StepKeepsGood(c, s, events[0]);
      StepKeepsDone(c, s, events[0]);
      assert forall i :: 0 <= i < |events| - 1 ==> events[1..][i] == events[i + 1];
      DoneStaysCompleted(c, After(c, s, events[0]), events[1..]);
    }
  }

  lemma DoneCopies(db: DB, r: Id)
    requires Coherent(db) && DoneAreCompleted(db) && r in db.results && db.results[r].evalStatus == Done
    ensures var row := db.results[r];
            && row.evaluationId.Some? && row.evaluationId.value in db.evaluations
            && db.evaluations[row.evaluationId.value].completed
            && row.overallScore == Some(db.evaluations[row.evaluationId.value].overallScore)
  {
    assert ScoreAgrees(db, db.results[r], r) && DoneIsCompleted(db, db.results[r]);
  }

  // A done result always points at a completed evaluation, given an evaluator
  // that responds whenever it does not fail.
  lemma DoneMeansCompleted(c: Config, s: Sys, events: seq<Event>, r: Id)
    requires Initial(s) && IsRun(c, s, events) && AllRespond(events)
    requires r in End(c, s, events).db.results && End(c, s, events).db.results[r].evalStatus == Done
    ensures var db := End(c, s, events).db;
            var row := db.results[r];
            && row.evaluationId.Some? && row.evaluationId.value in db.evaluations
            && db.evaluations[row.evaluationId.value].completed
            && row.overallScore == Some(db.evaluations[row.evaluationId.value].overallScore)
  {
    InitialIsGood(s);
    DoneStaysCompleted(c, s, events);
    ReachableIsGood(c, s, events);
    DoneCopies(End(c, s, events).db, r);
  }

  lemma WrittenDoneExactlyWhen(c: Config, db: DB, w: Write)
    requires w.id in db.results && HasIds(w)
    ensures WriteChange(c, db, w).row.evalStatus == Done <==> w.out.Evaluated? && w.out.m.err.None? && !Released(w)
  {
  }

  lemma WrittenCurrent(c: Config, db: DB, w: Write)
    requires w.id in db.results && HasIds(w)
    ensures var change := WriteChange(c, db, w);
            if Saves(w.out)
            then HasCompleted(Changed(db, change), change.row) == HasResponse(w.out)
            else HasCompleted(Changed(db, change), change.row) == HasCompleted(db, db.results[w.id])
  {
  }

  // The condition is exact. A write leaves its result done without a completed
  // evaluation unless the evaluator responds, the write only releases the
  // result, or there is a completed evaluation from before.
  lemma WriteKeepsDoneExactlyWhen(c: Config, db: DB, w: Write)
    requires w.id in db.results && HasIds(w)
    ensures DoneIsCompleted(Changed(db, WriteChange(c, db, w)), WriteChange(c, db, w).row)
            <==> Responds(w.out) || Released(w) || HasCompleted(db, db.results[w.id])
  {
    WrittenDoneExactlyWhen(c, db, w);
    WrittenCurrent(c, db, w);
  }

  // A shutdown gives the attempt back, but the score the result had is kept
  // exactly when the matcher had not failed by then: a match cut short counts
  // as failed, and its failed evaluation becomes the current one.
  lemma ReleaseKeepsScoreExactlyWhen(c: Config, db: DB, w: Write)
    requires w.id in db.results && db.results[w.id].overallScore.Some? && HasIds(w)
    requires Released(w) && !HasResponse(w.out)
    ensures !Conflicts(w)
    ensures var row := WriteChange(c, db, w).row;
            && row.evalStatus == Pending && row.attempts == w.attempts - 1
            && (row.overallScore == db.results[w.id].overallScore <==> !(w.out.Evaluated? && w.out.m.err.Some?))
  {
  }

  // ----- scores and requirements of stored evaluations

  // An outcome that came from the matcher, whatever the LLM answered.
  predicate FromMatcher(lower: CaseMap, out: EvaluateOutcome) {
    out.Evaluated? ==>
      || (out.m.resp.None? && out.m.err.Some? && !out.m.raw.Parsed?)
      || (out.m.raw.Parsed? && out.m == Matched(lower, MatchStep.Answered(out.m.raw)))
  }

  lemma MatcherOutcomes(lower: CaseMap, step: MatchStep, cv: Id)
    ensures FromMatcher(lower, Evaluated(cv, Matched(lower, step)))
  {
  }

  // The matcher responds unless it fails, and never scores a criterion twice,
  // so its outcomes never break the unique index of evaluation_scores.
  lemma MatcherRespondsOnce(lower: CaseMap, w: Write)
    requires FromMatcher(lower, w.out)
    ensures Responds(w.out) && !Conflicts(w)
  {
    if HasResponse(w.out) {
      KeptAreNew(lower, w.out.m.raw.response.breakdown, {});
    }
  }

  ghost predicate AllFromMatcher(lower: CaseMap, events: seq<Event>) {
    forall i :: 0 <= i < |events| && events[i].Working? && events[i].work.ResultWritten? ==>
      FromMatcher(lower, events[i].work.out)
  }

  // The score rows of an evaluation are exactly this breakdown.
  ghost predicate RowsAre(scores: map<Id, Score>, e: Id, breakdown: seq<CriterionScore>) {
    && |ScoresOf(scores, e)| == |breakdown|
    && (forall k :: k in ScoresOf(scores, e) ==> scores[k].content in breakdown)
    && (forall b :: b in breakdown ==> exists k :: k in ScoresOf(scores, e) && scores[k].content == b)
  }

  // A completed evaluation is its raw answer decoded, score rows included; a
  // failed one has nothing but its error.
  ghost predicate Faithful(lower: CaseMap, db: DB, e: Id)
    requires e in db.evaluations
  {
    var row := db.evaluations[e];
    if row.completed then
      && row.raw.Parsed? && row.error == ""
      && Shows(row, Decoded(lower, row.raw.response))
      && RowsAre(db.scores, e, Decoded(lower, row.raw.response).breakdown)
    else ShowsNothing(row) && RowsAre(db.scores, e, [])
  }

  ghost predicate AllFaithful(lower: CaseMap, db: DB) {
    forall e :: e in db.evaluations ==> Faithful(lower, db, e)
  }

  lemma NewRowsAre(scores: map<Id, Score>, e: Id, breakdown: seq<CriterionScore>, ids: seq<Id>)
    requires |ids| == |breakdown| && Distinct(ids)
    ensures RowsAre((scores - ScoresOf(scores, e)) + ScoreRows(e, breakdown, ids), e, breakdown)
  {
    var next := (scores - ScoresOf(scores, e)) + ScoreRows(e, breakdown, ids);
    assert ScoresOf(next, e) == IdSet(ids);
    DistinctCount(ids);
    forall b | b in breakdown
      ensures exists k :: k in ScoresOf(next, e) && next[k].content == b
    {
      var i :| 0 <= i < |breakdown| && breakdown[i] == b;
      assert ids[i] in ScoresOf(next, e) && next[ids[i]].content == b;
    }
  }

  lemma OtherRowsStay(scores: map<Id, Score>, e: Id, breakdown: seq<CriterionScore>, ids: seq<Id>, other: Id)
    requires |ids| == |breakdown| && Distinct(ids) && other != e
    requires forall i :: 0 <= i < |ids| ==> ids[i] !in scores
    ensures ScoresOf((scores - ScoresOf(scores, e)) + ScoreRows(e, breakdown, ids), other) == ScoresOf(scores, other)
    ensures forall k :: k in ScoresOf(scores, other) ==>
              ((scores - ScoresOf(scores, e)) + ScoreRows(e, breakdown, ids))[k] == scores[k]
  {
  }

  lemma SaveKeepsFaithful(lower: CaseMap, db: DB, w: Write)
    requires AllFaithful(lower, db) && HasIds(w) && Saves(w.out) && FromMatcher(lower, w.out)
    requires w.newId !in db.evaluations && forall i :: 0 <= i < |w.scoreIds| ==> w.scoreIds[i] !in db.scores
    ensures AllFaithful(lower, WithSaved(db, Saving(db, EvaluationRow(w), Breakdown(w.out), w.newId, w.scoreIds)))
  {
    var saved := Saving(db, EvaluationRow(w), Breakdown(w.out), w.newId, w.scoreIds);
    var next := WithSaved(db, saved);
    forall e | e in next.evaluations
      ensures Faithful(lower, next, e)
    {
      if e == saved.id {
        NewRowsAre(db.scores, e, Breakdown(w.out), w.scoreIds);
      } else {
        assert Faithful(lower, db, e);
        OtherRowsStay(db.scores, saved.id, Breakdown(w.out), w.scoreIds, e);
        SameRows(db.scores, next.scores, e);
      }
    }
  }

  lemma SameRows(scores: map<Id, Score>, next: map<Id, Score>, e: Id)
    requires ScoresOf(next, e) == ScoresOf(scores, e)
    requires forall k :: k in ScoresOf(scores, e) ==> next[k] == scores[k]
    ensures forall b :: RowsAre(next, e, b) == RowsAre(scores, e, b)
  {
  }

  lemma WriteKeepsFaithful(c: Config, lower: CaseMap, db: DB, w: Write)
    requires AllFaithful(lower, db) && HasIds(w) && FromMatcher(lower, w.out)
    requires w.newId !in db.evaluations && forall i :: 0 <= i < |w.scoreIds| ==> w.scoreIds[i] !in db.scores
    ensures AllFaithful(lower, WriteResult(c, db, w))
  {
    if w.id in db.results && !Conflicts(w) {
      if Saves(w.out) {
        SaveKeepsFaithful(lower, db, w);
      }
      ChangeKeepsFaithful(lower, db, WriteChange(c, db, w));
    }
  }

  lemma ChangeKeepsFaithful(lower: CaseMap, db: DB, change: Change)
    requires if change.saved.Some? then AllFaithful(lower, WithSaved(db, change.saved.value)) else AllFaithful(lower, db)
    ensures AllFaithful(lower, Changed(db, change))
  {
    FaithfulElsewhere(lower, if change.saved.Some? then WithSaved(db, change.saved.value) else db, Changed(db, change));
  }

  lemma FaithfulElsewhere(lower: CaseMap, db: DB, next: DB)
    requires AllFaithful(lower, db) && next.evaluations == db.evaluations && next.scores == db.scores
    ensures AllFaithful(lower, next)
  {
    forall e | e in next.evaluations
      ensures Faithful(lower, next, e)
    {
      assert Faithful(lower, db, e);
    }
  }

  lemma ErasedKeepsFaithful(lower: CaseMap, db: DB, u: Id)
    requires AllFaithful(lower, db)
    ensures AllFaithful(lower, Erased(db, u))
  {
    var next := Erased(db, u);
    forall e | e in next.evaluations
      ensures Faithful(lower, next, e)
    {
      assert Faithful(lower, db, e);
      assert ScoresOf(next.scores, e) == ScoresOf(db.scores, e);
      SameRows(db.scores, next.scores, e);
    }
  }

  lemma StepKeepsFaithful(c: Config, lower: CaseMap, s: Sys, e: Event)
    requires Good(s) && AllFaithful(lower, s.db) && Can(c, s, e)
    requires e.Working? && e.work.ResultWritten? ==> FromMatcher(lower, e.work.out)
    ensures AllFaithful(lower, After(c, s, e).db)
  {
    if e.Working? && e.work.ResultWritten? {
      WriteKeepsFaithful(c, lower, s.db, WriteOf(s, e.work));
    } else if e.Serving? && e.user.AccountDeleted? {
      DeleteErases(s.db, e.user.userId);
      ErasedKeepsFaithful(lower, s.db, e.user.userId);
    } else {
      OthersLeaveEvaluations(c, s, e);
      FaithfulElsewhere(lower, s.db, After(c, s, e).db);
    }
  }

  lemma {:induction false} FaithfulThroughout(c: Config, lower: CaseMap, s: Sys, events: seq<Event>)
    requires Good(s) && AllFaithful(lower, s.db) && IsRun(c, s, events) && AllFromMatcher(lower, events)
    ensures AllFaithful(lower, End(c, s, events).db)
    decreases |events|
  {
    if events != [] {
      StepKeepsGood(c, s, events[0]);
      StepKeepsFaithful(c, lower, s, events[0]);
      assert forall i :: 0 <= i < |events| - 1 ==> events[1..][i] == events[i + 1];
      FaithfulThroughout(c, lower, After(c, s, events[0]), events[1..]);
    }
  }

  lemma InitialIsFaithful(lower: CaseMap, s: Sys)
    requires Initial(s)
    ensures AllFaithful(lower, s.db)
  {
  }

  lemma ReachableIsFaithful(c: Config, lower: CaseMap, s: Sys, events: seq<Event>)
    requires Initial(s) && IsRun(c, s, events) && AllFromMatcher(lower, events)
    ensures AllFaithful(lower, End(c, s, events).db) && UniqueEvaluations(End(c, s, events).db)
  {
    InitialIsGood(s);
    InitialIsFaithful(lower, s);
    FaithfulThroughout(c, lower, s, events);
    ReachableIsIndexed(c, s, events);
  }

  // What a completed evaluation stores, score rows included, is the answer to
  // the raw text beside it, and a failed one stores nothing but its error; and
  // it is the only one of its result and CV.
  ghost predicate FollowsAnswer(lower: CaseMap, db: DB, e: Id)
    requires e in db.evaluations
  {
    var row := db.evaluations[e];
    && (forall o :: IsFor(db, o, row.resultId, row.cvId) ==> o == e)
    && (row.completed ==>
          && row.raw.Parsed? && row.error == ""
          && exists out :: AnswerOf(lower, row.raw.response, out) && Shows(row, out) && RowsAre(db.scores, e, out.breakdown))
    && (!row.completed ==> ShowsNothing(row) && ScoresOf(db.scores, e) == {})
  }

  lemma FaithfulFollowsAnswer(lower: CaseMap, db: DB, e: Id)
    requires UniqueEvaluations(db) && e in db.evaluations && Faithful(lower, db, e)
    ensures FollowsAnswer(lower, db, e)
  {
    if db.evaluations[e].completed {
      DecodedIsAnswer(lower, db.evaluations[e].raw.response);
    }
  }

  // Whatever is re-evaluated, retried or written late by the matcher's workers.
  lemma ScoresFollowTheAnswer(c: Config, lower: CaseMap, s: Sys, events: seq<Event>, e: Id)
    requires Initial(s) && IsRun(c, s, events) && AllFromMatcher(lower, events)
    requires e in End(c, s, events).db.evaluations
    ensures FollowsAnswer(lower, End(c, s, events).db, e)
  {
    ReachableIsFaithful(c, lower, s, events);
    FaithfulFollowsAnswer(lower, End(c, s, events).db, e);
  }

  ghost predicate ListsMissedMust(lower: CaseMap, raw: Raw) {
    var rs := StoredRequirements(lower, raw);
    rs.Some? && AnyMissedMust(rs.value)
  }

  lemma FaithfulIsCapped(lower: CaseMap, db: DB, e: Id)
    requires e in db.evaluations && db.evaluations[e].completed && Faithful(lower, db, e)
    requires ListsMissedMust(lower, db.evaluations[e].raw)
    ensures 0 <= db.evaluations[e].overallScore <= MUST_HAVE_CAP
  {
    MustHaveCaps(lower, db.evaluations[e].raw.response);
  }

  // Over whole runs: a completed evaluation whose stored answer lists a
  // must-have the CV misses scores at most the cap, and so does a result that
  // points at it.
  lemma MissedMustCapsStoredScores(c: Config, lower: CaseMap, s: Sys, events: seq<Event>, r: Id)
    requires Initial(s) && IsRun(c, s, events) && AllFromMatcher(lower, events)
    requires r in End(c, s, events).db.results && End(c, s, events).db.results[r].overallScore.Some?
    ensures var db := End(c, s, events).db;
            && db.results[r].evaluationId.Some? && db.results[r].evaluationId.value in db.evaluations
            && (ListsMissedMust(lower, db.evaluations[db.results[r].evaluationId.value].raw) ==>
                  db.results[r].overallScore.value <= MUST_HAVE_CAP)
  {
    ReachableIsFaithful(c, lower, s, events);
    ReachableIsGood(c, s, events);
    CopyIsCapped(lower, End(c, s, events).db, r);
  }

  lemma CopyIsCapped(lower: CaseMap, db: DB, r: Id)
    requires Coherent(db) && AllFaithful(lower, db) && r in db.results && db.results[r].overallScore.Some?
    ensures db.results[r].evaluationId.Some? && db.results[r].evaluationId.value in db.evaluations
    ensures ListsMissedMust(lower, db.evaluations[db.results[r].evaluationId.value].raw) ==>
              db.results[r].overallScore.value <= MUST_HAVE_CAP
  {
    assert ScoreAgrees(db, db.results[r], r);
    var e := db.results[r].evaluationId.value;
    assert Faithful(lower, db, e);
    if ListsMissedMust(lower, db.evaluations[e].raw) {
      FaithfulIsCapped(lower, db, e);
    }
  }
}
