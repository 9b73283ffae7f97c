// Where stored evaluations come from: over whole runs each is, column by
// column, what the last worker to report on its result and CV reported.
module Reports {
  import opened Common
  import opened Matcher
  import opened Tables
  import opened Store
  import opened Worker
  import opened Account
  import opened Machine
  import opened Integrity
  import opened Reachable
  import opened Scores

  // The outcomes the workers of a run wrote, in order.
  ghost function Written(c: Config, s: Sys, events: seq<Event>): seq<Write>
    requires IsRun(c, s, events)
    decreases |events|
  {
    if events == [] then []
    else WrittenBy(c, s, events[0]) + Written(c, After(c, s, events[0]), events[1..])
  }

  ghost function WrittenBy(c: Config, s: Sys, e: Event): seq<Write>
    requires Can(c, s, e)
  {
    if e.Working? && e.work.ResultWritten? then [WriteOf(s, e.work)] else []
  }

  // An outcome with an evaluation in it, which the tables can take.
  ghost predicate Reports(w: Write, resultId: Id, cvId: Id) {
    && w.id == resultId && w.out.Evaluated? && w.out.cv == cvId
    && (w.out.m.resp.Some? || w.out.m.err.Some?)
    && (w.out.m.resp.Some? ==> DistinctCriteria(w.out.m.resp.value.breakdown))
  }

  ghost predicate TellsScores(db: DB, e: Id, m: Match) {
    RowsAre(db.scores, e, match m.resp case Some(out) => out.breakdown case None => [])
  }

  // The evaluation tells the last report on its result and CV.
  ghost predicate TellsLast(db: DB, e: Id, writes: seq<Write>, i: nat)
    requires e in db.evaluations
  {
    var row := db.evaluations[e];
    && i < |writes| && Reports(writes[i], row.resultId, row.cvId)
    && TellsMatch(row, writes[i].out.m) && TellsScores(db, e, writes[i].out.m)
    && forall j :: i < j < |writes| ==> !Reports(writes[j], row.resultId, row.cvId)
  }

  ghost predicate AllTell(db: DB, writes: seq<Write>) {
    forall e :: e in db.evaluations ==> exists i :: TellsLast(db, e, writes, i)
  }

  // ----- one step

  lemma TellsElsewhere(db: DB, next: DB, e: Id, writes: seq<Write>, i: nat)
    requires e in db.evaluations && TellsLast(db, e, writes, i)
    requires e in next.evaluations && next.evaluations[e] == db.evaluations[e]
    requires ScoresOf(next.scores, e) == ScoresOf(db.scores, e)
    requires forall k :: k in ScoresOf(db.scores, e) ==> next.scores[k] == db.scores[k]
    ensures TellsLast(next, e, writes, i)
  {
    SameRows(db.scores, next.scores, e);
  }

  lemma OthersKeepTelling(db: DB, next: DB, writes: seq<Write>)
    requires AllTell(db, writes) && next.evaluations == db.evaluations && next.scores == db.scores
    ensures AllTell(next, writes)
  {
    forall e | e in next.evaluations
      ensures exists i :: TellsLast(next, e, writes, i)
    {
      var i :| TellsLast(db, e, writes, i);
      TellsElsewhere(db, next, e, writes, i);
    }
  }

  lemma ErasedKeepsScoresOf(db: DB, u: Id, e: Id)
    requires e in Erased(db, u).evaluations
    ensures Erased(db, u).evaluations[e] == db.evaluations[e]
    ensures ScoresOf(Erased(db, u).scores, e) == ScoresOf(db.scores, e)
    ensures forall k :: k in ScoresOf(db.scores, e) ==> Erased(db, u).scores[k] == db.scores[k]
  {
  }

  lemma ErasedKeepsTelling(db: DB, u: Id, writes: seq<Write>)
    requires AllTell(db, writes)
    ensures AllTell(Erased(db, u), writes)
  {
    forall e | e in Erased(db, u).evaluations
      ensures exists i :: TellsLast(Erased(db, u), e, writes, i)
    {
      var i :| TellsLast(db, e, writes, i);
      ErasedKeepsScoresOf(db, u, e);
      TellsElsewhere(db, Erased(db, u), e, writes, i);
    }
  }

  lemma MoreWrites(db: DB, e: Id, writes: seq<Write>, w: Write, i: nat)
    requires e in db.evaluations && TellsLast(db, e, writes, i)
    requires !Reports(w, db.evaluations[e].resultId, db.evaluations[e].cvId)
    ensures TellsLast(db, e, writes + [w], i)
  {
  }

  lemma ReportsExactlyWhen(w: Write)
    ensures Saves(w.out) && !Conflicts(w) <==> w.out.Evaluated? && Reports(w, w.id, w.out.cv)
  {
  }

  lemma RowTells(w: Write, at: Time)
    requires Saves(w.out)
    ensures TellsMatch(EvaluationRow(w).(createdAt := at), w.out.m)
    ensures EvaluationRow(w).resultId == w.id && EvaluationRow(w).cvId == w.out.cv
  {
  }

  lemma SavedRowTells(db: DB, w: Write)
    requires HasIds(w) && Saves(w.out)
    ensures var row := Saving(db, EvaluationRow(w), Breakdown(w.out), w.newId, w.scoreIds).row;
            TellsMatch(row, w.out.m) && row.resultId == w.id && row.cvId == w.out.cv
  {
    var row := Saving(db, EvaluationRow(w), Breakdown(w.out), w.newId, w.scoreIds).row;
    RowTells(w, row.createdAt);
    assert row == EvaluationRow(w).(createdAt := row.createdAt);
  }

  // The saved row tells the report.
  lemma SavedTells(db: DB, w: Write, writes: seq<Write>)
    requires HasIds(w) && Saves(w.out) && !Conflicts(w)
    ensures var saved := Saving(db, EvaluationRow(w), Breakdown(w.out), w.newId, w.scoreIds);
            TellsLast(WithSaved(db, saved), saved.id, writes + [w], |writes|)
  {
    var saved := Saving(db, EvaluationRow(w), Breakdown(w.out), w.newId, w.scoreIds);
    NewRowsAre(db.scores, saved.id, Breakdown(w.out), w.scoreIds);
    SavedRowTells(db, w);
    ReportsExactlyWhen(w);
    assert (writes + [w])[|writes|] == w;
  }

  lemma SaveKeepsTelling(db: DB, w: Write, writes: seq<Write>)
    requires AllTell(db, writes) && UniqueEvaluations(db) && HasIds(w) && Saves(w.out) && !Conflicts(w)
    requires w.newId !in db.evaluations && forall i :: 0 <= i < |w.scoreIds| ==> w.scoreIds[i] !in db.scores
    ensures AllTell(WithSaved(db, Saving(db, EvaluationRow(w), Breakdown(w.out), w.newId, w.scoreIds)), writes + [w])
  {
    var saved := Saving(db, EvaluationRow(w), Breakdown(w.out), w.newId, w.scoreIds);
    var next := WithSaved(db, saved);
    forall e | e in next.evaluations
      ensures exists i :: TellsLast(next, e, writes + [w], i)
    {
      if e == saved.id {
        SavedTells(db, w, writes);
      } else {
        var i :| TellsLast(db, e, writes, i);
        OnlyTheSaved(db, w, e);
        MoreWrites(db, e, writes, w, i);
        OtherRowsStay(db.scores, saved.id, Breakdown(w.out), w.scoreIds, e);
        TellsElsewhere(db, next, e, writes + [w], i);
      }
    }
  }

  // No other evaluation is of the same result and CV.
  lemma OnlyTheSaved(db: DB, w: Write, e: Id)
    requires UniqueEvaluations(db) && HasIds(w) && Saves(w.out) && e in db.evaluations
    requires e != SavedTo(db, EvaluationRow(w), w.newId)
    ensures !Reports(w, db.evaluations[e].resultId, db.evaluations[e].cvId)
  {
    if Reports(w, db.evaluations[e].resultId, db.evaluations[e].cvId) {
      assert IsFor(db, e, w.id, w.out.cv);
      OnlyOneEvaluation(db, e, w.id, w.out.cv);
    }
  }

  lemma WriteSaves(c: Config, db: DB, w: Write)
    requires HasIds(w)
    ensures var next := WriteResult(c, db, w);
            if w.id in db.results && !Conflicts(w) && Saves(w.out) then
              var kept := WithSaved(db, Saving(db, EvaluationRow(w), Breakdown(w.out), w.newId, w.scoreIds));
              next.evaluations == kept.evaluations && next.scores == kept.scores
            else next.evaluations == db.evaluations && next.scores == db.scores
  {
    if w.id in db.results && !Conflicts(w) {
      ChangeSaves(db, WriteChange(c, db, w));
      ChangeHasSaved(c, db, w);
    }
  }

  lemma ChangeSaves(db: DB, change: Change)
    ensures var next := Changed(db, change);
            match change.saved
            case Some(s) => next.evaluations == WithSaved(db, s).evaluations && next.scores == WithSaved(db, s).scores
            case None => next.evaluations == db.evaluations && next.scores == db.scores
  {
  }

  lemma ChangeHasSaved(c: Config, db: DB, w: Write)
    requires w.id in db.results && HasIds(w)
    ensures WriteChange(c, db, w).saved
         == if Saves(w.out) then Some(Saving(db, EvaluationRow(w), Breakdown(w.out), w.newId, w.scoreIds)) else None
  {
  }

  lemma WriteKeepsTelling(c: Config, db: DB, w: Write, writes: seq<Write>)
    requires AllTell(db, writes) && UniqueEvaluations(db) && EvaluationsOwned(db) && HasIds(w)
    requires w.newId !in db.evaluations && forall i :: 0 <= i < |w.scoreIds| ==> w.scoreIds[i] !in db.scores
    ensures AllTell(WriteResult(c, db, w), writes + [w])
  {
    WriteSaves(c, db, w);
    if w.id in db.results && !Conflicts(w) && Saves(w.out) {
      SaveKeepsTelling(db, w, writes);
      OthersKeepTelling(WithSaved(db, Saving(db, EvaluationRow(w), Breakdown(w.out), w.newId, w.scoreIds)),
                        WriteResult(c, db, w), writes + [w]);
    } else {
      NothingSaved(db, w, writes);
      OthersKeepTelling(db, WriteResult(c, db, w), writes + [w]);
    }
  }

  lemma NothingSaved(db: DB, w: Write, writes: seq<Write>)
    requires AllTell(db, writes) && EvaluationsOwned(db)
    requires !(w.id in db.results && !Conflicts(w) && Saves(w.out))
    ensures AllTell(db, writes + [w])
  {
    forall e | e in db.evaluations
      ensures exists i :: TellsLast(db, e, writes + [w], i)
    {
      var i :| TellsLast(db, e, writes, i);
      ReportsExactlyWhen(w);
      MoreWrites(db, e, writes, w, i);
    }
  }

  lemma StepKeepsTelling(c: Config, s: Sys, e: Event, writes: seq<Write>)
    requires Good(s) && Can(c, s, e) && AllTell(s.db, writes)
    ensures AllTell(After(c, s, e).db, writes + WrittenBy(c, s, e))
  {
    if e.Working? && e.work.ResultWritten? {
      WriteKeepsTelling(c, s.db, WriteOf(s, e.work), writes);
    } else {
      assert writes + WrittenBy(c, s, e) == writes;
      if e.Serving? && e.user.AccountDeleted? {
        DeleteErases(s.db, e.user.userId);
        ErasedKeepsTelling(s.db, e.user.userId, writes);
      } else {
        OthersLeaveEvaluations(c, s, e);
        OthersKeepTelling(s.db, After(c, s, e).db, writes);
      }
    }
  }

  // ----- runs

  lemma InOneRow(first: seq<Write>, next: seq<Write>, rest: seq<Write>)
    ensures (first + next) + rest == first + (next + rest)
  {
  }

  lemma {:induction false} TellingThroughout(c: Config, s: Sys, events: seq<Event>, writes: seq<Write>)
    requires Good(s) && IsRun(c, s, events) && AllTell(s.db, writes)
    ensures AllTell(End(c, s, events).db, writes + Written(c, s, events))
    decreases |events|
  {
    if events == [] {
      assert writes + [] == writes;
    } else {
      var next := After(c, s, events[0]);
      StepKeepsGood(c, s, events[0]);
      StepKeepsTelling(c, s, events[0], writes);
      TellingThroughout(c, next, events[1..], writes + WrittenBy(c, s, events[0]));
      InOneRow(writes, WrittenBy(c, s, events[0]), Written(c, next, events[1..]));
    }
  }

  // Over every run, overlapping and late workers included: an evaluation is
  // what the last report on its result and CV said. With a response it is
  // completed and has its score, strengths, missing skills, summary and
  // breakdown; without one it has the error's message and nothing else.
  lemma EvaluationsTellTheLastReport(c: Config, s: Sys, events: seq<Event>, e: Id)
    requires Initial(s) && IsRun(c, s, events) && e in End(c, s, events).db.evaluations
    ensures exists i :: TellsLast(End(c, s, events).db, e, Written(c, s, events), i)
  {
    InitialIsGood(s);
    TellingThroughout(c, s, events, []);
    assert [] + Written(c, s, events) == Written(c, s, events);
  }
}
