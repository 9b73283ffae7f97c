// Triage of a user's results (ReEvaluate and UpdateStatus in
// internal/services/results/results.go).
module Results {
  import opened Common
  import opened Strings
  import opened Tables
  import opened Store

  datatype Error = NotFound | SearchNotFound | InProgress | BadParam(param: string, missing: bool)

  // A result is shown while its search and its job still exist.
  predicate Visible(db: DB, userId: Id, id: Id) {
    && id in db.results
    && db.results[id].userId == userId
    && LiveSearch(db, db.results[id].searchId)
    && db.results[id].jobId in db.jobs && !db.jobs[db.results[id].jobId].deleted
  }

  // Evaluated, given up on, or waiting for a later attempt.
  predicate CanRequeue(r: SearchResult, now: Time) {
    || r.evalStatus == Done || r.evalStatus == Failed
    || (r.evalStatus == Pending && r.nextAttemptAt.Some? && r.nextAttemptAt.value > now)
  }

  function Requeued(r: SearchResult): SearchResult {
    r.(evalStatus := Pending, attempts := 0, nextAttemptAt := None, claimedAt := None, lastError := "")
  }

  function ReEvaluate(db: DB, userId: Id, id: Id, now: Time): Outcome<DB, Error> {
    if !Visible(db, userId, id) then Err(NotFound)
    else if !CanRequeue(db.results[id], now) then Err(InProgress)
    else Ok(db.(results := db.results[id := Requeued(db.results[id])]))
  }

  method ReEvaluateResult(d: Database, userId: Id, id: Id, now: Time) returns (err: Option<Error>)
    modifies d`results
    ensures match ReEvaluate(old(d.Rows()), userId, id, now)
            case Ok(next) => err.None? && d.Rows() == next
            case Err(e) => err == Some(e) && d.Rows() == old(d.Rows())
  {
    if !Visible(d.Rows(), userId, id) {
      return Some(NotFound);
    }
    var r := d.results[id];
    var waiting := r.evalStatus == Pending && r.nextAttemptAt.Some? && r.nextAttemptAt.value > now;
    if !(r.evalStatus == Done || r.evalStatus == Failed || waiting) {
      return Some(InProgress);
    }
    r := r.(evalStatus := Pending, attempts := 0);
    r := r.(nextAttemptAt := None, claimedAt := None, lastError := "");
    d.results := d.results[id := r];
    return None;
  }

  function UpdateStatus(lower: CaseMap, db: DB, userId: Id, id: Id, status: string): Outcome<DB, Error> {
    var s := ToLower(lower, TrimSpace(status));
    if s == "" then Err(BadParam("status", true))
    else if s !in RESULT_STATUSES then Err(BadParam("status", false))
    else if !Visible(db, userId, id) then Err(NotFound)
    else Ok(db.(results := db.results[id := db.results[id].(status := s)]))
  }

  // ----- lists of names

  function NameOf(lower: CaseMap, value: string): string {
    ToLower(lower, TrimSpace(value))
  }

  // The names given, each once, if all are allowed; those in `seen` are already out.
  function Chosen(lower: CaseMap, values: seq<string>, allowed: seq<string>, seen: set<string>): Option<seq<string>> {
    if values == [] then Some([])
    else
      var v := NameOf(lower, values[0]);
      if v == "" || v in seen then Chosen(lower, values[1..], allowed, seen)
      else if v !in allowed then None
      else match Chosen(lower, values[1..], allowed, seen + {v})
           case Some(rest) => Some([v] + rest)
           case None => None
  }

  method OneOf(lower: CaseMap, param: string, values: seq<string>, allowed: seq<string>)
    returns (out: Outcome<seq<string>, Error>)
    ensures out == match Chosen(lower, values, allowed, {})
                   case Some(names) => Ok(names)
                   case None => Err(BadParam(param, false))
  {
    var names: seq<string> := [];
    var seen: set<string> := {};
    assert values[0..] == values;
    assert forall rest: seq<string> :: [] + rest == rest;
    for i := 0 to |values|
      invariant match Chosen(lower, values[i..], allowed, seen)
                case Some(rest) => Chosen(lower, values, allowed, {}) == Some(names + rest)
                case None => Chosen(lower, values, allowed, {}) == None
    {
      assert values[i..][1..] == values[i + 1..];
      var v := NameOf(lower, values[i]);
      if v == "" || v in seen {
        continue;
      }
      if v !in allowed {
        return Err(BadParam(param, false));
      }
      ghost var rest := Chosen(lower, values[i + 1..], allowed, seen + {v});
      assert rest.Some? ==> names + ([v] + rest.value) == (names + [v]) + rest.value;
      seen := seen + {v};
      names := names + [v];
    }
    assert names + [] == names;
    return Ok(names);
  }

  ghost predicate Wanted(lower: CaseMap, values: seq<string>, seen: set<string>, name: string) {
    name != "" && name !in seen && exists i :: 0 <= i < |values| && NameOf(lower, values[i]) == name
  }

  lemma {:induction false} WantedFirst(lower: CaseMap, values: seq<string>, seen: set<string>, name: string)
    requires values != []
    ensures var v := NameOf(lower, values[0]);
            Wanted(lower, values, seen, name) <==>
              || (name == v && v != "" && v !in seen)
              || Wanted(lower, values[1..], if v == "" then seen else seen + {v}, name)
  {
    var v := NameOf(lower, values[0]);
    if Wanted(lower, values, seen, name) && name != v {
      var i :| 0 <= i < |values| && NameOf(lower, values[i]) == name;
      assert values[1..][i - 1] == values[i];
    }
  }

  // The choice is refused exactly when a name given is not allowed, and is
  // otherwise every name given, once.
  lemma {:induction false} ChosenAreTheWanted(lower: CaseMap, values: seq<string>, allowed: seq<string>, seen: set<string>)
    ensures var out := Chosen(lower, values, allowed, seen);
            && (out.None? <==> exists n :: Wanted(lower, values, seen, n) && n !in allowed)
            && (out.Some? ==> forall n :: n in out.value <==> Wanted(lower, values, seen, n))
            && (out.Some? ==> forall i, j :: 0 <= i < j < |out.value| ==> out.value[i] != out.value[j])
  {
    if values != [] {
      var v := NameOf(lower, values[0]);
      forall n {
        WantedFirst(lower, values, seen, n);
      }
      if v == "" || v in seen {
        ChosenAreTheWanted(lower, values[1..], allowed, seen);
        assert v in seen ==> seen + {v} == seen;
      } else {
        ChosenAreTheWanted(lower, values[1..], allowed, seen + {v});
        assert Wanted(lower, values, seen, v);
        var rest := Chosen(lower, values[1..], allowed, seen + {v});
        assert rest.Some? ==> (v in rest.value <==> Wanted(lower, values[1..], seen + {v}, v));
      }
    }
  }

  method UpdateResultStatus(d: Database, lower: CaseMap, userId: Id, id: Id, status: string) returns (err: Option<Error>)
    modifies d`results
    ensures match UpdateStatus(lower, old(d.Rows()), userId, id, status)
            case Ok(next) => err.None? && d.Rows() == next
            case Err(e) => err == Some(e) && d.Rows() == old(d.Rows())
  {
    var names := OneOf(lower, "status", [status], RESULT_STATUSES);
    assert [status][1..] == [];
    if names.Err? {
      return Some(names.error);
    }
    if |names.value| == 0 {
      return Some(BadParam("status", true));
    }
    if !Visible(d.Rows(), userId, id) {
      return Some(NotFound);
    }
    d.results := d.results[id := d.results[id].(status := names.value[0])];
    return None;
  }
}
