// Normalising the LLM's answer (internal/services/matcher/matcher.go).
//
// JSON parsing is not part of the model: `Raw` says what the two decoders can
// read from the text.
module Matcher {
  import opened Common
  import opened Strings

  const MAX_REQUIREMENTS := 20
  const MAX_LIST_ITEMS := 5
  const MUST_HAVE_CAP := 69

  // internal/entities/matches.go
  const CRITERIA := ["skills", "experience", "seniority", "domain", "education"]

  datatype Requirement = Requirement(requirement: string, importance: string, met: string, evidence: string)

  datatype CriterionScore = CriterionScore(criterion: string, score: int, reason: string)

  datatype Response = Response(
    requirements: seq<Requirement>, overallScore: int, breakdown: seq<CriterionScore>,
    strengths: seq<string>, missingSkills: seq<string>, summary: string)

  // The raw text the LLM answered with.
  datatype Raw =
    | Unreadable                                  // not a JSON object (an empty text too)
    | Null                                        // the JSON value null
    | Mistyped(requirements: seq<Requirement>)    // only the requirements can be read
    | Parsed(response: Response)

  predicate IsCriterion(name: string) {
    name in CRITERIA
  }

  function ClampScore(n: int): int {
    Max(0, Min(100, n))
  }

  // A score from 0 to 100 is kept, one below becomes 0 and one above 100.
  predicate Clamped(given: int, score: int) {
    && (0 <= given <= 100 ==> score == given)
    && (given < 0 ==> score == 0) && (given > 100 ==> score == 100)
  }

  // The same with an upper end of 69.
  predicate Capped(given: int, score: int) {
    && (0 <= given <= 69 ==> score == given)
    && (given < 0 ==> score == 0) && (given > 69 ==> score == 69)
  }

  // ----- lists

  function NonEmpty(items: seq<string>): seq<string> {
    if items == [] then []
    else (if TrimSpace(items[0]) == "" then [] else [TrimSpace(items[0])]) + NonEmpty(items[1..])
  }

  function Take<T>(s: seq<T>, n: nat): seq<T> {
    if |s| <= n then s else s[..n]
  }

  function Cleaned(items: seq<string>): seq<string> {
    Take(NonEmpty(items), MAX_LIST_ITEMS)
  }

  method CleanList(items: seq<string>) returns (out: seq<string>)
    ensures out == Cleaned(items)
  {
    out := [];
    for i := 0 to |items|
      invariant |out| < MAX_LIST_ITEMS
      invariant out + NonEmpty(items[i..]) == NonEmpty(items)
    {
      var item := TrimSpace(items[i]);
      NonEmptyFrom(items, i);
      if item == "" {
        continue;
      }
      SplitAfter(out, item, NonEmpty(items[i + 1..]));
      out := out + [item];
      if |out| == MAX_LIST_ITEMS {
        return;
      }
    }
  }

  lemma NonEmptyFrom(items: seq<string>, i: nat)
    requires i < |items|
    ensures NonEmpty(items[i..])
         == if TrimSpace(items[i]) == "" then NonEmpty(items[i + 1..]) else [TrimSpace(items[i])] + NonEmpty(items[i + 1..])
  {
    assert items[i..][1..] == items[i + 1..];
  }

  lemma SplitAfter<T>(out: seq<T>, x: T, rest: seq<T>)
    ensures out + ([x] + rest) == (out + [x]) + rest
  {
  }

  // ----- requirements

  function Normalized(lower: CaseMap, r: Requirement): Requirement {
    Requirement(TrimSpace(r.requirement), ToLower(lower, TrimSpace(r.importance)),
                ToLower(lower, TrimSpace(r.met)), TrimSpace(r.evidence))
  }

  predicate WellFormed(r: Requirement) {
    && r.requirement != ""
    && (r.importance == "must" || r.importance == "nice")
    && (r.met == "yes" || r.met == "partial" || r.met == "no")
  }

  function Usable(lower: CaseMap, rs: seq<Requirement>): seq<Requirement> {
    if rs == [] then []
    else
      (if WellFormed(Normalized(lower, rs[0])) then [Normalized(lower, rs[0])] else [])
      + Usable(lower, rs[1..])
  }

  function CleanedRequirements(lower: CaseMap, rs: seq<Requirement>): seq<Requirement> {
    Take(Usable(lower, rs), MAX_REQUIREMENTS)
  }

  method CleanRequirements(lower: CaseMap, rs: seq<Requirement>) returns (out: seq<Requirement>)
    ensures out == CleanedRequirements(lower, rs)
  {
    out := [];
    for i := 0 to |rs|
      invariant |out| < MAX_REQUIREMENTS
      invariant out + Usable(lower, rs[i..]) == Usable(lower, rs)
    {
      var r := Normalized(lower, rs[i]);
      UsableFrom(lower, rs, i);
      if r.requirement == "" {
        continue;
      }
      if r.importance != "must" && r.importance != "nice" {
        continue;
      }
      if r.met != "yes" && r.met != "partial" && r.met != "no" {
        continue;
      }
      SplitAfter(out, r, Usable(lower, rs[i + 1..]));
      out := out + [r];
      if |out| == MAX_REQUIREMENTS {
        return;
      }
    }
  }

  lemma UsableFrom(lower: CaseMap, rs: seq<Requirement>, i: nat)
    requires i < |rs|
    ensures Usable(lower, rs[i..])
         == if WellFormed(Normalized(lower, rs[i])) then [Normalized(lower, rs[i])] + Usable(lower, rs[i + 1..])
            else Usable(lower, rs[i + 1..])
  {
    assert rs[i..][1..] == rs[i + 1..];
  }

  // A requirement the cleaning left is left alone by another cleaning.
  predicate Settled(lower: CaseMap, r: Requirement) {
    WellFormed(r) && Normalized(lower, r) == r
  }

  lemma NormalizedTwice(lower: CaseMap, r: Requirement)
    requires Idempotent(lower) && WellFormed(Normalized(lower, r))
    ensures Settled(lower, Normalized(lower, r))
  {
    var n := Normalized(lower, r);
    TrimSpaceIsTrimmed(r.requirement);
    TrimSpaceIsTrimmed(r.evidence);
    ToLowerTwice(lower, TrimSpace(r.importance));
    ToLowerTwice(lower, TrimSpace(r.met));
    WordIsTrimmed(n.importance);
    WordIsTrimmed(n.met);
  }

  lemma WordIsTrimmed(word: string)
    requires word == "must" || word == "nice" || word == "yes" || word == "partial" || word == "no"
    ensures TrimSpace(word) == word
  {
  }

  lemma {:induction false} UsableSettled(lower: CaseMap, rs: seq<Requirement>)
    requires Idempotent(lower)
    ensures forall i :: 0 <= i < |Usable(lower, rs)| ==> Settled(lower, Usable(lower, rs)[i])
  {
    if rs != [] {
      UsableSettled(lower, rs[1..]);
      if WellFormed(Normalized(lower, rs[0])) {
        NormalizedTwice(lower, rs[0]);
      }
    }
  }

  lemma {:induction false} SettledUsable(lower: CaseMap, rs: seq<Requirement>)
    requires forall i :: 0 <= i < |rs| ==> Settled(lower, rs[i])
    ensures Usable(lower, rs) == rs
  {
    if rs != [] {
      SettledUsable(lower, rs[1..]);
    }
  }

  // Cleaning twice is cleaning once.
  lemma CleanRequirementsIdempotent(lower: CaseMap, rs: seq<Requirement>)
    requires Idempotent(lower)
    ensures var once := CleanedRequirements(lower, rs);
            CleanedRequirements(lower, once) == once && |once| <= MAX_REQUIREMENTS
  {
    UsableSettled(lower, rs);
    SettledUsable(lower, CleanedRequirements(lower, rs));
  }

  lemma {:induction false} NonEmptyTrimmed(items: seq<string>)
    ensures forall i :: 0 <= i < |NonEmpty(items)| ==> NonEmpty(items)[i] != "" && TrimSpace(NonEmpty(items)[i]) == NonEmpty(items)[i]
  {
    if items != [] {
      NonEmptyTrimmed(items[1..]);
      TrimSpaceIsTrimmed(items[0]);
    }
  }

  lemma {:induction false} TrimmedNonEmpty(items: seq<string>)
    requires forall i :: 0 <= i < |items| ==> items[i] != "" && TrimSpace(items[i]) == items[i]
    ensures NonEmpty(items) == items
  {
    if items != [] {
      TrimmedNonEmpty(items[1..]);
    }
  }

  lemma CleanListIdempotent(items: seq<string>)
    ensures var once := Cleaned(items);
            Cleaned(once) == once && |once| <= MAX_LIST_ITEMS && "" !in once
  {
    NonEmptyTrimmed(items);
    TrimmedNonEmpty(Cleaned(items));
  }

  // ----- the breakdown

  function NormalizedScore(lower: CaseMap, s: CriterionScore): CriterionScore {
    CriterionScore(ToLower(lower, TrimSpace(s.criterion)), ClampScore(s.score), TrimSpace(s.reason))
  }

  // The scores kept after those of `seen` criteria were.
  function KeptScores(lower: CaseMap, scores: seq<CriterionScore>, seen: set<string>): seq<CriterionScore> {
    if scores == [] then []
    else
      var s := NormalizedScore(lower, scores[0]);
      if !IsCriterion(s.criterion) || s.criterion in seen then KeptScores(lower, scores[1..], seen)
      else [s] + KeptScores(lower, scores[1..], seen + {s.criterion})
  }

  method KeepScores(lower: CaseMap, scores: seq<CriterionScore>) returns (kept: seq<CriterionScore>)
    ensures kept == KeptScores(lower, scores, {})
  {
    kept := [];
    var seen: set<string> := {};
    for i := 0 to |scores|
      invariant kept + KeptScores(lower, scores[i..], seen) == KeptScores(lower, scores, {})
    {
      assert scores[i..][1..] == scores[i + 1..];
      var criterion := ToLower(lower, TrimSpace(scores[i].criterion));
      if !IsCriterion(criterion) || criterion in seen {
        continue;
      }
      var s := CriterionScore(criterion, ClampScore(scores[i].score), TrimSpace(scores[i].reason));
      ghost var rest := KeptScores(lower, scores[i + 1..], seen + {criterion});
      assert kept + ([s] + rest) == (kept + [s]) + rest;
      seen := seen + {criterion};
      kept := kept + [s];
    }
  }

  predicate DistinctCriteria(scores: seq<CriterionScore>) {
    forall i, j :: 0 <= i < j < |scores| ==> scores[i].criterion != scores[j].criterion
  }

  // The first score whose normalised criterion is c.
  function FirstFor(lower: CaseMap, scores: seq<CriterionScore>, c: string): Option<CriterionScore> {
    if scores == [] then None
    else if ToLower(lower, TrimSpace(scores[0].criterion)) == c then Some(scores[0])
    else FirstFor(lower, scores[1..], c)
  }

  lemma {:induction false} KeptAreNew(lower: CaseMap, scores: seq<CriterionScore>, seen: set<string>)
    ensures var kept := KeptScores(lower, scores, seen);
            && DistinctCriteria(kept)
            && (forall i :: 0 <= i < |kept| ==>
                  IsCriterion(kept[i].criterion) && kept[i].criterion !in seen && 0 <= kept[i].score <= 100)
  {
    if scores != [] {
      var s := NormalizedScore(lower, scores[0]);
      KeptAreNew(lower, scores[1..], seen);
      KeptAreNew(lower, scores[1..], seen + {s.criterion});
    }
  }

  lemma {:induction false} KeptIsFirst(lower: CaseMap, scores: seq<CriterionScore>, seen: set<string>, c: string)
    requires IsCriterion(c) && c !in seen
    ensures match FirstFor(lower, scores, c)
            case None => forall i :: 0 <= i < |KeptScores(lower, scores, seen)| ==> KeptScores(lower, scores, seen)[i].criterion != c
            case Some(s) => NormalizedScore(lower, s) in KeptScores(lower, scores, seen)
  {
    if scores != [] {
      var s := NormalizedScore(lower, scores[0]);
      if s.criterion != c {
        if !IsCriterion(s.criterion) || s.criterion in seen {
          KeptIsFirst(lower, scores[1..], seen, c);
        } else {
          KeptIsFirst(lower, scores[1..], seen + {s.criterion}, c);
        }
      }
    }
  }

  // A kept score is the given one, clamped, with its reason trimmed.
  predicate KeptFrom(given: CriterionScore, kept: CriterionScore) {
    Clamped(given.score, kept.score) && kept.reason == TrimSpace(given.reason)
  }

  // The kept breakdown has each known criterion the LLM scored exactly once,
  // with its first score clamped, and nothing else.
  lemma BreakdownKeepsFirstOfEach(lower: CaseMap, scores: seq<CriterionScore>, c: string)
    ensures var kept := KeptScores(lower, scores, {});
            && DistinctCriteria(kept)
            && ((exists i :: 0 <= i < |kept| && kept[i].criterion == c) <==> IsCriterion(c) && FirstFor(lower, scores, c).Some?)
            && (forall i :: 0 <= i < |kept| && kept[i].criterion == c ==>
                  FirstFor(lower, scores, c).Some? && KeptFrom(FirstFor(lower, scores, c).value, kept[i]))
  {
    var kept := KeptScores(lower, scores, {});
    KeptAreNew(lower, scores, {});
    if IsCriterion(c) {
      KeptIsFirst(lower, scores, {}, c);
      FirstHasCriterion(lower, scores, c);
      if FirstFor(lower, scores, c).Some? {
        var k :| 0 <= k < |kept| && kept[k] == NormalizedScore(lower, FirstFor(lower, scores, c).value);
        assert kept[k].criterion == c;
      }
    }
  }

  lemma {:induction false} FirstHasCriterion(lower: CaseMap, scores: seq<CriterionScore>, c: string)
    ensures FirstFor(lower, scores, c).Some?
        ==> NormalizedScore(lower, FirstFor(lower, scores, c).value).criterion == c
  {
    if scores != [] {
      FirstHasCriterion(lower, scores[1..], c);
    }
  }

  // ----- the whole answer

  predicate MissesMust(r: Requirement) {
    r.importance == "must" && r.met == "no"
  }

  predicate AnyMissedMust(rs: seq<Requirement>) {
    exists i :: 0 <= i < |rs| && MissesMust(rs[i])
  }

  function Decoded(lower: CaseMap, parsed: Response): Response {
    var requirements := CleanedRequirements(lower, parsed.requirements);
    var score := ClampScore(parsed.overallScore);
    Response(requirements,
             if AnyMissedMust(requirements) then Min(score, MUST_HAVE_CAP) else score,
             KeptScores(lower, parsed.breakdown, {}),
             Cleaned(parsed.strengths), Cleaned(parsed.missingSkills), TrimSpace(parsed.summary))
  }

  // The loop over the requirements in DecodeResponse.
  method CapMissedMust(rs: seq<Requirement>, score: int) returns (capped: int)
    ensures capped == if AnyMissedMust(rs) then Min(score, MUST_HAVE_CAP) else score
  {
    capped := score;
    for i := 0 to |rs|
      invariant forall j :: 0 <= j < i ==> !MissesMust(rs[j])
    {
      if rs[i].importance == "must" && rs[i].met == "no" {
        assert MissesMust(rs[i]);
        return Min(score, MUST_HAVE_CAP);
      }
    }
  }

  method DecodeResponse(lower: CaseMap, raw: Raw) returns (result: Outcome<Response, string>)
    ensures result.Ok? <==> raw.Parsed?
    ensures raw.Parsed? ==> result == Ok(Decoded(lower, raw.response))
  {
    match raw {
      case Unreadable | Mistyped(_) => return Err("failed to decode LLM response");
      case Null => return Err("failed to decode LLM response: empty response");
      case Parsed(_) =>
    }
    var response := raw.response;
    response := response.(overallScore := ClampScore(response.overallScore));
    var kept := KeepScores(lower, response.breakdown);
    response := response.(breakdown := kept);
    var strengths := CleanList(response.strengths);
    var missing := CleanList(response.missingSkills);
    response := response.(strengths := strengths, missingSkills := missing, summary := TrimSpace(response.summary));
    var requirements := CleanRequirements(lower, response.requirements);
    response := response.(requirements := requirements);
    var score := CapMissedMust(response.requirements, response.overallScore);
    return Ok(response.(overallScore := score));
  }

  // The requirements in a stored raw answer, or None where the source has nil.
  function StoredRequirements(lower: CaseMap, raw: Raw): Option<seq<Requirement>> {
    var read := match raw
      case Unreadable => []
      case Null => []
      case Mistyped(rs) => rs
      case Parsed(r) => r.requirements;
    var rs := CleanedRequirements(lower, read);
    if rs == [] then None else Some(rs)
  }

  // Both decoders find the same requirements in the same parsed answer.
  lemma DecodersAgree(lower: CaseMap, parsed: Response)
    ensures var rs := Decoded(lower, parsed).requirements;
            StoredRequirements(lower, Parsed(parsed)) == if rs == [] then None else Some(rs)
  {
  }

  // A stored answer listing a missed must-have scores as given up to 69, any
  // other one up to 100.
  lemma MustHaveCaps(lower: CaseMap, parsed: Response)
    ensures var missed := match StoredRequirements(lower, Parsed(parsed))
                          case None => false
                          case Some(rs) => AnyMissedMust(rs);
            if missed then Capped(parsed.overallScore, Decoded(lower, parsed).overallScore)
            else Clamped(parsed.overallScore, Decoded(lower, parsed).overallScore)
  {
  }

  // ----- one match (evaluate): what the pipeline's evaluator returns

  datatype MatchStep = NoCvText(error: Failure) | LlmFailed(error: Failure) | Answered(raw: Raw)

  datatype Match = Match(resp: Option<Response>, raw: Raw, err: Option<Failure>)

  function Matched(lower: CaseMap, step: MatchStep): Match {
    match step
    case NoCvText(e) => Match(None, Unreadable, Some(e))
    case LlmFailed(e) => Match(None, Unreadable, Some(e))
    case Answered(raw) =>
      if raw.Parsed? then Match(Some(Decoded(lower, raw.response)), raw, None)
      else Match(None, raw, Some(Failure(false, "failed to decode LLM response")))
  }
}
