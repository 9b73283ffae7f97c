// What a decoded answer is, said of the answer itself: which of its items are
// kept, from which field each comes, and what becomes of every number.
module Answers {
  import opened Common
  import opened Strings
  import opened Matcher

  // All the places below n where `wanted` holds, in order.
  ghost predicate AllPlaces(ks: seq<nat>, n: nat, wanted: nat -> bool) {
    && (forall i, j :: 0 <= i < j < |ks| ==> ks[i] < ks[j])
    && (forall i :: 0 <= i < |ks| ==> ks[i] < n && wanted(ks[i]))
    && (forall k: nat :: k < n && wanted(k) ==> k in ks)
  }

  // ... or only the first max of them.
  ghost predicate FirstPlaces(ks: seq<nat>, n: nat, wanted: nat -> bool, max: nat) {
    && |ks| <= max
    && (forall i, j :: 0 <= i < j < |ks| ==> ks[i] < ks[j])
    && (forall i :: 0 <= i < |ks| ==> ks[i] < n && wanted(ks[i]))
    && (forall k: nat :: k < n && wanted(k) && k !in ks ==> |ks| == max && forall i :: 0 <= i < |ks| ==> ks[i] < k)
  }

  // ----- the parts of an answer

  predicate NotBlankAt(items: seq<string>, k: nat) {
    k < |items| && TrimSpace(items[k]) != ""
  }

  function NotBlank(items: seq<string>): nat -> bool {
    (k: nat) => NotBlankAt(items, k)
  }

  ghost predicate ListFrom(items: seq<string>, out: seq<string>, ks: seq<nat>) {
    && FirstPlaces(ks, |items|, NotBlank(items), 5)
    && |out| == |ks| && forall i :: 0 <= i < |ks| ==> out[i] == TrimSpace(items[ks[i]])
  }

  predicate UsableAt(lower: CaseMap, rs: seq<Requirement>, k: nat) {
    && k < |rs| && TrimSpace(rs[k].requirement) != ""
    && ToLower(lower, TrimSpace(rs[k].importance)) in ["must", "nice"]
    && ToLower(lower, TrimSpace(rs[k].met)) in ["yes", "partial", "no"]
  }

  function IsUsable(lower: CaseMap, rs: seq<Requirement>): nat -> bool {
    (k: nat) => UsableAt(lower, rs, k)
  }

  ghost predicate RequirementsFrom(lower: CaseMap, rs: seq<Requirement>, out: seq<Requirement>, ks: seq<nat>) {
    && FirstPlaces(ks, |rs|, IsUsable(lower, rs), 20)
    && |out| == |ks|
    && forall i :: 0 <= i < |ks| ==>
         && out[i].requirement == TrimSpace(rs[ks[i]].requirement)
         && out[i].importance == ToLower(lower, TrimSpace(rs[ks[i]].importance))
         && out[i].met == ToLower(lower, TrimSpace(rs[ks[i]].met))
         && out[i].evidence == TrimSpace(rs[ks[i]].evidence)
  }

  function NameAt(lower: CaseMap, scores: seq<CriterionScore>, k: nat): string
    requires k < |scores|
  {
    ToLower(lower, TrimSpace(scores[k].criterion))
  }

  // The first score for one of the five criteria.
  predicate FirstAt(lower: CaseMap, scores: seq<CriterionScore>, k: nat) {
    && k < |scores| && NameAt(lower, scores, k) in ["skills", "experience", "seniority", "domain", "education"]
    && forall j :: 0 <= j < k ==> NameAt(lower, scores, j) != NameAt(lower, scores, k)
  }

  function IsFirst(lower: CaseMap, scores: seq<CriterionScore>): nat -> bool {
    (k: nat) => FirstAt(lower, scores, k)
  }

  ghost predicate BreakdownFrom(lower: CaseMap, scores: seq<CriterionScore>, out: seq<CriterionScore>, ks: seq<nat>) {
    && AllPlaces(ks, |scores|, IsFirst(lower, scores))
    && |out| == |ks|
    && forall i :: 0 <= i < |ks| ==>
         && out[i].criterion == NameAt(lower, scores, ks[i])
         && Clamped(scores[ks[i]].score, out[i].score)
         && out[i].reason == TrimSpace(scores[ks[i]].reason)
  }

  ghost predicate MissesMustHave(rs: seq<Requirement>) {
    exists i :: 0 <= i < |rs| && rs[i].importance == "must" && rs[i].met == "no"
  }

  // The response decoded from a parsed answer.
  ghost predicate AnswerOf(lower: CaseMap, parsed: Response, out: Response) {
    && (exists ks :: RequirementsFrom(lower, parsed.requirements, out.requirements, ks))
    && (exists ks :: BreakdownFrom(lower, parsed.breakdown, out.breakdown, ks))
    && (exists ks :: ListFrom(parsed.strengths, out.strengths, ks))
    && (exists ks :: ListFrom(parsed.missingSkills, out.missingSkills, ks))
    && out.summary == TrimSpace(parsed.summary)
    && (if MissesMustHave(out.requirements) then Capped(parsed.overallScore, out.overallScore)
        else Clamped(parsed.overallScore, out.overallScore))
  }

  // ----- places

  ghost function Places(n: nat, wanted: nat -> bool): seq<nat> {
    if n == 0 then [] else Places(n - 1, wanted) + if wanted(n - 1) then [n - 1] else []
  }

  lemma {:induction false} PlacesAreAll(n: nat, wanted: nat -> bool)
    ensures AllPlaces(Places(n, wanted), n, wanted)
  {
    if n > 0 {
      PlacesAreAll(n - 1, wanted);
    }
  }

  lemma TakenPlaces(n: nat, wanted: nat -> bool, max: nat)
    ensures FirstPlaces(Take(Places(n, wanted), max), n, wanted, max)
  {
    PlacesAreAll(n, wanted);
    var all := Places(n, wanted);
    var ks := Take(all, max);
    forall k: nat | k < n && wanted(k) && k !in ks
      ensures |ks| == max && forall i :: 0 <= i < |ks| ==> ks[i] < k
    {
      var j :| 0 <= j < |all| && all[j] == k;
      assert j >= |ks|;
    }
  }

  // The items made at these places.
  predicate AtPlaces<T(==)>(built: seq<T>, made: nat -> T, ks: seq<nat>) {
    |built| == |ks| && forall i :: 0 <= i < |ks| ==> built[i] == made(ks[i])
  }

  function NextOf<T>(made: nat -> T, wanted: nat -> bool, k: nat): seq<T> {
    if wanted(k) then [made(k)] else []
  }

  ghost predicate BuildsUp<T>(built: nat -> seq<T>, made: nat -> T, wanted: nat -> bool, n: nat) {
    built(0) == [] && forall k: nat :: k < n ==> built(k + 1) == built(k) + NextOf(made, wanted, k)
  }

  // A list built by going through the places is what was made at the wanted ones.
  lemma {:induction false} BuiltAtPlaces<T>(built: nat -> seq<T>, made: nat -> T, wanted: nat -> bool, n: nat)
    requires BuildsUp(built, made, wanted, n)
    ensures AtPlaces(built(n), made, Places(n, wanted))
  {
    if n > 0 {
      BuiltAtPlaces(built, made, wanted, n - 1);
      assert built((n - 1) + 1) == built(n - 1) + NextOf(made, wanted, n - 1);
    }
  }

  // ----- lists

  lemma {:induction false} NonEmptyLast(items: seq<string>, last: string)
    ensures NonEmpty(items + [last]) == NonEmpty(items) + if TrimSpace(last) == "" then [] else [TrimSpace(last)]
  {
    if items == [] {
      assert [last][1..] == [];
    } else {
      assert (items + [last])[1..] == items[1..] + [last];
      NonEmptyLast(items[1..], last);
    }
  }

  function NonEmptyUpTo(items: seq<string>): nat -> seq<string> {
    (n: nat) => if n <= |items| then NonEmpty(items[..n]) else []
  }

  function ItemAt(items: seq<string>): nat -> string {
    (k: nat) => if k < |items| then TrimSpace(items[k]) else ""
  }

  lemma NonEmptyOneMore(items: seq<string>, n: nat)
    requires n < |items|
    ensures NonEmptyUpTo(items)(n + 1) == NonEmptyUpTo(items)(n) + NextOf(ItemAt(items), NotBlank(items), n)
  {
    NonEmptyLast(items[..n], items[n]);
    assert items[..n] + [items[n]] == items[..n + 1];
  }

  lemma CleanedIsListFrom(items: seq<string>)
    ensures exists ks :: ListFrom(items, Cleaned(items), ks)
  {
    var wanted := NotBlank(items);
    forall k: nat | k < |items|
      ensures NonEmptyUpTo(items)(k + 1) == NonEmptyUpTo(items)(k) + NextOf(ItemAt(items), NotBlank(items), k)
    {
      NonEmptyOneMore(items, k);
    }
    BuiltAtPlaces(NonEmptyUpTo(items), ItemAt(items), wanted, |items|);
    assert items[..|items|] == items;
    TakenPlaces(|items|, wanted, 5);
    assert ListFrom(items, Cleaned(items), Take(Places(|items|, wanted), 5));
  }

  // ----- requirements

  function UsableOf(lower: CaseMap, r: Requirement): seq<Requirement> {
    if WellFormed(Normalized(lower, r)) then [Normalized(lower, r)] else []
  }

  lemma UsableFirst(lower: CaseMap, rs: seq<Requirement>)
    requires rs != []
    ensures Usable(lower, rs) == UsableOf(lower, rs[0]) + Usable(lower, rs[1..])
  {
  }

  lemma {:induction false} UsableLast(lower: CaseMap, rs: seq<Requirement>, last: Requirement)
    ensures Usable(lower, rs + [last]) == Usable(lower, rs) + UsableOf(lower, last)
  {
    UsableFirst(lower, rs + [last]);
    if rs == [] {
      assert [last][1..] == [] && Usable(lower, []) == [];
    } else {
      assert (rs + [last])[1..] == rs[1..] + [last];
      UsableFirst(lower, rs);
      UsableLast(lower, rs[1..], last);
    }
  }

  lemma UsableExactlyWhen(lower: CaseMap, rs: seq<Requirement>, k: nat)
    requires k < |rs|
    ensures IsUsable(lower, rs)(k) <==> WellFormed(Normalized(lower, rs[k]))
  {
  }

  function UsableUpTo(lower: CaseMap, rs: seq<Requirement>): nat -> seq<Requirement> {
    (n: nat) => if n <= |rs| then Usable(lower, rs[..n]) else []
  }

  function RequirementAt(lower: CaseMap, rs: seq<Requirement>): nat -> Requirement {
    (k: nat) => if k < |rs| then Normalized(lower, rs[k]) else Requirement("", "", "", "")
  }

  lemma UsableOneMore(lower: CaseMap, rs: seq<Requirement>, n: nat)
    requires n < |rs|
    ensures UsableUpTo(lower, rs)(n + 1)
         == UsableUpTo(lower, rs)(n) + NextOf(RequirementAt(lower, rs), IsUsable(lower, rs), n)
  {
    UsableLast(lower, rs[..n], rs[n]);
    UsableExactlyWhen(lower, rs, n);
    assert rs[..n] + [rs[n]] == rs[..n + 1];
  }

  lemma UsableBuildsUp(lower: CaseMap, rs: seq<Requirement>)
    ensures BuildsUp(UsableUpTo(lower, rs), RequirementAt(lower, rs), IsUsable(lower, rs), |rs|)
  {
    forall k: nat | k < |rs|
      ensures UsableUpTo(lower, rs)(k + 1)
           == UsableUpTo(lower, rs)(k) + NextOf(RequirementAt(lower, rs), IsUsable(lower, rs), k)
    {
      UsableOneMore(lower, rs, k);
    }
  }

  lemma UsableAreAtPlaces(lower: CaseMap, rs: seq<Requirement>)
    ensures AtPlaces(Usable(lower, rs), RequirementAt(lower, rs), Places(|rs|, IsUsable(lower, rs)))
  {
    UsableBuildsUp(lower, rs);
    BuiltAtPlaces(UsableUpTo(lower, rs), RequirementAt(lower, rs), IsUsable(lower, rs), |rs|);
    assert rs[..|rs|] == rs;
  }

  lemma TakenAtPlaces<T>(built: seq<T>, made: nat -> T, ks: seq<nat>, n: nat)
    requires AtPlaces(built, made, ks)
    ensures AtPlaces(Take(built, n), made, Take(ks, n))
  {
  }

  lemma AtPlacesAreRequirements(lower: CaseMap, rs: seq<Requirement>, out: seq<Requirement>, ks: seq<nat>)
    requires AtPlaces(out, RequirementAt(lower, rs), ks) && FirstPlaces(ks, |rs|, IsUsable(lower, rs), 20)
    ensures RequirementsFrom(lower, rs, out, ks)
  {
  }

  lemma CleanedIsRequirementsFrom(lower: CaseMap, rs: seq<Requirement>)
    ensures exists ks :: RequirementsFrom(lower, rs, CleanedRequirements(lower, rs), ks)
  {
    var ks := Places(|rs|, IsUsable(lower, rs));
    UsableAreAtPlaces(lower, rs);
    TakenPlaces(|rs|, IsUsable(lower, rs), 20);
    TakenAtPlaces(Usable(lower, rs), RequirementAt(lower, rs), ks, 20);
    AtPlacesAreRequirements(lower, rs, CleanedRequirements(lower, rs), Take(ks, 20));
  }

  // ----- the breakdown

  predicate Named(lower: CaseMap, scores: seq<CriterionScore>, name: string) {
    exists j :: 0 <= j < |scores| && NameAt(lower, scores, j) == name
  }

  // What the score after these adds.
  function KeptNext(lower: CaseMap, scores: seq<CriterionScore>, last: CriterionScore, seen: set<string>): seq<CriterionScore> {
    var name := ToLower(lower, TrimSpace(last.criterion));
    if IsCriterion(name) && name !in seen && !Named(lower, scores, name) then [NormalizedScore(lower, last)] else []
  }

  lemma {:induction false} KeptLast(lower: CaseMap, scores: seq<CriterionScore>, last: CriterionScore, seen: set<string>)
    ensures KeptScores(lower, scores + [last], seen) == KeptScores(lower, scores, seen) + KeptNext(lower, scores, last, seen)
  {
    var name := ToLower(lower, TrimSpace(last.criterion));
    if scores == [] {
      assert [last][1..] == [];
    } else {
      var first := NameAt(lower, scores, 0);
      assert (scores + [last])[1..] == scores[1..] + [last];
      NamedSplits(lower, scores, name);
      KeptLast(lower, scores[1..], last, seen);
      KeptLast(lower, scores[1..], last, seen + {first});
    }
  }

  lemma NamedSplits(lower: CaseMap, scores: seq<CriterionScore>, name: string)
    requires scores != []
    ensures Named(lower, scores, name) <==> NameAt(lower, scores, 0) == name || Named(lower, scores[1..], name)
  {
    if Named(lower, scores, name) {
      var j :| 0 <= j < |scores| && NameAt(lower, scores, j) == name;
      assert j > 0 ==> NameAt(lower, scores[1..], j - 1) == name;
    }
    if Named(lower, scores[1..], name) {
      var j :| 0 <= j < |scores| - 1 && NameAt(lower, scores[1..], j) == name;
      assert NameAt(lower, scores, j + 1) == name;
    }
  }

  lemma FirstIsNotNamed(lower: CaseMap, scores: seq<CriterionScore>, k: nat)
    requires k < |scores|
    ensures FirstAt(lower, scores, k) <==>
              IsCriterion(NameAt(lower, scores, k)) && !Named(lower, scores[..k], NameAt(lower, scores, k))
  {
    var name := NameAt(lower, scores, k);
    assert forall j :: 0 <= j < k ==> NameAt(lower, scores[..k], j) == NameAt(lower, scores, j);
  }

  function KeptUpTo(lower: CaseMap, scores: seq<CriterionScore>): nat -> seq<CriterionScore> {
    (n: nat) => if n <= |scores| then KeptScores(lower, scores[..n], {}) else []
  }

  function ScoreAt(lower: CaseMap, scores: seq<CriterionScore>): nat -> CriterionScore {
    (k: nat) => if k < |scores| then NormalizedScore(lower, scores[k]) else CriterionScore("", 0, "")
  }

  lemma KeptOneMore(lower: CaseMap, scores: seq<CriterionScore>, n: nat)
    requires n < |scores|
    ensures KeptUpTo(lower, scores)(n + 1)
         == KeptUpTo(lower, scores)(n) + NextOf(ScoreAt(lower, scores), IsFirst(lower, scores), n)
  {
    KeptLast(lower, scores[..n], scores[n], {});
    FirstIsNotNamed(lower, scores, n);
    assert scores[..n] + [scores[n]] == scores[..n + 1];
  }

  lemma KeptBuildsUp(lower: CaseMap, scores: seq<CriterionScore>)
    ensures BuildsUp(KeptUpTo(lower, scores), ScoreAt(lower, scores), IsFirst(lower, scores), |scores|)
  {
    forall k: nat | k < |scores|
      ensures KeptUpTo(lower, scores)(k + 1)
           == KeptUpTo(lower, scores)(k) + NextOf(ScoreAt(lower, scores), IsFirst(lower, scores), k)
    {
      KeptOneMore(lower, scores, k);
    }
  }

  lemma KeptAreAtPlaces(lower: CaseMap, scores: seq<CriterionScore>)
    ensures AtPlaces(KeptScores(lower, scores, {}), ScoreAt(lower, scores), Places(|scores|, IsFirst(lower, scores)))
  {
    KeptBuildsUp(lower, scores);
    BuiltAtPlaces(KeptUpTo(lower, scores), ScoreAt(lower, scores), IsFirst(lower, scores), |scores|);
    assert scores[..|scores|] == scores;
  }

  lemma AtPlacesAreBreakdown(lower: CaseMap, scores: seq<CriterionScore>, out: seq<CriterionScore>, ks: seq<nat>)
    requires AtPlaces(out, ScoreAt(lower, scores), ks) && AllPlaces(ks, |scores|, IsFirst(lower, scores))
    ensures BreakdownFrom(lower, scores, out, ks)
  {
  }

  lemma KeptIsBreakdownFrom(lower: CaseMap, scores: seq<CriterionScore>)
    ensures exists ks :: BreakdownFrom(lower, scores, KeptScores(lower, scores, {}), ks)
  {
    KeptAreAtPlaces(lower, scores);
    PlacesAreAll(|scores|, IsFirst(lower, scores));
    AtPlacesAreBreakdown(lower, scores, KeptScores(lower, scores, {}), Places(|scores|, IsFirst(lower, scores)));
  }

  // ----- the whole answer

  lemma ScoreIsCapped(lower: CaseMap, parsed: Response)
    ensures var out := Decoded(lower, parsed);
            if MissesMustHave(out.requirements) then Capped(parsed.overallScore, out.overallScore)
            else Clamped(parsed.overallScore, out.overallScore)
  {
    var rs := CleanedRequirements(lower, parsed.requirements);
    assert MissesMustHave(rs) <==> AnyMissedMust(rs) by {
      if AnyMissedMust(rs) {
        var i :| 0 <= i < |rs| && MissesMust(rs[i]);
        assert rs[i].importance == "must" && rs[i].met == "no";
      }
      if MissesMustHave(rs) {
        var i :| 0 <= i < |rs| && rs[i].importance == "must" && rs[i].met == "no";
        assert MissesMust(rs[i]);
      }
    }
  }

  // Decoding keeps a score from 0 to 100 as it is, or at most 69 when a
  // must-have is missed; each criterion's first score likewise; and of every
  // list its own first items that are not blank, trimmed.
  lemma DecodedIsAnswer(lower: CaseMap, parsed: Response)
    ensures AnswerOf(lower, parsed, Decoded(lower, parsed))
  {
    CleanedIsRequirementsFrom(lower, parsed.requirements);
    KeptIsBreakdownFrom(lower, parsed.breakdown);
    CleanedIsListFrom(parsed.strengths);
    CleanedIsListFrom(parsed.missingSkills);
    ScoreIsCapped(lower, parsed);
  }

  // The requirements shown beside a stored answer are the first usable ones of
  // those that can be read, even when nothing else can be; None is no list.
  lemma StoredRequirementsAreRead(lower: CaseMap, raw: Raw)
    ensures var shown := StoredRequirements(lower, raw);
            match raw
            case Unreadable => shown.None?
            case Null => shown.None?
            case Mistyped(rs) => exists ks :: RequirementsFrom(lower, rs, shown.GetOr([]), ks)
            case Parsed(r) => exists ks :: RequirementsFrom(lower, r.requirements, shown.GetOr([]), ks)
    ensures StoredRequirements(lower, raw) != Some([])
  {
    match raw {
      case Mistyped(rs) =>
        CleanedIsRequirementsFrom(lower, rs);
        assert StoredRequirements(lower, raw).GetOr([]) == CleanedRequirements(lower, rs);
      case Parsed(r) =>
        CleanedIsRequirementsFrom(lower, r.requirements);
        assert StoredRequirements(lower, raw).GetOr([]) == CleanedRequirements(lower, r.requirements);
      case _ =>
    }
  }

  // What the evaluator returns of a call: the raw text whenever the LLM gave
  // one, and either the answer decoded or an error.
  lemma MatchedIsAnswer(lower: CaseMap, step: MatchStep)
    ensures var m := Matched(lower, step);
            match step
            case NoCvText(e) => m.resp.None? && m.err == Some(e) && m.raw == Unreadable
            case LlmFailed(e) => m.resp.None? && m.err == Some(e) && m.raw == Unreadable
            case Answered(raw) =>
              && m.raw == raw && (m.resp.Some? <==> raw.Parsed?) && (m.err.None? <==> raw.Parsed?)
              && (raw.Parsed? ==> AnswerOf(lower, raw.response, m.resp.value))
              && (m.err.Some? ==> !m.err.value.permanent)
  {
    if step.Answered? && step.raw.Parsed? {
      DecodedIsAnswer(lower, step.raw.response);
    }
  }
}
