// The order a stored breakdown is shown in (orderBreakdown in
// internal/services/results/results.go).
module Breakdowns {
  import opened Matcher

  // The scores for a criterion, in their order.
  function Of(scores: seq<CriterionScore>, criterion: string): seq<CriterionScore> {
    if scores == [] then []
    else
      var last := scores[|scores| - 1];
      Of(scores[..|scores| - 1], criterion) + if last.criterion == criterion then [last] else []
  }

  // The scores for criteria that are no longer known.
  function Others(scores: seq<CriterionScore>): seq<CriterionScore> {
    if scores == [] then []
    else
      var last := scores[|scores| - 1];
      Others(scores[..|scores| - 1]) + if IsCriterion(last.criterion) then [] else [last]
  }

  // The scores for the first k criteria, criterion by criterion.
  function Leading(scores: seq<CriterionScore>, k: nat): seq<CriterionScore>
    requires k <= |CRITERIA|
  {
    if k == 0 then [] else Leading(scores, k - 1) + Of(scores, CRITERIA[k - 1])
  }

  function Ordered(scores: seq<CriterionScore>): seq<CriterionScore> {
    Leading(scores, |CRITERIA|) + Others(scores)
  }

  // The scores used so far are those for the first k criteria.
  ghost predicate UsedUpTo(scores: seq<CriterionScore>, used: seq<bool>, k: nat)
    requires k <= |CRITERIA|
  {
    |used| == |scores| && forall i :: 0 <= i < |scores| ==> (used[i] <==> scores[i].criterion in CRITERIA[..k])
  }

  method OrderBreakdown(scores: seq<CriterionScore>) returns (out: seq<CriterionScore>)
    ensures out == Ordered(scores)
  {
    out := [];
    var used := new bool[|scores|](_ => false);
    for k := 0 to |CRITERIA|
      invariant out == Leading(scores, k) && UsedUpTo(scores, used[..], k)
    {
      var next := UseCriterion(scores, used, k);
      out := out + next;
    }
    var others := Unused(scores, used);
    out := out + others;
  }

  // The inner loop: uses the scores for the next criterion.
  method UseCriterion(scores: seq<CriterionScore>, used: array<bool>, k: nat) returns (out: seq<CriterionScore>)
    requires k < |CRITERIA| && UsedUpTo(scores, used[..], k)
    modifies used
    ensures out == Of(scores, CRITERIA[k]) && UsedUpTo(scores, used[..], k + 1)
  {
    out := [];
    NextCriterion(k);
    for i := 0 to |scores|
      invariant out == Of(scores[..i], CRITERIA[k])
      invariant forall j :: 0 <= j < i ==> (used[j] <==> scores[j].criterion in CRITERIA[..k + 1])
      invariant forall j :: i <= j < |scores| ==> (used[j] <==> scores[j].criterion in CRITERIA[..k])
    {
      OfNext(scores, i, CRITERIA[k]);
      if !used[i] && scores[i].criterion == CRITERIA[k] {
        used[i] := true;
        out := out + [scores[i]];
      }
    }
    assert scores[..|scores|] == scores;
  }

  // The last loop: what no criterion used.
  method Unused(scores: seq<CriterionScore>, used: array<bool>) returns (out: seq<CriterionScore>)
    requires UsedUpTo(scores, used[..], |CRITERIA|)
    ensures out == Others(scores)
  {
    out := [];
    assert CRITERIA[..|CRITERIA|] == CRITERIA;
    for i := 0 to |scores|
      invariant out == Others(scores[..i])
    {
      OthersNext(scores, i);
      assert used[..][i] == used[i];
      if !used[i] {
        out := out + [scores[i]];
      }
    }
    assert scores[..|scores|] == scores;
  }

  lemma OfNext(scores: seq<CriterionScore>, i: nat, criterion: string)
    requires i < |scores|
    ensures Of(scores[..i + 1], criterion)
         == Of(scores[..i], criterion) + if scores[i].criterion == criterion then [scores[i]] else []
  {
    assert scores[..i + 1][..i] == scores[..i];
  }

  lemma OthersNext(scores: seq<CriterionScore>, i: nat)
    requires i < |scores|
    ensures Others(scores[..i + 1]) == Others(scores[..i]) + if IsCriterion(scores[i].criterion) then [] else [scores[i]]
  {
    assert scores[..i + 1][..i] == scores[..i];
  }

  lemma NextCriterion(k: nat)
    requires k < |CRITERIA|
    ensures CRITERIA[k] !in CRITERIA[..k]
    ensures forall c :: c in CRITERIA[..k + 1] <==> c in CRITERIA[..k] || c == CRITERIA[k]
  {
    assert CRITERIA[..k + 1] == CRITERIA[..k] + [CRITERIA[k]];
  }

  // ----- what the order means

  lemma {:induction false} OneMoreLeading(scores: seq<CriterionScore>, last: CriterionScore, k: nat)
    requires k <= |CRITERIA|
    ensures multiset(Leading(scores + [last], k))
         == multiset(Leading(scores, k)) + if last.criterion in CRITERIA[..k] then multiset{last} else multiset{}
  {
    if k > 0 {
      OneMoreLeading(scores, last, k - 1);
      NextCriterion(k - 1);
      assert (scores + [last])[..|scores|] == scores;
    }
  }

  // Every score is shown exactly as often as it is stored.
  lemma {:induction false} OrderedIsPermutation(scores: seq<CriterionScore>)
    ensures multiset(Ordered(scores)) == multiset(scores)
  {
    if scores == [] {
      NothingLeads(|CRITERIA|);
    } else {
      var rest := scores[..|scores| - 1];
      var last := scores[|scores| - 1];
      assert scores == rest + [last];
      OrderedIsPermutation(rest);
      OneMoreLeading(rest, last, |CRITERIA|);
      assert CRITERIA[..|CRITERIA|] == CRITERIA;
    }
  }

  lemma {:induction false} NothingLeads(k: nat)
    requires k <= |CRITERIA|
    ensures Leading([], k) == []
  {
    if k > 0 {
      NothingLeads(k - 1);
    }
  }

  // A criterion's place in the list of criteria; unknown ones come last.
  function Rank(criterion: string): (r: nat)
    ensures if IsCriterion(criterion) then r < |CRITERIA| && CRITERIA[r] == criterion else r == |CRITERIA|
  {
    if criterion == "skills" then 0
    else if criterion == "experience" then 1
    else if criterion == "seniority" then 2
    else if criterion == "domain" then 3
    else if criterion == "education" then 4
    else 5
  }

  ghost predicate Ranked(scores: seq<CriterionScore>) {
    forall i, j :: 0 <= i < j < |scores| ==> Rank(scores[i].criterion) <= Rank(scores[j].criterion)
  }

  lemma {:induction false} OfIsOne(scores: seq<CriterionScore>, criterion: string)
    ensures forall s :: s in Of(scores, criterion) ==> s.criterion == criterion
  {
    if scores != [] {
      OfIsOne(scores[..|scores| - 1], criterion);
    }
  }

  lemma {:induction false} OthersAreUnknown(scores: seq<CriterionScore>)
    ensures forall s :: s in Others(scores) ==> !IsCriterion(s.criterion)
  {
    if scores != [] {
      OthersAreUnknown(scores[..|scores| - 1]);
    }
  }

  lemma RankOf(k: nat)
    requires k < |CRITERIA|
    ensures Rank(CRITERIA[k]) == k
  {
  }

  lemma {:induction false} LeadingIsRanked(scores: seq<CriterionScore>, k: nat)
    requires k <= |CRITERIA|
    ensures Ranked(Leading(scores, k)) && forall s :: s in Leading(scores, k) ==> Rank(s.criterion) < k
  {
    if k > 0 {
      LeadingIsRanked(scores, k - 1);
      OfIsOne(scores, CRITERIA[k - 1]);
      RankOf(k - 1);
    }
  }

  // The scores of one rank, in their order.
  function OfRank(scores: seq<CriterionScore>, r: nat): seq<CriterionScore> {
    if scores == [] then []
    else (if Rank(scores[0].criterion) == r then [scores[0]] else []) + OfRank(scores[1..], r)
  }

  lemma {:induction false} OfRankJoins(a: seq<CriterionScore>, b: seq<CriterionScore>, r: nat)
    ensures OfRank(a + b, r) == OfRank(a, r) + OfRank(b, r)
  {
    if a == [] {
      assert a + b == b;
    } else {
      assert (a + b)[1..] == a[1..] + b;
      OfRankJoins(a[1..], b, r);
    }
  }

  lemma {:induction false} OfIsOfRank(scores: seq<CriterionScore>, k: nat)
    requires k < |CRITERIA|
    ensures Of(scores, CRITERIA[k]) == OfRank(scores, k)
  {
    if scores != [] {
      var rest, last := scores[..|scores| - 1], scores[|scores| - 1];
      OfIsOfRank(rest, k);
      OfRankJoins(rest, [last], k);
      assert rest + [last] == scores;
      RankOf(k);
    }
  }

  lemma {:induction false} OthersAreOfLastRank(scores: seq<CriterionScore>)
    ensures Others(scores) == OfRank(scores, |CRITERIA|)
  {
    if scores != [] {
      var rest, last := scores[..|scores| - 1], scores[|scores| - 1];
      OthersAreOfLastRank(rest);
      OfRankJoins(rest, [last], |CRITERIA|);
      assert rest + [last] == scores;
    }
  }

  lemma {:induction false} OnlyItsRank(scores: seq<CriterionScore>, r: nat, q: nat)
    requires forall s :: s in scores ==> Rank(s.criterion) == r
    ensures OfRank(scores, q) == if q == r then scores else []
  {
    if scores != [] {
      OnlyItsRank(scores[1..], r, q);
    }
  }

  lemma {:induction false} LeadingOfRank(scores: seq<CriterionScore>, k: nat, r: nat)
    requires k <= |CRITERIA|
    ensures OfRank(Leading(scores, k), r) == if r < k then OfRank(scores, r) else []
  {
    if k > 0 {
      LeadingOfRank(scores, k - 1, r);
      OfRankJoins(Leading(scores, k - 1), Of(scores, CRITERIA[k - 1]), r);
      OfIsOne(scores, CRITERIA[k - 1]);
      RankOf(k - 1);
      OnlyItsRank(Of(scores, CRITERIA[k - 1]), k - 1, r);
      OfIsOfRank(scores, k - 1);
    }
  }

  lemma OthersOfRank(scores: seq<CriterionScore>, r: nat)
    ensures OfRank(Others(scores), r) == if r == |CRITERIA| then OfRank(scores, r) else []
  {
    OthersAreUnknown(scores);
    OnlyItsRank(Others(scores), |CRITERIA|, r);
    OthersAreOfLastRank(scores);
  }

  // Scores of one criterion, and those of unknown ones, keep their order.
  lemma OrderedIsStable(scores: seq<CriterionScore>, r: nat)
    requires r <= |CRITERIA|
    ensures OfRank(Ordered(scores), r) == OfRank(scores, r)
  {
    OfRankJoins(Leading(scores, |CRITERIA|), Others(scores), r);
    LeadingOfRank(scores, |CRITERIA|, r);
    OthersOfRank(scores, r);
    assert OfRank(scores, r) + [] == OfRank(scores, r) && [] + OfRank(scores, r) == OfRank(scores, r);
  }

  // The known criteria come in the order of the list, the others after them.
  lemma OrderedIsRanked(scores: seq<CriterionScore>)
    ensures Ranked(Ordered(scores))
  {
    LeadingIsRanked(scores, |CRITERIA|);
    OthersAreUnknown(scores);
  }
}
