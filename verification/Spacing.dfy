// Sequences of instants and how many of them fit in an interval.
module Spacing {
  import opened Common

  ghost predicate Sorted(times: seq<Time>) {
    forall i, j :: 0 <= i < j < |times| ==> times[i] <= times[j]
  }

  // Instants `limit` places apart are at least `window` apart.
  ghost predicate Spaced(times: seq<Time>, limit: nat, window: Time) {
    forall i, j :: 0 <= i && i + limit <= j < |times| ==> times[j] - times[i] >= window
  }

  // How many of the times lie in [lo, hi).
  function InSpan(times: seq<Time>, lo: Time, hi: Time): nat {
    if times == [] then 0
    else InSpan(times[..|times| - 1], lo, hi) + if lo <= times[|times| - 1] < hi then 1 else 0
  }

  lemma {:induction false} InSpanOfSpaced(times: seq<Time>, limit: nat, window: Time, lo: Time)
    requires limit >= 1 && Sorted(times) && Spaced(times, limit, window)
    ensures InSpan(times, lo, lo + window) <= limit
  {
    if times != [] {
      var last := |times| - 1;
      if lo <= times[last] < lo + window {
        if |times| > limit {
          InSpanSplit(times, |times| - limit, lo, lo + window);
        } else {
          InSpanLength(times, lo, lo + window);
        }
      } else {
        InSpanOfSpaced(times[..last], limit, window, lo);
      }
    }
  }

  lemma {:induction false} InSpanLength(times: seq<Time>, lo: Time, hi: Time)
    ensures InSpan(times, lo, hi) <= |times|
  {
    if times != [] {
      InSpanLength(times[..|times| - 1], lo, hi);
    }
  }

  // When the first k times lie before the span only the others can count.
  lemma {:induction false} InSpanSplit(times: seq<Time>, k: nat, lo: Time, hi: Time)
    requires k <= |times| && forall i :: 0 <= i < k ==> times[i] < lo
    ensures InSpan(times, lo, hi) <= |times| - k
  {
    if |times| > k {
      InSpanSplit(times[..|times| - 1], k, lo, hi);
    } else if times != [] {
      InSpanSplit(times[..|times| - 1], k - 1, lo, hi);
    }
  }

  lemma {:induction false} InSpanWiden(times: seq<Time>, lo: Time, hi: Time, later: Time)
    requires hi <= later
    ensures InSpan(times, lo, hi) <= InSpan(times, lo, later)
  {
    if times != [] {
      InSpanWiden(times[..|times| - 1], lo, hi, later);
    }
  }
}
