// The API's sliding-window limiter (internal/servers/ratelimit/ratelimit.go).
//
// `Limiter` is the limiter as the source has it: a log per key that is
// trimmed on every call and swept now and then. `RefStep` is the limiter a
// reader has in mind: it keeps every event it ever allowed. The lemmas show
// that the two give the same answers, and what those answers guarantee.
module SlidingWindow {
  import opened Common
  import opened Spacing

  type Positive = n: nat | n >= 1 witness 1

  const SWEEP_EVERY := 1024

  datatype Call = Call(key: string, now: Time)

  datatype Answer = Allowed | Rejected(retryAfter: Time)

  datatype State = State(hits: map<string, seq<Time>>, calls: nat)

  const EMPTY := State(map[], 0)

  // ----- the limiter of the source, on values

  function Recent(hits: seq<Time>, cutoff: Time): seq<Time> {
    if hits != [] && hits[0] <= cutoff then Recent(hits[1..], cutoff) else hits
  }

  function HitsOf(hits: map<string, seq<Time>>, key: string): seq<Time> {
    if key in hits then hits[key] else []
  }

  function Swept(hits: map<string, seq<Time>>, cutoff: Time): map<string, seq<Time>> {
    map key | key in hits && Recent(hits[key], cutoff) != [] :: hits[key]
  }

  function BeforeCall(window: Time, s: State, now: Time): map<string, seq<Time>> {
    if (s.calls + 1) % SWEEP_EVERY == 0 then Swept(s.hits, now - window) else s.hits
  }

  function Step(limit: nat, window: Time, s: State, c: Call): (State, Answer)
    requires limit >= 1
  {
    var hits := BeforeCall(window, s, c.now);
    var recent := Recent(HitsOf(hits, c.key), c.now - window);
    if |recent| >= limit then
      (State(hits[c.key := recent], s.calls + 1), Rejected(recent[0] + window - c.now))
    else
      (State(hits[c.key := recent + [c.now]], s.calls + 1), Allowed)
  }

  class Limiter {
    const limit: Positive
    const window: Time
    var hits: map<string, seq<Time>>
    var calls: nat

    ghost function Current(): State
      reads this
    {
      State(hits, calls)
    }

    constructor (limit: int, window: Time)
      ensures this.limit == Max(1, limit) && this.window == window
      ensures Current() == EMPTY
    {
      this.limit := Max(1, limit);
      this.window := window;
      hits := map[];
      calls := 0;
    }

    method Allow(key: string, now: Time) returns (ok: bool, retryAfter: Time)
      modifies this
      ensures var (next, answer) := Step(limit, window, old(Current()), Call(key, now));
              Current() == next
              && ok == answer.Allowed?
              && retryAfter == if answer.Allowed? then 0 else answer.retryAfter
    {
      calls := calls + 1;
      if calls % SWEEP_EVERY == 0 {
        Sweep(now);
      }
      var recent := RecentHits(key, now);
      if |recent| >= limit {
        hits := hits[key := recent];
        return false, recent[0] + window - now;
      }
      hits := hits[key := recent + [now]];
      return true, 0;
    }

    method RecentHits(key: string, now: Time) returns (recent: seq<Time>)
      ensures recent == Recent(HitsOf(hits, key), now - window)
    {
      var stored := HitsOf(hits, key);
      var cutoff := now - window;
      var i := 0;
      while i < |stored| && stored[i] <= cutoff
        invariant 0 <= i <= |stored|
        invariant Recent(stored, cutoff) == Recent(stored[i..], cutoff)
      {
        assert stored[i..][1..] == stored[i + 1..];
        i := i + 1;
      }
      recent := stored[i..];
    }

    method Sweep(now: Time)
      modifies this
      ensures hits == Swept(old(hits), now - window)
      ensures calls == old(calls)
    {
      var todo := hits.Keys;
      while todo != {}
        invariant todo <= hits.Keys
        invariant calls == old(calls)
        invariant hits == map key | key in old(hits)
                    && (key in todo || Recent(old(hits)[key], now - window) != []) :: old(hits)[key]
        decreases todo
      {
        var key :| key in todo;
        var recent := RecentHits(key, now);
        if |recent| == 0 {
          hits := hits - {key};
        }
        todo := todo - {key};
      }
    }
  }

  // ----- the limiter that keeps its full history

  function KeyTimes(log: seq<Call>, key: string): seq<Time> {
    if log == [] then []
    else
      var rest := KeyTimes(log[..|log| - 1], key);
      if log[|log| - 1].key == key then rest + [log[|log| - 1].now] else rest
  }

  function Live(times: seq<Time>, cutoff: Time): seq<Time> {
    if times == [] then []
    else (if times[0] > cutoff then [times[0]] else []) + Live(times[1..], cutoff)
  }

  function RefStep(limit: nat, window: Time, log: seq<Call>, c: Call): (seq<Call>, Answer)
    requires limit >= 1
  {
    var live := Live(KeyTimes(log, c.key), c.now - window);
    if |live| >= limit then (log, Rejected(live[0] + window - c.now)) else (log + [c], Allowed)
  }

  // ----- whole histories of calls

  function Run(limit: nat, window: Time, calls: seq<Call>): State
    requires limit >= 1
  {
    if calls == [] then EMPTY
    else Step(limit, window, Run(limit, window, calls[..|calls| - 1]), calls[|calls| - 1]).0
  }

  function RefRun(limit: nat, window: Time, calls: seq<Call>): seq<Call>
    requires limit >= 1
  {
    if calls == [] then []
    else RefStep(limit, window, RefRun(limit, window, calls[..|calls| - 1]), calls[|calls| - 1]).0
  }

  // The answer to call c after a history.
  function AnswerTo(limit: nat, window: Time, calls: seq<Call>, c: Call): Answer
    requires limit >= 1
  {
    Step(limit, window, Run(limit, window, calls), c).1
  }

  function RefAnswerTo(limit: nat, window: Time, calls: seq<Call>, c: Call): Answer
    requires limit >= 1
  {
    RefStep(limit, window, RefRun(limit, window, calls), c).1
  }

  // The times at which key was allowed in a history.
  function AllowedTimes(limit: nat, window: Time, calls: seq<Call>, key: string): seq<Time>
    requires limit >= 1
  {
    if calls == [] then []
    else
      var prior := calls[..|calls| - 1];
      var c := calls[|calls| - 1];
      AllowedTimes(limit, window, prior, key)
      + if c.key == key && AnswerTo(limit, window, prior, c).Allowed? then [c.now] else []
  }

  ghost predicate Nondecreasing(calls: seq<Call>) {
    forall i, j :: 0 <= i < j < |calls| ==> calls[i].now <= calls[j].now
  }

  ghost predicate NotAfter(calls: seq<Call>, now: Time) {
    calls != [] ==> calls[|calls| - 1].now <= now
  }

  ghost predicate NoLater(times: seq<Time>, now: Time) {
    forall i :: 0 <= i < |times| ==> times[i] <= now
  }

  // What a key stores is the end of its history; what is missing is too old
  // to be in the window at or after now.
  ghost predicate Stores(stored: seq<Time>, times: seq<Time>, window: Time, now: Time) {
    && |stored| <= |times|
    && stored == times[|times| - |stored|..]
    && (forall i :: 0 <= i < |times| - |stored| ==> times[i] <= now - window)
  }

  ghost predicate KeyRelated(limit: nat, window: Time, stored: seq<Time>, times: seq<Time>, now: Time) {
    && Stores(stored, times, window, now)
    && Sorted(times)
    && NoLater(times, now)
    && |stored| <= limit
  }

  ghost predicate Related(limit: nat, window: Time, s: State, log: seq<Call>, now: Time) {
    forall key :: KeyRelated(limit, window, HitsOf(s.hits, key), KeyTimes(log, key), now)
  }

  lemma {:induction false} RecentIsLive(times: seq<Time>, cutoff: Time)
    requires Sorted(times)
    ensures Recent(times, cutoff) == Live(times, cutoff)
  {
    if times != [] {
      RecentIsLive(times[1..], cutoff);
      if times[0] > cutoff {
        AllLive(times[1..], cutoff);
      }
    }
  }

  lemma {:induction false} AllLive(times: seq<Time>, cutoff: Time)
    requires forall i :: 0 <= i < |times| ==> times[i] > cutoff
    ensures Live(times, cutoff) == times
  {
    if times != [] {
      AllLive(times[1..], cutoff);
    }
  }

  lemma {:induction false} LiveDropsOld(early: seq<Time>, rest: seq<Time>, cutoff: Time)
    requires forall i :: 0 <= i < |early| ==> early[i] <= cutoff
    ensures Live(early + rest, cutoff) == Live(rest, cutoff)
  {
    if early == [] {
      assert early + rest == rest;
    } else {
      assert (early + rest)[1..] == early[1..] + rest;
      LiveDropsOld(early[1..], rest, cutoff);
    }
  }

  lemma {:induction false} RecentIsSuffix(times: seq<Time>, cutoff: Time)
    ensures |Recent(times, cutoff)| <= |times|
    ensures Recent(times, cutoff) == times[|times| - |Recent(times, cutoff)|..]
    ensures forall i :: 0 <= i < |times| - |Recent(times, cutoff)| ==> times[i] <= cutoff
  {
    if times != [] && times[0] <= cutoff {
      RecentIsSuffix(times[1..], cutoff);
    }
  }

  // Trimming a key at `now` shows exactly the hits its full history has in
  // the window, and keeps the two in step.
  lemma TrimAgrees(stored: seq<Time>, times: seq<Time>, window: Time, before: Time, now: Time)
    requires before <= now && Sorted(times) && Stores(stored, times, window, before)
    ensures Recent(stored, now - window) == Live(times, now - window)
    ensures Stores(Recent(stored, now - window), times, window, now)
  {
    var cut := |times| - |stored|;
    assert times[..cut] + times[cut..] == times;
    RecentShowsLive(times[..cut], stored, now - window);
    TrimStores(stored, times, window, before, now);
  }

  lemma RecentShowsLive(early: seq<Time>, stored: seq<Time>, cutoff: Time)
    requires Sorted(stored) && forall i :: 0 <= i < |early| ==> early[i] <= cutoff
    ensures Recent(stored, cutoff) == Live(early + stored, cutoff)
  {
    RecentIsLive(stored, cutoff);
    LiveDropsOld(early, stored, cutoff);
  }

  lemma TrimStores(stored: seq<Time>, times: seq<Time>, window: Time, before: Time, now: Time)
    requires before <= now && Stores(stored, times, window, before)
    ensures Stores(Recent(stored, now - window), times, window, now)
  {
    var recent := Recent(stored, now - window);
    RecentIsSuffix(stored, now - window);
    var cut := |times| - |stored|;
    var skip := |stored| - |recent|;
    assert times[cut..][skip..] == times[cut + skip..];
    forall i | 0 <= i < |times| - |recent|
      ensures times[i] <= now - window
    {
      if i >= cut {
        assert times[i] == stored[i - cut];
      }
    }
  }

  lemma {:induction false} LiveLength(times: seq<Time>, cutoff: Time)
    ensures |Live(times, cutoff)| <= |times|
    ensures forall i :: 0 <= i < |Live(times, cutoff)| ==> Live(times, cutoff)[i] > cutoff
  {
    if times != [] {
      LiveLength(times[1..], cutoff);
    }
  }

  lemma KeyTimesAppend(log: seq<Call>, c: Call, key: string)
    ensures KeyTimes(log + [c], key) == if c.key == key then KeyTimes(log, key) + [c.now] else KeyTimes(log, key)
  {
    assert (log + [c])[..|log|] == log;
  }

  lemma AppendRelated(limit: nat, window: Time, stored: seq<Time>, times: seq<Time>, now: Time)
    requires KeyRelated(limit, window, stored, times, now) && |stored| < limit
    ensures KeyRelated(limit, window, stored + [now], times + [now], now)
  {
  }

  // A sweep only forgets keys whose stored hits have all left the window.
  lemma SweepRelated(limit: nat, window: Time, s: State, log: seq<Call>, before: Time, now: Time, key: string)
    requires before <= now
    requires KeyRelated(limit, window, HitsOf(s.hits, key), KeyTimes(log, key), before)
    ensures KeyRelated(limit, window, HitsOf(BeforeCall(window, s, now), key), KeyTimes(log, key), now)
  {
    if HitsOf(BeforeCall(window, s, now), key) != HitsOf(s.hits, key) {
      assert Recent(HitsOf(s.hits, key), now - window) == [];
      TrimStores(HitsOf(s.hits, key), KeyTimes(log, key), window, before, now);
    }
  }

  // One key in one call at now.
  lemma KeyStep(limit: nat, window: Time, stored: seq<Time>, times: seq<Time>, now: Time)
    requires KeyRelated(limit, window, stored, times, now)
    ensures Recent(stored, now - window) == Live(times, now - window)
    ensures KeyRelated(limit, window, Recent(stored, now - window), times, now)
    ensures |Recent(stored, now - window)| < limit
        ==> KeyRelated(limit, window, Recent(stored, now - window) + [now], times + [now], now)
  {
    TrimAgrees(stored, times, window, now, now);
    RecentIsSuffix(stored, now - window);
    if |Recent(stored, now - window)| < limit {
      AppendRelated(limit, window, Recent(stored, now - window), times, now);
    }
  }

  lemma StepAnswers(limit: nat, window: Time, s: State, log: seq<Call>, before: Time, c: Call)
    requires limit >= 1 && before <= c.now
    requires KeyRelated(limit, window, HitsOf(s.hits, c.key), KeyTimes(log, c.key), before)
    ensures Step(limit, window, s, c).1 == RefStep(limit, window, log, c).1
    ensures KeyRelated(limit, window, HitsOf(Step(limit, window, s, c).0.hits, c.key),
                       KeyTimes(RefStep(limit, window, log, c).0, c.key), c.now)
  {
    SweepRelated(limit, window, s, log, before, c.now, c.key);
    KeyStep(limit, window, HitsOf(BeforeCall(window, s, c.now), c.key), KeyTimes(log, c.key), c.now);
    KeyTimesAppend(log, c, c.key);
  }

  lemma StepKeepsOthers(limit: nat, window: Time, s: State, log: seq<Call>, before: Time, c: Call, key: string)
    requires limit >= 1 && before <= c.now && key != c.key
    requires KeyRelated(limit, window, HitsOf(s.hits, key), KeyTimes(log, key), before)
    ensures KeyRelated(limit, window, HitsOf(Step(limit, window, s, c).0.hits, key),
                       KeyTimes(RefStep(limit, window, log, c).0, key), c.now)
  {
    SweepRelated(limit, window, s, log, before, c.now, key);
    KeyTimesAppend(log, c, key);
    assert HitsOf(Step(limit, window, s, c).0.hits, key) == HitsOf(BeforeCall(window, s, c.now), key);
  }

  // One call: the two limiters answer alike and stay in step.
  lemma StepRefines(limit: nat, window: Time, s: State, log: seq<Call>, before: Time, c: Call)
    requires limit >= 1 && before <= c.now
    requires Related(limit, window, s, log, before)
    ensures Step(limit, window, s, c).1 == RefStep(limit, window, log, c).1
    ensures Related(limit, window, Step(limit, window, s, c).0, RefStep(limit, window, log, c).0, c.now)
  {
    StepAnswers(limit, window, s, log, before, c);
    forall key | key != c.key
      ensures KeyRelated(limit, window, HitsOf(Step(limit, window, s, c).0.hits, key),
                         KeyTimes(RefStep(limit, window, log, c).0, key), c.now)
    {
      StepKeepsOthers(limit, window, s, log, before, c, key);
    }
  }

  lemma {:induction false} RunRefines(limit: nat, window: Time, calls: seq<Call>, now: Time)
    requires limit >= 1 && Nondecreasing(calls) && NotAfter(calls, now)
    ensures Related(limit, window, Run(limit, window, calls), RefRun(limit, window, calls), now)
  {
    if calls != [] {
      var c := calls[|calls| - 1];
      RunRefines(limit, window, calls[..|calls| - 1], c.now);
      StepRefines(limit, window, Run(limit, window, calls[..|calls| - 1]),
                  RefRun(limit, window, calls[..|calls| - 1]), c.now, c);
    }
  }

  // Trimming and sweeping never change an answer: after any history with a
  // nondecreasing clock, over any keys, the limiter answers as the one that
  // keeps its full history.
  lemma AnswersAsFullHistory(limit: nat, window: Time, calls: seq<Call>, c: Call)
    requires limit >= 1 && Nondecreasing(calls) && NotAfter(calls, c.now)
    ensures AnswerTo(limit, window, calls, c) == RefAnswerTo(limit, window, calls, c)
  {
    RunRefines(limit, window, calls, c.now);
    StepRefines(limit, window, Run(limit, window, calls), RefRun(limit, window, calls), c.now, c);
  }

  // What the limiter stores stays sorted, inside the limit, and never later
  // than the clock.
  lemma StoredHitsSortedAndBounded(limit: nat, window: Time, calls: seq<Call>, key: string, now: Time)
    requires limit >= 1 && Nondecreasing(calls) && NotAfter(calls, now)
    ensures var stored := HitsOf(Run(limit, window, calls).hits, key);
            Sorted(stored) && |stored| <= limit && NoLater(stored, now)
  {
    RunRefines(limit, window, calls, now);
    var stored := HitsOf(Run(limit, window, calls).hits, key);
    var times := KeyTimes(RefRun(limit, window, calls), key);
    assert KeyRelated(limit, window, stored, times, now);
  }

  // ----- at most `limit` events in any window

  lemma {:induction false} FewLive(times: seq<Time>, cutoff: Time, limit: nat)
    requires Sorted(times) && |Live(times, cutoff)| < limit
    ensures forall i :: 0 <= i <= |times| - limit ==> times[i] <= cutoff
  {
    if times != [] {
      if times[0] > cutoff {
        AllLive(times, cutoff);
      } else {
        FewLive(times[1..], cutoff, limit);
        forall i | 0 < i <= |times| - limit
          ensures times[i] <= cutoff
        {
          assert times[i] == times[1..][i - 1];
        }
      }
    }
  }

  // What holds for a key in every history.
  ghost predicate KeyHistory(times: seq<Time>, limit: nat, window: Time, now: Time) {
    Sorted(times) && Spaced(times, limit, window) && NoLater(times, now)
  }

  lemma AppendHistory(times: seq<Time>, limit: nat, window: Time, now: Time)
    requires KeyHistory(times, limit, window, now)
    requires |Live(times, now - window)| < limit
    ensures KeyHistory(times + [now], limit, window, now)
  {
    FewLive(times, now - window, limit);
  }

  lemma StepHistory(limit: nat, window: Time, log: seq<Call>, c: Call, key: string)
    requires limit >= 1 && KeyHistory(KeyTimes(log, key), limit, window, c.now)
    ensures KeyHistory(KeyTimes(RefStep(limit, window, log, c).0, key), limit, window, c.now)
  {
    KeyTimesAppend(log, c, key);
    if c.key == key && RefStep(limit, window, log, c).1.Allowed? {
      AppendHistory(KeyTimes(log, key), limit, window, c.now);
    }
  }

  lemma {:induction false} HistoryOfKey(limit: nat, window: Time, calls: seq<Call>, key: string, now: Time)
    requires limit >= 1 && Nondecreasing(calls) && NotAfter(calls, now)
    ensures KeyHistory(KeyTimes(RefRun(limit, window, calls), key), limit, window, now)
  {
    if calls != [] {
      HistoryOfKey(limit, window, calls[..|calls| - 1], key, calls[|calls| - 1].now);
      StepHistory(limit, window, RefRun(limit, window, calls[..|calls| - 1]), calls[|calls| - 1], key);
    }
  }

  lemma {:induction false} AllowedIsLog(limit: nat, window: Time, calls: seq<Call>, key: string)
    requires limit >= 1 && Nondecreasing(calls)
    ensures AllowedTimes(limit, window, calls, key) == KeyTimes(RefRun(limit, window, calls), key)
  {
    if calls != [] {
      AllowedIsLog(limit, window, calls[..|calls| - 1], key);
      AnswersAsFullHistory(limit, window, calls[..|calls| - 1], calls[|calls| - 1]);
      KeyTimesAppend(RefRun(limit, window, calls[..|calls| - 1]), calls[|calls| - 1], key);
    }
  }

  // In every history, any half-open interval one window long holds at most
  // `limit` allowed events of a key.
  lemma AtMostLimitPerWindow(limit: nat, window: Time, calls: seq<Call>, key: string, lo: Time)
    requires limit >= 1 && Nondecreasing(calls)
    ensures InSpan(AllowedTimes(limit, window, calls, key), lo, lo + window) <= limit
  {
    AllowedIsLog(limit, window, calls, key);
    if calls != [] {
      HistoryOfKey(limit, window, calls, key, calls[|calls| - 1].now);
    }
    InSpanOfSpaced(AllowedTimes(limit, window, calls, key), limit, window, lo);
  }

  // ----- retry-after is exact

  lemma {:induction false} LiveTail(times: seq<Time>, limit: nat, cutoff: Time)
    requires limit >= 1 && Sorted(times) && |Live(times, cutoff)| >= limit
    ensures |times| >= limit && times[|times| - limit] > cutoff
  {
    LiveLength(times, cutoff);
    if times[0] <= cutoff {
      LiveTail(times[1..], limit, cutoff);
    }
  }

  lemma {:induction false} TailLive(times: seq<Time>, k: nat, cutoff: Time)
    requires Sorted(times) && k <= |times|
    requires k == |times| || times[k] > cutoff
    ensures |Live(times, cutoff)| >= |times| - k
  {
    if k == 0 {
      AllLive(times, cutoff);
    } else if times[0] <= cutoff {
      TailLive(times[1..], k - 1, cutoff);
    } else {
      AllLive(times, cutoff);
    }
  }

  lemma {:induction false} LiveBound(times: seq<Time>, k: nat, cutoff: Time)
    requires Sorted(times) && k < |times| && times[k] <= cutoff
    ensures |Live(times, cutoff)| < |times| - k
  {
    if k == 0 {
      LiveLength(times[1..], cutoff);
    } else {
      LiveBound(times[1..], k - 1, cutoff);
    }
  }

  // The key may next be used at `free`, when its limit-th latest event leaves the window.
  ghost predicate FullUntil(times: seq<Time>, limit: nat, window: Time, free: Time) {
    |times| >= limit >= 1 && times[|times| - limit] + window == free
  }

  // A rejection names the moment the key is free again.
  lemma RejectionNamesFree(limit: nat, window: Time, log: seq<Call>, c: Call)
    requires limit >= 1
    requires KeyHistory(KeyTimes(log, c.key), limit, window, c.now)
    requires RefStep(limit, window, log, c).1.Rejected?
    ensures var d := RefStep(limit, window, log, c).1.retryAfter;
            0 < d <= window && FullUntil(KeyTimes(log, c.key), limit, window, c.now + d)
  {
    var times := KeyTimes(log, c.key);
    LiveTail(times, limit, c.now - window);
    forall i | 0 <= i < |times| - limit
      ensures times[i] <= c.now - window
    {
      assert times[|times| - 1] - times[i] >= window;
    }
    FirstLive(times, |times| - limit, c.now - window);
  }

  lemma {:induction false} FirstLive(times: seq<Time>, k: nat, cutoff: Time)
    requires Sorted(times) && k < |times| && times[k] > cutoff
    requires forall i :: 0 <= i < k ==> times[i] <= cutoff
    ensures Live(times, cutoff) != [] && Live(times, cutoff)[0] == times[k]
  {
    if k > 0 {
      FirstLive(times[1..], k - 1, cutoff);
    }
  }

  // A full key is rejected, and its history kept, until its oldest counted
  // event leaves the window.
  lemma RejectedUntil(limit: nat, window: Time, log: seq<Call>, c: Call)
    requires limit >= 1 && KeyHistory(KeyTimes(log, c.key), limit, window, c.now)
    requires |KeyTimes(log, c.key)| >= limit
    ensures var free := KeyTimes(log, c.key)[|KeyTimes(log, c.key)| - limit] + window;
            RefStep(limit, window, log, c).1.Rejected? <==> c.now < free
  {
    var times := KeyTimes(log, c.key);
    if c.now < times[|times| - limit] + window {
      TailLive(times, |times| - limit, c.now - window);
    } else {
      LiveBound(times, |times| - limit, c.now - window);
    }
  }

  lemma FullKeyKeepsHistory(limit: nat, window: Time, log: seq<Call>, b: Call, key: string, free: Time)
    requires KeyHistory(KeyTimes(log, key), limit, window, b.now)
    requires FullUntil(KeyTimes(log, key), limit, window, free) && b.now < free
    ensures KeyTimes(RefStep(limit, window, log, b).0, key) == KeyTimes(log, key)
  {
    KeyTimesAppend(log, b, key);
    if b.key == key {
      RejectedUntil(limit, window, log, b);
    }
  }

  ghost predicate AllBefore(calls: seq<Call>, n: nat, t: Time) {
    forall i :: n <= i < |calls| ==> calls[i].now < t
  }

  lemma {:induction false} HistoryKept(limit: nat, window: Time, calls: seq<Call>, n: nat, key: string, free: Time)
    requires limit >= 1 && n <= |calls| && Nondecreasing(calls)
    requires FullUntil(KeyTimes(RefRun(limit, window, calls[..n]), key), limit, window, free)
    requires AllBefore(calls, n, free)
    ensures KeyTimes(RefRun(limit, window, calls), key) == KeyTimes(RefRun(limit, window, calls[..n]), key)
    decreases |calls|
  {
    if n == |calls| {
      assert calls[..n] == calls;
    } else {
      var rest := calls[..|calls| - 1];
      assert rest[..n] == calls[..n];
      HistoryKept(limit, window, rest, n, key, free);
      HistoryOfKey(limit, window, rest, key, calls[|calls| - 1].now);
      FullKeyKeepsHistory(limit, window, RefRun(limit, window, rest), calls[|calls| - 1], key, free);
    }
  }

  lemma RejectionFills(limit: nat, window: Time, calls: seq<Call>, c: Call)
    requires limit >= 1 && Nondecreasing(calls) && NotAfter(calls, c.now)
    requires AnswerTo(limit, window, calls, c).Rejected?
    ensures var d := AnswerTo(limit, window, calls, c).retryAfter;
            0 < d <= window && FullUntil(KeyTimes(RefRun(limit, window, calls), c.key), limit, window, c.now + d)
  {
    AnswersAsFullHistory(limit, window, calls, c);
    HistoryOfKey(limit, window, calls, c.key, c.now);
    RejectionNamesFree(limit, window, RefRun(limit, window, calls), c);
  }

  lemma FullIsRejected(limit: nat, window: Time, calls: seq<Call>, c: Call, free: Time)
    requires limit >= 1 && Nondecreasing(calls) && NotAfter(calls, c.now)
    requires FullUntil(KeyTimes(RefRun(limit, window, calls), c.key), limit, window, free)
    ensures AnswerTo(limit, window, calls, c).Rejected? <==> c.now < free
  {
    AnswersAsFullHistory(limit, window, calls, c);
    HistoryOfKey(limit, window, calls, c.key, c.now);
    RejectedUntil(limit, window, RefRun(limit, window, calls), c);
  }

  // When call n of a history is told to retry after d: d is positive and at
  // most the window; and if the calls from there on all come before d has
  // passed, a call of that key right after them is rejected before d has
  // passed and accepted once it has.
  lemma RetryAfterIsExact(limit: nat, window: Time, calls: seq<Call>, n: nat, t: Time)
    requires limit >= 1 && n < |calls| && Nondecreasing(calls) && NotAfter(calls, t)
    requires AnswerTo(limit, window, calls[..n], calls[n]).Rejected?
    requires AllBefore(calls, n + 1, calls[n].now + AnswerTo(limit, window, calls[..n], calls[n]).retryAfter)
    ensures var d := AnswerTo(limit, window, calls[..n], calls[n]).retryAfter;
            && 0 < d <= window
            && (AnswerTo(limit, window, calls, Call(calls[n].key, t)).Rejected? <==> t < calls[n].now + d)
  {
    RejectionFills(limit, window, calls[..n], calls[n]);
    var free := calls[n].now + AnswerTo(limit, window, calls[..n], calls[n]).retryAfter;
    HistoryKept(limit, window, calls, n, calls[n].key, free);
    FullIsRejected(limit, window, calls, Call(calls[n].key, t), free);
  }
}
