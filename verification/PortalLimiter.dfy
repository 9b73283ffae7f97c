// The per-portal rate limiter with penalties (internal/pipeline/ratelimit.go).
module PortalLimiter {
  import opened Common
  import opened Spacing
  import opened RetryDelay

  datatype Options = Options(interval: Time, perProvider: map<string, Time>, maxPenalty: Time)

  const SECOND: Time := 1_000_000_000

  function WithDefaults(o: Options): Options {
    o.(interval := if o.interval <= 0 then 2 * SECOND else o.interval,
       maxPenalty := if o.maxPenalty <= 0 then 600 * SECOND else o.maxPenalty)
  }

  function Interval(o: Options, provider: string): Time {
    if provider in o.perProvider then o.perProvider[provider] else o.interval
  }

  // Instants count from the zero time, which a fresh provider's slot has.
  datatype ProviderState = ProviderState(next: Time, penalty: Time)

  type States = map<string, ProviderState>

  function StateOf(states: States, provider: string): ProviderState {
    if provider in states then states[provider] else ProviderState(0, 0)
  }

  // What a portal call came to.
  datatype Report = Succeeded | Cancelled | Failed

  datatype Event = Reserved(provider: string, now: Time) | Reported(provider: string, report: Report, now: Time)

  // ----- the limiter on values

  function Slot(st: ProviderState, now: Time): Time {
    if st.next > now then st.next else now
  }

  function NextPenalty(o: Options, provider: string, penalty: Time): Time {
    var raised := if penalty == 0 then Interval(o, provider) else Wrap(penalty * 2);
    if raised > o.maxPenalty then o.maxPenalty else raised
  }

  function Apply(o: Options, states: States, e: Event): States {
    var st := StateOf(states, e.provider);
    match e
    case Reserved(p, now) => states[p := st.(next := Slot(st, now) + Interval(o, p))]
    case Reported(p, Succeeded, _) => states[p := st.(penalty := 0)]
    case Reported(p, Cancelled, _) => states[p := st]
    case Reported(p, Failed, now) =>
      var penalty := NextPenalty(o, p, st.penalty);
      states[p := ProviderState(if now + penalty > st.next then now + penalty else st.next, penalty)]
  }

  class RateLimiter {
    const opts: Options
    var states: States

    constructor (opts: Options)
      ensures this.opts == WithDefaults(opts) && states == map[]
      ensures this.opts.interval == (if opts.interval > 0 then opts.interval else 2_000_000_000)
      ensures this.opts.maxPenalty == (if opts.maxPenalty > 0 then opts.maxPenalty else 600_000_000_000)
      ensures this.opts.perProvider == opts.perProvider
    {
      this.opts := WithDefaults(opts);
      states := map[];
    }

    // Books the next slot for provider and returns how long to wait for it.
    method Reserve(provider: string, now: Time) returns (wait: Time)
      modifies this
      ensures states == Apply(opts, old(states), Reserved(provider, now))
      ensures now + wait == Slot(StateOf(old(states), provider), now)
      ensures wait >= 0
    {
      var st := StateOf(states, provider);
      var start := now;
      if st.next > now {
        start := st.next;
      }
      st := st.(next := start + Interval(opts, provider));
      states := states[provider := st];
      wait := start - now;
    }

    method ReportOutcome(provider: string, report: Report, now: Time)
      modifies this
      ensures states == Apply(opts, old(states), Reported(provider, report, now))
    {
      var st := StateOf(states, provider);
      states := states[provider := st];
      if report.Succeeded? {
        states := states[provider := st.(penalty := 0)];
        return;
      }
      if report.Cancelled? {
        return;
      }
      if st.penalty == 0 {
        st := st.(penalty := Interval(opts, provider));
      } else {
        st := st.(penalty := Wrap(st.penalty * 2));
      }
      if st.penalty > opts.maxPenalty {
        st := st.(penalty := opts.maxPenalty);
      }
      var next := now + st.penalty;
      if next > st.next {
        st := st.(next := next);
      }
      states := states[provider := st];
    }
  }

  // ----- whole histories, with any clock

  function Run(o: Options, events: seq<Event>): States {
    if events == [] then map[] else Apply(o, Run(o, events[..|events| - 1]), events[|events| - 1])
  }

  // The slots a history booked for provider, in order.
  function Slots(o: Options, events: seq<Event>, provider: string): seq<Time> {
    if events == [] then []
    else
      var prior := events[..|events| - 1];
      var e := events[|events| - 1];
      Slots(o, prior, provider)
      + if e.Reserved? && e.provider == provider then [Slot(StateOf(Run(o, prior), provider), e.now)] else []
  }

  ghost predicate AtLeastApart(slots: seq<Time>, interval: Time) {
    forall i, j :: 0 <= i < j < |slots| ==> slots[j] - slots[i] >= (j - i) * interval
  }

  lemma AppendApart(slots: seq<Time>, slot: Time, interval: Time)
    requires AtLeastApart(slots, interval)
    requires slots != [] ==> slot >= slots[|slots| - 1] + interval
    ensures AtLeastApart(slots + [slot], interval)
  {
    var all := slots + [slot];
    forall i, j | 0 <= i < j < |all|
      ensures all[j] - all[i] >= (j - i) * interval
    {
      if j == |slots| && i < j - 1 {
        assert slots[j - 1] - slots[i] >= (j - 1 - i) * interval;
        assert (j - i) * interval == (j - 1 - i) * interval + interval;
      }
    }
  }

  lemma {:induction false} NextFollowsLastSlot(o: Options, events: seq<Event>, provider: string)
    ensures var slots := Slots(o, events, provider);
            slots != [] ==> StateOf(Run(o, events), provider).next >= slots[|slots| - 1] + Interval(o, provider)
  {
    if events != [] {
      NextFollowsLastSlot(o, events[..|events| - 1], provider);
    }
  }

  // Over every history and any clock, the k-th next slot of a portal comes at
  // least k intervals later.
  lemma {:induction false} SlotsAreSpaced(o: Options, events: seq<Event>, provider: string)
    ensures AtLeastApart(Slots(o, events, provider), Interval(o, provider))
  {
    if events != [] {
      var prior := events[..|events| - 1];
      SlotsAreSpaced(o, prior, provider);
      NextFollowsLastSlot(o, prior, provider);
      if Slots(o, events, provider) != Slots(o, prior, provider) {
        AppendApart(Slots(o, prior, provider), Slot(StateOf(Run(o, prior), provider), events[|events| - 1].now),
                    Interval(o, provider));
      }
    }
  }

  lemma ProductMonotone(a: int, b: int, c: int)
    requires a <= b && c >= 0
    ensures a * c <= b * c
  {
    assert b * c == a * c + (b - a) * c;
  }

  lemma SlotsSpacedByIndex(slots: seq<Time>, interval: Time, k: int)
    requires interval > 0 && k >= 0 && AtLeastApart(slots, interval)
    ensures Sorted(slots) && Spaced(slots, k, k * interval)
  {
    forall i, j | 0 <= i < j < |slots|
      ensures slots[i] <= slots[j]
    {
      ProductMonotone(0, j - i, interval);
    }
    forall i, j | 0 <= i && i + k <= j < |slots|
      ensures slots[j] - slots[i] >= k * interval
    {
      ProductMonotone(k, j - i, interval);
    }
  }

  // With a positive interval, any span of time [lo, lo + span] holds at most
  // span / interval + 1 slots of a portal.
  lemma FewSlotsPerSpan(o: Options, events: seq<Event>, provider: string, lo: Time, span: Time)
    requires Interval(o, provider) > 0 && span >= 0
    ensures InSpan(Slots(o, events, provider), lo, lo + span + 1) <= span / Interval(o, provider) + 1
  {
    SlotsAreSpaced(o, events, provider);
    FewInSpan(Slots(o, events, provider), Interval(o, provider), lo, span);
  }

  lemma FewInSpan(slots: seq<Time>, interval: Time, lo: Time, span: Time)
    requires interval > 0 && span >= 0 && AtLeastApart(slots, interval)
    ensures InSpan(slots, lo, lo + span + 1) <= span / interval + 1
  {
    QuotientBound(span, interval);
    AtMost(slots, interval, lo, span, span / interval + 1);
  }

  lemma QuotientBound(span: Time, interval: Time)
    requires interval > 0 && span >= 0
    ensures (span / interval + 1) * interval > span && span / interval >= 0
  {
  }

  lemma AtMost(slots: seq<Time>, interval: Time, lo: Time, span: Time, k: nat)
    requires interval > 0 && k >= 1 && k * interval > span && AtLeastApart(slots, interval)
    ensures InSpan(slots, lo, lo + span + 1) <= k
  {
    SlotsSpacedByIndex(slots, interval, k);
    InSpanOfSpaced(slots, k, k * interval, lo);
    InSpanWiden(slots, lo, lo + span + 1, lo + k * interval);
  }

  // ----- penalties

  lemma {:induction false} NextNeverRecedes(o: Options, events: seq<Event>, n: nat, provider: string)
    requires n <= |events| && Interval(o, provider) >= 0
    ensures StateOf(Run(o, events), provider).next >= StateOf(Run(o, events[..n]), provider).next
    decreases |events|
  {
    if n == |events| {
      assert events[..n] == events;
    } else {
      assert events[..|events| - 1][..n] == events[..n];
      NextNeverRecedes(o, events[..|events| - 1], n, provider);
    }
  }

  lemma {:induction false} LaterSlots(o: Options, events: seq<Event>, n: nat, provider: string, i: nat)
    requires n < |events| && Interval(o, provider) >= 0
    requires |Slots(o, events[..n], provider)| <= i < |Slots(o, events, provider)|
    ensures Slots(o, events, provider)[i] >= StateOf(Run(o, events[..n]), provider).next
    decreases |events|
  {
    var prior := events[..|events| - 1];
    assert prior[..n] == events[..n];
    assert n == |prior| ==> prior == events[..n];
    if n < |prior| && i < |Slots(o, prior, provider)| {
      LaterSlots(o, prior, n, provider, i);
    } else {
      NextNeverRecedes(o, prior, n, provider);
    }
  }

  // After a failure reported at t, no slot booked later comes before t plus
  // the penalty it set, whatever is booked and reported in between.
  lemma NoSlotDuringPenalty(o: Options, events: seq<Event>, n: nat, provider: string, i: nat)
    requires n + 1 < |events| && Interval(o, provider) >= 0
    requires events[n].Reported? && events[n].report.Failed? && events[n].provider == provider
    requires |Slots(o, events[..n + 1], provider)| <= i < |Slots(o, events, provider)|
    ensures Slots(o, events, provider)[i] >= events[n].now + StateOf(Run(o, events[..n + 1]), provider).penalty
  {
    assert events[..n + 1][..n] == events[..n];
    LaterSlots(o, events, n + 1, provider, i);
  }

  // Slot i of the history respects the failure reported as event n.
  ghost predicate Respects(o: Options, events: seq<Event>, n: nat, provider: string, i: nat) {
    n + 1 < |events| && events[n].Reported? && events[n].report.Failed? && events[n].provider == provider
    && |Slots(o, events[..n + 1], provider)| <= i < |Slots(o, events, provider)|
    ==> Slots(o, events, provider)[i] >= events[n].now + StateOf(Run(o, events[..n + 1]), provider).penalty
  }

  // A failure, and two bookings with a clock set back.
  function SetBack(o: Options, provider: string): seq<Event> {
    [Reported(provider, Failed, 1 - Interval(o, provider)), Reserved(provider, 0), Reserved(provider, 0)]
  }

  lemma NegativeIntervalRecedes(o: Options, provider: string)
    requires Interval(o, provider) < 0 < o.maxPenalty
    ensures !Respects(o, SetBack(o, provider), 0, provider, 1)
  {
    var e := SetBack(o, provider);
    assert e[..1] == [e[0]] && e[..2][..1] == [e[0]] && e[..2] == [e[0], e[1]];
    assert e[..1][..0] == [];
    assert Run(o, [e[0]]) == Apply(o, map[], e[0]);
    assert StateOf(Run(o, e[..1]), provider) == ProviderState(1, Interval(o, provider));
    assert Slots(o, e[..1], provider) == [];
    RunAppend(o, [e[0]], e[1], provider);
    assert [e[0]] + [e[1]] == e[..2];
    assert Slots(o, e[..2], provider) == [1];
    RunAppend(o, e[..2], e[2], provider);
    assert e[..2] + [e[2]] == e;
    assert Slots(o, e, provider)[1] < 1;
  }

  // Over all histories and clocks this holds exactly for intervals that are
  // not negative; the defaults do not replace a portal's own negative one.
  lemma PenaltiesAreRespectedExactlyWhen(o: Options, provider: string)
    requires 0 < o.maxPenalty
    ensures (forall events: seq<Event>, n: nat, i: nat :: Respects(o, events, n, provider, i)) <==> Interval(o, provider) >= 0
  {
    if Interval(o, provider) >= 0 {
      forall events: seq<Event>, n: nat, i: nat
        ensures Respects(o, events, n, provider, i)
      {
        if n + 1 < |events| && events[n].Reported? && events[n].report.Failed? && events[n].provider == provider
           && |Slots(o, events[..n + 1], provider)| <= i < |Slots(o, events, provider)| {
          NoSlotDuringPenalty(o, events, n, provider, i);
        }
      }
    } else {
      NegativeIntervalRecedes(o, provider);
    }
  }

  // The penalty after k failures in a row, from none.
  function PenaltyAfter(o: Options, provider: string, k: nat): Time {
    if k == 0 then 0 else NextPenalty(o, provider, PenaltyAfter(o, provider, k - 1))
  }

  // The k-th failure in a row of a portal, counting from a success or the
  // start, sets PenaltyAfter(k); cancelled calls and other portals do not count.
  function FailuresInARow(events: seq<Event>, provider: string): nat {
    if events == [] then 0
    else
      var before := FailuresInARow(events[..|events| - 1], provider);
      var e := events[|events| - 1];
      if e.provider == provider && e.Reported? && e.report.Failed? then before + 1
      else if e.provider == provider && e.Reported? && e.report.Succeeded? then 0
      else before
  }

  lemma {:induction false} PenaltyCountsFailures(o: Options, events: seq<Event>, provider: string)
    ensures StateOf(Run(o, events), provider).penalty == PenaltyAfter(o, provider, FailuresInARow(events, provider))
  {
    if events != [] {
      PenaltyCountsFailures(o, events[..|events| - 1], provider);
    }
  }

  lemma {:induction false} PenaltyIsExponential(o: Options, provider: string, k: nat)
    requires 0 < Interval(o, provider) && 0 < o.maxPenalty < INT64_LIMIT / 2
    ensures PenaltyAfter(o, provider, k + 1) == Exponential(Interval(o, provider), o.maxPenalty, k)
    ensures 0 < PenaltyAfter(o, provider, k + 1) <= o.maxPenalty
  {
    var interval := Interval(o, provider);
    AtLeastOnce(interval, k);
    if k > 0 {
      PenaltyIsExponential(o, provider, k - 1);
      ExponentialDoubles(interval, o.maxPenalty, k - 1);
      DoublingFits(PenaltyAfter(o, provider, k), o.maxPenalty);
    }
  }

  lemma ExponentialDoubles(base: Time, cap: Time, n: nat)
    requires 0 < base && 0 < cap
    ensures Exponential(base, cap, n + 1) == Min(2 * Exponential(base, cap, n), cap)
  {
    assert base * Pow2(n + 1) == 2 * (base * Pow2(n));
  }

  lemma DoublingFits(penalty: Time, cap: Time)
    requires 0 < penalty <= cap < INT64_LIMIT / 2
    ensures Wrap(penalty * 2) == penalty * 2
  {
  }

  lemma PositiveClosedForm(o: Options, provider: string)
    requires 0 < Interval(o, provider) && 0 < o.maxPenalty < INT64_LIMIT
    ensures (forall k: nat :: PenaltyAfter(o, provider, k + 1) == Exponential(Interval(o, provider), o.maxPenalty, k))
       <==> o.maxPenalty < INT64_LIMIT / 2
  {
    if o.maxPenalty < INT64_LIMIT / 2 {
      forall k: nat
        ensures PenaltyAfter(o, provider, k + 1) == Exponential(Interval(o, provider), o.maxPenalty, k)
      {
        PenaltyIsExponential(o, provider, k);
      }
    } else {
      var k := o.maxPenalty;
      CapReached(Interval(o, provider), o.maxPenalty, k);
      CapReached(Interval(o, provider), o.maxPenalty, k + 1);
      assert PenaltyAfter(o, provider, k + 1) == o.maxPenalty ==> PenaltyAfter(o, provider, (k + 1) + 1) < 0;
    }
  }

  lemma {:induction false} NoPenaltyWithoutInterval(o: Options, provider: string, k: nat)
    requires Interval(o, provider) == 0 && 0 < o.maxPenalty
    ensures PenaltyAfter(o, provider, k) == 0 && Exponential(0, o.maxPenalty, k) == 0
  {
    if k > 0 {
      NoPenaltyWithoutInterval(o, provider, k - 1);
    }
  }

  lemma PenaltyFitsInt64(o: Options, provider: string, k: nat)
    requires -INT64_LIMIT <= Interval(o, provider) < INT64_LIMIT && 0 < o.maxPenalty
    ensures PenaltyAfter(o, provider, k) >= -INT64_LIMIT
  {
  }

  // A negative interval is doubled until it wraps around.
  lemma NegativeHasNoClosedForm(o: Options, provider: string)
    requires -INT64_LIMIT <= Interval(o, provider) < 0 < o.maxPenalty
    ensures PenaltyAfter(o, provider, INT64_LIMIT + 1) != Exponential(Interval(o, provider), o.maxPenalty, INT64_LIMIT)
  {
    PenaltyFitsInt64(o, provider, INT64_LIMIT + 1);
    Pow2Grows(INT64_LIMIT);
    ProductMonotone(Interval(o, provider), -1, Pow2(INT64_LIMIT));
  }

  // For any interval a portal is given, negative ones too: every k failures in
  // a row set interval * 2^(k-1), capped, exactly when the interval is zero, or
  // positive with a cap that can be doubled in 64 bits.
  lemma PenaltyClosedForm(o: Options, provider: string)
    requires -INT64_LIMIT <= Interval(o, provider) < INT64_LIMIT && 0 < o.maxPenalty < INT64_LIMIT
    ensures (forall k: nat :: PenaltyAfter(o, provider, k + 1) == Exponential(Interval(o, provider), o.maxPenalty, k))
       <==> Interval(o, provider) == 0 || (Interval(o, provider) > 0 && o.maxPenalty < INT64_LIMIT / 2)
  {
    if Interval(o, provider) > 0 {
      PositiveClosedForm(o, provider);
    } else if Interval(o, provider) == 0 {
      forall k: nat
        ensures PenaltyAfter(o, provider, k + 1) == Exponential(0, o.maxPenalty, k)
      {
        NoPenaltyWithoutInterval(o, provider, k);
        NoPenaltyWithoutInterval(o, provider, k + 1);
      }
    } else {
      NegativeHasNoClosedForm(o, provider);
    }
  }

  lemma CapReached(base: Time, cap: Time, n: nat)
    requires 0 < base && 0 <= cap <= n
    ensures Exponential(base, cap, n) == cap
  {
    Pow2Grows(n);
    assert base * Pow2(n) == Pow2(n) + (base - 1) * Pow2(n);
  }

  // ----- portals do not affect each other

  function Only(events: seq<Event>, provider: string): seq<Event> {
    if events == [] then []
    else
      Only(events[..|events| - 1], provider)
      + if events[|events| - 1].provider == provider then [events[|events| - 1]] else []
  }

  lemma ApplyIsLocal(o: Options, some: States, other: States, e: Event, provider: string)
    requires StateOf(some, provider) == StateOf(other, provider)
    ensures StateOf(Apply(o, some, e), provider)
         == if e.provider == provider then StateOf(Apply(o, other, e), provider) else StateOf(other, provider)
  {
  }

  lemma RunAppend(o: Options, events: seq<Event>, e: Event, provider: string)
    ensures Run(o, events + [e]) == Apply(o, Run(o, events), e)
    ensures Slots(o, events + [e], provider)
         == Slots(o, events, provider)
            + if e.Reserved? && e.provider == provider then [Slot(StateOf(Run(o, events), provider), e.now)] else []
  {
    assert (events + [e])[..|events|] == events;
  }

  // A portal's slots and penalty depend on its own calls alone.
  lemma {:induction false} PortalsAreIndependent(o: Options, events: seq<Event>, provider: string)
    ensures StateOf(Run(o, events), provider) == StateOf(Run(o, Only(events, provider)), provider)
    ensures Slots(o, events, provider) == Slots(o, Only(events, provider), provider)
  {
    if events != [] {
      var prior := events[..|events| - 1];
      var e := events[|events| - 1];
      var own := Only(prior, provider);
      PortalsAreIndependent(o, prior, provider);
      ApplyIsLocal(o, Run(o, prior), Run(o, own), e, provider);
      if e.provider == provider {
        RunAppend(o, own, e, provider);
      } else {
        assert own + [] == own;
      }
    }
  }
}
