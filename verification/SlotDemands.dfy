// No call to a portal waits longer than its history demands: every slot is the
// call's own instant, or one that an earlier slot or failure put it off to.
module SlotDemands {
  import opened Common
  import opened PortalLimiter

  // The portal's own interval, or the general one.
  function Given(o: Options, provider: string): Time {
    if provider in o.perProvider then o.perProvider[provider] else o.interval
  }

  // The slot the history's last event booked.
  function Booked(o: Options, events: seq<Event>, provider: string): Time
    requires Slots(o, events, provider) != []
  {
    Slots(o, events, provider)[|Slots(o, events, provider)| - 1]
  }

  // Event m puts the portal's later calls off to t: it booked a slot one
  // interval before t, or reported a failure one penalty before t.
  ghost predicate PutsOff(o: Options, events: seq<Event>, provider: string, m: nat, t: Time) {
    && m < |events| && events[m].provider == provider
    && match events[m]
       case Reserved(_, _) =>
         Slots(o, events[..m + 1], provider) != [] && t == Booked(o, events[..m + 1], provider) + Given(o, provider)
       case Reported(_, report, now) =>
         report.Failed? && t == now + StateOf(Run(o, events[..m + 1]), provider).penalty
  }

  ghost predicate IsPutOff(o: Options, events: seq<Event>, provider: string, t: Time) {
    exists m: nat :: PutsOff(o, events, provider, m, t)
  }

  lemma PutOffBefore(o: Options, events: seq<Event>, e: Event, provider: string, t: Time)
    requires IsPutOff(o, events, provider, t)
    ensures IsPutOff(o, events + [e], provider, t)
  {
    var m: nat :| PutsOff(o, events, provider, m, t);
    assert (events + [e])[..m + 1] == events[..m + 1];
    assert PutsOff(o, events + [e], provider, m, t);
  }

  lemma LastRun(o: Options, events: seq<Event>, e: Event)
    ensures Run(o, events + [e]) == Apply(o, Run(o, events), e)
  {
    assert (events + [e])[..|events|] == events;
  }

  lemma LastSlot(o: Options, events: seq<Event>, e: Event, provider: string)
    requires e.Reserved? && e.provider == provider
    ensures var slots := Slots(o, events + [e], provider);
            slots == Slots(o, events, provider) + [Slot(StateOf(Run(o, events), provider), e.now)]
  {
    assert (events + [e])[..|events|] == events;
  }

  lemma EventPutsOff(o: Options, events: seq<Event>, e: Event, provider: string)
    requires StateOf(Run(o, events), provider).next == 0 || IsPutOff(o, events, provider, StateOf(Run(o, events), provider).next)
    ensures var next := StateOf(Run(o, events + [e]), provider).next;
            next == 0 || IsPutOff(o, events + [e], provider, next)
  {
    var all := events + [e];
    var was, next := StateOf(Run(o, events), provider).next, StateOf(Run(o, all), provider).next;
    LastRun(o, events, e);
    if next == was {
      if was != 0 {
        PutOffBefore(o, events, e, provider, was);
      }
    } else {
      assert all[..|events| + 1] == all;
      if e.Reserved? {
        LastSlot(o, events, e, provider);
      }
      assert PutsOff(o, all, provider, |events|, next);
    }
  }

  lemma {:induction false} NextIsPutOff(o: Options, events: seq<Event>, provider: string)
    ensures var next := StateOf(Run(o, events), provider).next;
            next == 0 || IsPutOff(o, events, provider, next)
  {
    if events != [] {
      var prior := events[..|events| - 1];
      NextIsPutOff(o, prior, provider);
      EventPutsOff(o, prior, events[|events| - 1], provider);
      assert prior + [events[|events| - 1]] == events;
    }
  }

  // Over every history: a slot is its call's own instant, or one to which an
  // earlier slot or failure of the portal put it off (or the zero time, for a
  // clock that is before it).
  lemma SlotIsDemanded(o: Options, events: seq<Event>, provider: string, now: Time)
    ensures var after := events + [Reserved(provider, now)];
            && Slots(o, after, provider) != []
            && var slot := Booked(o, after, provider);
               slot >= now && (slot == now || IsPutOff(o, events, provider, slot) || (slot == 0 && now < 0))
  {
    LastSlot(o, events, Reserved(provider, now), provider);
    NextIsPutOff(o, events, provider);
  }

  // An event that puts later calls off to t books the next slot at t or later.
  lemma PuttingOffBooks(o: Options, events: seq<Event>, provider: string, m: nat, t: Time)
    requires PutsOff(o, events, provider, m, t)
    ensures StateOf(Run(o, events[..m + 1]), provider).next >= t
  {
    assert events[..m] + [events[m]] == events[..m + 1];
    LastRun(o, events[..m], events[m]);
    if events[m].Reserved? {
      LastSlot(o, events[..m], events[m], provider);
    }
  }

  // With an interval that is not negative it is the earliest such instant: no
  // call waits longer than its own history demands, and one that nothing puts
  // off does not wait.
  lemma SlotIsEarliest(o: Options, events: seq<Event>, provider: string, now: Time)
    requires Given(o, provider) >= 0
    ensures var after := events + [Reserved(provider, now)];
            && Slots(o, after, provider) != []
            && var slot := Booked(o, after, provider);
               && slot >= now && (forall t :: IsPutOff(o, events, provider, t) ==> slot >= t)
               && (slot == now || IsPutOff(o, events, provider, slot) || (slot == 0 && now < 0))
               && (now >= 0 && (forall t :: IsPutOff(o, events, provider, t) ==> t <= now) ==> slot == now)
  {
    SlotIsDemanded(o, events, provider, now);
    LastSlot(o, events, Reserved(provider, now), provider);
    forall t | IsPutOff(o, events, provider, t)
      ensures StateOf(Run(o, events), provider).next >= t
    {
      var m: nat :| PutsOff(o, events, provider, m, t);
      PuttingOffBooks(o, events, provider, m, t);
      NextNeverRecedes(o, events, m + 1, provider);
    }
  }
}
