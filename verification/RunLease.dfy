// How often a search runs. A claim is a lease on the search: no two claims of
// one search come closer than the lease or the search's frequency allows.
module RunLease {
  import opened Common
  import opened Tables
  import opened Schedule
  import opened Account
  import opened Machine
  import opened Integrity
  import opened Reachable

  // A successful claim, and the frequency its run will reschedule the search by.
  datatype Claim = Claim(at: Time, frequency: string)

  predicate Claims(e: Event, id: Id) {
    e.Searching? && e.search.RunClaimed? && e.search.searchId == id
  }

  // The claims of a search in a run of the machine.
  ghost function ClaimsOf(c: Config, s: Sys, events: seq<Event>, id: Id): seq<Claim>
    requires IsRun(c, s, events)
    decreases |events|
  {
    if events == [] then []
    else
      (if Claims(events[0], id) then [Claim(s.now, events[0].search.frequency)] else [])
      + ClaimsOf(c, After(c, s, events[0]), events[1..], id)
  }

  // The time a claim keeps the search from being claimed again.
  function Gap(c: Config, frequency: string): Time {
    Min(c.runTimeout, NextRun(frequency, 0))
  }

  ghost predicate Apart(c: Config, claims: seq<Claim>) {
    forall k :: 0 <= k < |claims| - 1 ==> claims[k + 1].at >= claims[k].at + Gap(c, claims[k].frequency)
  }

  ghost predicate InFlight(s: Sys, id: Id) {
    exists r :: r in s.runs && s.runs[r].searchId == id
  }

  // Nobody edits the search or asks for it to run.
  predicate LeavesAlone(e: Event, id: Id) {
    e.Searching? ==> !(e.search.SearchUpdated? && e.search.id == id) && !(e.search.RunRequested? && e.search.id == id)
  }

  // Every run of the search in flight still has its lease.
  ghost predicate InLease(c: Config, s: Sys, id: Id) {
    forall r :: r in s.runs && s.runs[r].searchId == id ==> s.now < s.runs[r].startedAt + c.runTimeout
  }

  ghost predicate Undisturbed(c: Config, s: Sys, events: seq<Event>, id: Id)
    requires IsRun(c, s, events)
    decreases |events|
  {
    InLease(c, s, id)
    && (events != [] ==> LeavesAlone(events[0], id) && Undisturbed(c, After(c, s, events[0]), events[1..], id))
  }

  // The search's last claim is `last`: the only run in flight is that claim's,
  // and the search is not due before the claim's time is over.
  ghost predicate OneRun(s: Sys, id: Id, last: Claim) {
    && (forall r :: r in s.runs && s.runs[r].searchId == id ==>
          s.runs[r].startedAt == last.at && s.runs[r].frequency == last.frequency)
    && (forall q, r :: q in s.runs && r in s.runs && s.runs[q].searchId == id && s.runs[r].searchId == id ==> q == r)
  }

  ghost predicate Held(c: Config, s: Sys, id: Id, last: Claim) {
    id in s.db.searches && s.db.searches[id].nextRunAt.Some? ==>
      var next := s.db.searches[id].nextRunAt.value;
      next >= last.at + Gap(c, last.frequency) && (InFlight(s, id) ==> next == last.at + c.runTimeout)
  }

  ghost predicate Booked(c: Config, s: Sys, id: Id, last: Claim) {
    id in s.used && OneRun(s, id, last) && Held(c, s, id, last)
  }

  // ----- one step

  lemma ClaimBooks(c: Config, s: Sys, e: SearchEvent)
    requires Good(s) && CanSearch(s, e) && e.RunClaimed? && !InFlight(s, e.searchId)
    ensures Booked(c, AfterSearch(c, s, e), e.searchId, Claim(s.now, e.frequency))
  {
    var next := AfterSearch(c, s, e);
    assert forall r :: r in next.runs && next.runs[r].searchId == e.searchId ==> r == e.run;
  }

  // A booked search can only be claimed once its claim's time is over, and
  // then no run of it is left.
  lemma ClaimComesLater(c: Config, s: Sys, id: Id, last: Claim)
    requires Booked(c, s, id, last) && InLease(c, s, id) && Due(s.db, id, s.now)
    ensures s.now >= last.at + Gap(c, last.frequency) && !InFlight(s, id)
  {
  }

  lemma SearchKeepsOneRun(c: Config, s: Sys, e: SearchEvent, id: Id, last: Claim)
    requires CanSearch(s, e) && OneRun(s, id, last) && !Claims(Searching(e), id)
    ensures OneRun(AfterSearch(c, s, e), id, last)
    ensures InFlight(AfterSearch(c, s, e), id) ==> InFlight(s, id)
  {
    var next := AfterSearch(c, s, e);
    if IsService(e) {
      ServiceTouches(c, s, e);
    }
    assert forall r :: r in next.runs && next.runs[r].searchId == id ==> r in s.runs && next.runs[r] == s.runs[r];
  }

  // The run that marks a search is the one of its last claim.
  lemma MarkKeepsHeld(c: Config, s: Sys, e: SearchEvent, id: Id, last: Claim)
    requires CanSearch(s, e) && e.RunMarked? && OneRun(s, id, last) && Held(c, s, id, last)
    ensures Held(c, AfterSearch(c, s, e), id, last)
  {
    var run := s.runs[e.run];
    var next := AfterSearch(c, s, e);
    if run.searchId == id {
      assert !InFlight(next, id);
    }
  }

  lemma SearchKeepsHeld(c: Config, s: Sys, e: SearchEvent, id: Id, last: Claim)
    requires IdsUsed(s) && CanSearch(s, e) && Booked(c, s, id, last)
    requires LeavesAlone(Searching(e), id) && !Claims(Searching(e), id)
    ensures Held(c, AfterSearch(c, s, e), id, last)
  {
    SearchKeepsOneRun(c, s, e, id, last);
    if e.RunMarked? {
      MarkKeepsHeld(c, s, e, id, last);
    } else {
      OthersKeepNextRun(c, s, e, id);
    }
  }

  lemma OthersKeepNextRun(c: Config, s: Sys, e: SearchEvent, id: Id)
    requires CanSearch(s, e) && !e.RunMarked? && id in s.used
    requires LeavesAlone(Searching(e), id) && !Claims(Searching(e), id)
    ensures var next := AfterSearch(c, s, e).db.searches;
            id in next ==> id in s.db.searches && next[id].nextRunAt == s.db.searches[id].nextRunAt
  {
    if e.SearchUpdated? || e.RunRequested? || e.SearchCreated? {
      ServiceTouches(c, s, e);
    }
  }

  lemma UserKeepsNextRun(s: Sys, e: UserEvent, id: Id)
    requires CanUser(s, e)
    ensures AfterUser(s, e).runs == s.runs && s.used <= AfterUser(s, e).used
    ensures var next := AfterUser(s, e).db.searches;
            id in next ==> id in s.db.searches && next[id] == s.db.searches[id]
  {
    if e.AccountDeleted? {
      StepsRemove(s.db, e.userId, |STEPS|);
    }
  }

  lemma StepKeepsBooked(c: Config, s: Sys, e: Event, id: Id, last: Claim)
    requires Good(s) && Can(c, s, e) && Booked(c, s, id, last)
    requires LeavesAlone(e, id) && !Claims(e, id)
    ensures Booked(c, After(c, s, e), id, last)
  {
    match e {
      case Working(we) => WorkKeepsSearches(c, s, we);
      case Searching(se) =>
        SearchKeepsOneRun(c, s, se, id, last);
        SearchKeepsHeld(c, s, se, id, last);
      case Serving(ue) => UserKeepsNextRun(s, ue, id);
      case Tick(_) =>
    }
  }

  lemma StepStaysUnclaimed(c: Config, s: Sys, e: Event, id: Id)
    requires Can(c, s, e) && !InFlight(s, id) && !Claims(e, id)
    ensures !InFlight(After(c, s, e), id)
  {
    var next := After(c, s, e);
    match e {
      case Working(we) => WorkKeepsSearches(c, s, we);
      case Searching(se) =>
        if IsService(se) {
          ServiceTouches(c, s, se);
        }
        assert forall r :: r in next.runs && next.runs[r].searchId == id ==> r in s.runs && next.runs[r] == s.runs[r];
      case Serving(ue) => UserKeepsNextRun(s, ue, id);
      case Tick(_) =>
    }
  }

  // ----- whole runs

  lemma {:induction false} ClaimsFollow(c: Config, s: Sys, events: seq<Event>, id: Id, last: Claim)
    requires Good(s) && IsRun(c, s, events) && Undisturbed(c, s, events, id) && Booked(c, s, id, last)
    ensures Apart(c, [last] + ClaimsOf(c, s, events, id))
    decreases |events|
  {
    if events != [] {
      var next := After(c, s, events[0]);
      StepKeepsGood(c, s, events[0]);
      if Claims(events[0], id) {
        ClaimComesLater(c, s, id, last);
        ClaimBooks(c, s, events[0].search);
        var claim := Claim(s.now, events[0].search.frequency);
        ClaimsFollow(c, next, events[1..], id, claim);
        ApartBefore(c, last, [claim] + ClaimsOf(c, next, events[1..], id));
      } else {
        StepKeepsBooked(c, s, events[0], id, last);
        ClaimsFollow(c, next, events[1..], id, last);
        assert [] + ClaimsOf(c, next, events[1..], id) == ClaimsOf(c, next, events[1..], id);
      }
    }
  }

  lemma ApartBefore(c: Config, first: Claim, rest: seq<Claim>)
    requires Apart(c, rest) && rest != [] && rest[0].at >= first.at + Gap(c, first.frequency)
    ensures Apart(c, [first] + rest)
  {
    var all := [first] + rest;
    forall k | 0 <= k < |all| - 1
      ensures all[k + 1].at >= all[k].at + Gap(c, all[k].frequency)
    {
      if k > 0 {
        assert all[k] == rest[k - 1] && all[k + 1] == rest[k];
      }
    }
  }

  // Whatever workers, users and other searches do meanwhile: while nobody
  // edits a search or asks for a run, and its runs end before their leases
  // do, its claims are RunTimeout or its frequency apart, whichever is less.
  lemma {:induction false} ClaimsAreApart(c: Config, s: Sys, events: seq<Event>, id: Id)
    requires Good(s) && !InFlight(s, id) && IsRun(c, s, events) && Undisturbed(c, s, events, id)
    ensures Apart(c, ClaimsOf(c, s, events, id))
    decreases |events|
  {
    if events != [] {
      var next := After(c, s, events[0]);
      StepKeepsGood(c, s, events[0]);
      if Claims(events[0], id) {
        ClaimBooks(c, s, events[0].search);
        ClaimsFollow(c, next, events[1..], id, Claim(s.now, events[0].search.frequency));
      } else {
        StepStaysUnclaimed(c, s, events[0], id);
        ClaimsAreApart(c, next, events[1..], id);
        assert [] + ClaimsOf(c, next, events[1..], id) == ClaimsOf(c, next, events[1..], id);
      }
    }
  }

  // ----- disabled searches

  // In every reachable state a search has a next run exactly while it is enabled.
  lemma EnabledMeansScheduled(c: Config, s: Sys, events: seq<Event>, id: Id)
    requires Initial(s) && IsRun(c, s, events) && id in End(c, s, events).db.searches
    ensures var search := End(c, s, events).db.searches[id];
            search.enabled <==> search.nextRunAt.Some?
  {
    ReachableIsGood(c, s, events);
  }

  ghost predicate Off(s: Sys, id: Id) {
    id in s.used && (id in s.db.searches ==> !s.db.searches[id].enabled)
  }

  lemma StepKeepsOff(c: Config, s: Sys, e: Event, id: Id)
    requires Can(c, s, e) && Off(s, id) && !(e.Searching? && e.search.SearchUpdated? && e.search.id == id)
    ensures Off(After(c, s, e), id) && !Claims(e, id)
  {
    match e {
      case Working(we) => WorkKeepsSearches(c, s, we);
      case Searching(se) =>
        if IsService(se) {
          ServiceTouches(c, s, se);
        }
      case Serving(ue) => UserKeepsNextRun(s, ue, id);
      case Tick(_) =>
    }
  }

  // A disabled search is not claimed until its user edits it again, not even
  // when a run that was in flight as it was disabled marks it afterwards.
  lemma {:induction false} DisabledIsNeverClaimed(c: Config, s: Sys, events: seq<Event>, id: Id)
    requires IsRun(c, s, events) && Off(s, id)
    requires forall i :: 0 <= i < |events| && events[i].Searching? && events[i].search.SearchUpdated? ==>
               events[i].search.id != id
    ensures ClaimsOf(c, s, events, id) == [] && Off(End(c, s, events), id)
    decreases |events|
  {
    if events != [] {
      StepKeepsOff(c, s, events[0], id);
      assert forall i :: 0 <= i < |events| - 1 ==> events[1..][i] == events[i + 1];
      DisabledIsNeverClaimed(c, After(c, s, events[0]), events[1..], id);
    }
  }
}
