/** The household as an object: offers, requests and reservations updated in
    place, each step written to the event log. */
module Households {
  import opened Prelude
  import opened HouseholdModel
  import opened HouseholdHistory

  class Household {
    const key: string
    var offers: map<string, Offer>
    var requests: map<string, Request>
    var reservations: map<string, Plan>
    var log: seq<Event>

    function State(): House
      reads this
    {
      House(offers, requests, reservations, log)
    }

    ghost predicate Valid()
      reads this
    {
      HouseInv(State())
    }

    constructor (key: string)
      ensures Valid() && State() == EMPTY && this.key == key
    {
      this.key := key;
      offers, requests, reservations, log := map[], map[], map[], [];
    }

    /** Announces an offer; the invariant survives unless the pod was busy. */
    method Announce(pod: string, key: string, ram: int, vram: int) returns (r: Result<Offer, Error>)
      requires Valid()
      modifies this`offers
      ensures key != this.key ==> r == Err(PermissionError) && State() == old(State())
      ensures key == this.key ==> r.Ok? && State() == Join(old(State()), pod, ram, vram) && r.value == offers[pod]
      ensures key == this.key ==> (Valid() <==> (pod in old(offers) ==> !old(offers)[pod].busy))
    {
      if key != this.key { return Err(PermissionError); }
      JoinKeepsIff(State(), pod, ram, vram);
      offers := offers[pod := Offer(ram, vram, false, None)];
      return Ok(offers[pod]);
    }

    method CheckDonors(donors: seq<string>) returns (problem: Option<(string, Error)>)
      ensures problem == DonorProblem(offers, donors)
    {
      for i := 0 to |donors|
        invariant DonorProblem(offers, donors) == DonorProblem(offers, donors[i..])
      {
        assert donors[i..][0] == donors[i] && donors[i..][1..] == donors[i + 1..];
        if donors[i] !in offers { return Some((donors[i], KeyError)); }
        if offers[donors[i]].busy { return Some((donors[i], Refused)); }
      }
      return None;
    }

    method RequestPlan(id: string, model: string, segments: seq<Segment>, donors: seq<string>) returns (problem: Option<Error>)
      requires Valid() && id !in requests
      modifies this
      ensures Valid()
      ensures (problem, State()) == RequestAllocation(old(State()), id, model, segments, donors)
      ensures problem.None? <==> forall d :: d in donors ==> d in old(offers) && !old(offers)[d].busy
    {
      RequestKeeps(State(), id, model, segments, donors);
      DonorsChecked(offers, donors);
      var found := CheckDonors(donors);
      if found.Some? {
        if found.value.1 == Refused { log := log + [AllocationRefused(found.value.0)]; }
        return Some(found.value.1);
      }
      requests := requests[id := Request(model, segments, donors, [], Pending)];
      log := log + [AllocationRequested(id)];
      return None;
    }

    method GiveApproval(id: string, pod: string, key: string) returns (r: Result<Status, Error>)
      requires Valid()
      modifies this
      ensures Valid()
      ensures var spec := Approve(old(State()), id, pod, key == this.key);
              if spec.Ok? then r.Ok? && State() == spec.value && id in requests && r.value == requests[id].status
              else r == Err(spec.error) && State() == old(State())
    {
      if key != this.key { return Err(PermissionError); }
      if id !in requests { return Err(KeyError); }
      var request := requests[id];
      if pod !in request.donors { return Err(PermissionError); }
      if pod in request.approved { return Ok(request.status); }
      ApproveKeeps(State(), id, pod, true);
      var approved := request.approved + [pod];
      var status := if Elems(approved) == Elems(request.donors) then Approved else request.status;
      requests := requests[id := request.(approved := approved, status := status)];
      log := log + [AllocationApproved(id, pod)];
      return Ok(status);
    }

    /** Tries one segment on each donor in order, each tier in order. */
    method PlaceSegment(donors: seq<string>, s: Segment, plan: Plan, claimed: map<(string, string), int>)
        returns (r: Result<Placement, Error>)
      requires forall d :: d in donors ==> d in offers
      requires forall d, t :: Used(plan, d, t) == if (d, t) in claimed then claimed[(d, t)] else 0
      ensures r == FitDonor(offers, plan, donors, s)
    {
      for i := 0 to |donors|
        invariant FitDonor(offers, plan, donors, s) == FitDonor(offers, plan, donors[i..], s)
      {
        var pod := donors[i];
        assert donors[i..][0] == pod && donors[i..][1..] == donors[i + 1..];
        if !offers[pod].busy {
          for j := 0 to |s.tiers|
            invariant FitTier(offers[pod], plan, pod, s.tiers, s.bytesNeeded) == FitTier(offers[pod], plan, pod, s.tiers[j..], s.bytesNeeded)
          {
            var tier := s.tiers[j];
            assert s.tiers[j..][0] == tier && s.tiers[j..][1..] == s.tiers[j + 1..];
            if !KnownTier(tier) { return Err(ValueError); }
            var used := if (pod, tier) in claimed then claimed[(pod, tier)] else 0;
            if used + s.bytesNeeded <= Capacity(offers[pod], tier) {
              return Ok(Placement(s.name, pod, tier, s.bytesNeeded));
            }
          }
        }
      }
      return Err(RuntimeError);
    }

    /** Places all segments before anything is marked; `claimed` is what this request took so far. */
    method PlaceSegments(donors: seq<string>, segments: seq<Segment>) returns (r: Result<Plan, Error>)
      requires forall d :: d in donors ==> d in offers
      ensures r == PlaceAll(offers, donors, segments)
    {
      var plan: Plan := [];
      var claimed: map<(string, string), int> := map[];
      for i := 0 to |segments|
        invariant PlaceAll(offers, donors, segments[..i]) == Ok(plan)
        invariant forall d, t :: Used(plan, d, t) == if (d, t) in claimed then claimed[(d, t)] else 0
      {
        assert segments[..i + 1][..i] == segments[..i];
        var placed := PlaceSegment(donors, segments[i], plan, claimed);
        if placed.Err? {
          PlaceAllFails(offers, donors, segments, i + 1);
          return Err(placed.error);
        }
        var p := placed.value;
        var used := if (p.pod, p.tier) in claimed then claimed[(p.pod, p.tier)] else 0;
        claimed := claimed[(p.pod, p.tier) := used + p.bytes];
        assert (plan + [p])[..|plan|] == plan;
        plan := plan + [p];
      }
      assert segments[..|segments|] == segments;
      return Ok(plan);
    }

    method StartAllocation(id: string) returns (r: Result<Plan, Error>)
      requires Valid()
      modifies this
      ensures Valid()
      ensures var spec := Start(old(State()), id);
              if spec.Ok? then r.Ok? && State() == spec.value && id in reservations && r.value == reservations[id]
              else r == Err(spec.error) && State() == old(State())
    {
      if id !in requests { return Err(KeyError); }
      var request := requests[id];
      if request.status != Approved { return Err(PermissionError); }
      r := PlaceSegments(request.donors, request.segments);
      if r.Err? { return; }
      StartKeeps(State(), id);
      offers := Marked(offers, Pods(r.value), id);
      reservations := reservations[id := r.value];
      requests := requests[id := request.(status := Started)];
      log := log + [AllocationStarted(id, r.value, request.model, request.donors)];
    }

    method ReleaseAllocation(id: string, key: string) returns (r: Result<set<string>, Error>)
      requires Valid()
      modifies this
      ensures Valid()
      ensures var spec := Release(old(State()), id, key == this.key);
              if spec.Ok? then State() == spec.value && id in old(reservations) && r == Ok(Pods(old(reservations)[id]))
              else r == Err(spec.error) && State() == old(State())
    {
      if key != this.key { return Err(PermissionError); }
      if id !in requests { return Err(KeyError); }
      if requests[id].status != Started { return Err(PermissionError); }
      ReleaseKeeps(State(), id, true);
      var freed := Freed(State(), id);
      offers := Unmarked(offers, freed);
      reservations := reservations - {id};
      requests := requests[id := requests[id].(status := Released)];
      log := log + [AllocationReleased(id, freed)];
      return Ok(freed);
    }

    /** Reads the newest part of the log oldest first and rebuilds what is open. */
    method RestoreFromEvents()
      modifies this
      ensures Restores(old(State()), State())
    {
      var window := if |log| <= REPLAY_LIMIT then log else log[|log| - REPLAY_LIMIT..];
      var open: map<string, Opened> := map[];
      for i := 0 to |window|
        invariant open == Replay(window[..i]) && State() == old(State())
      {
        assert window[..i + 1][..i] == window[..i];
        open := ReplayStep(open, window[i]);
      }
      assert window[..|window|] == window;
      reservations := map id | id in open :: open[id].plan;
      requests := requests + map id | id in open :: RestoredRequest(open[id]);
      offers := map pod | pod in offers :: offers[pod].(busy := false, busyWith := None);
      MarkOpen(open);
    }

    method MarkOpen(open: map<string, Opened>)
      requires forall pod :: pod in offers ==> !offers[pod].busy && offers[pod].busyWith.None?
      modifies this`offers
      ensures offers.Keys == old(offers).Keys
      ensures forall pod :: pod in offers ==> MarkedBy(old(offers)[pod], offers[pod], pod, open, open.Keys)
    {
      var todo := open.Keys;
      ghost var before := offers;
      while todo != {}
        invariant todo <= open.Keys && offers.Keys == before.Keys
        invariant forall pod :: pod in offers ==> MarkedBy(before[pod], offers[pod], pod, open, open.Keys - todo)
        decreases todo
      {
        var id :| id in todo;
        offers := Marked(offers, PlanPods(open[id]), id);
        todo := todo - {id};
      }
      assert open.Keys - {} == open.Keys;
    }
  }

  /** An offer is marked by one of the handled plans that name its pod, if any does. */
  ghost predicate MarkedBy(before: Offer, after: Offer, pod: string, open: map<string, Opened>, handled: set<string>) {
    && after.ram == before.ram && after.vram == before.vram
    && (after.busy <==> after.busyWith.Some?)
    && (after.busy <==> exists id :: id in handled && id in open && pod in Pods(open[id].plan))
    && (after.busyWith.Some? ==>
          after.busyWith.value in handled && after.busyWith.value in open && pod in Pods(open[after.busyWith.value].plan))
  }

  /** A segment that cannot be placed fails the whole request. */
  lemma {:induction false} PlaceAllFails(offers: map<string, Offer>, donors: seq<string>, segments: seq<Segment>, i: nat)
    requires forall d :: d in donors ==> d in offers
    requires i <= |segments| && PlaceAll(offers, donors, segments[..i]).Err?
    ensures PlaceAll(offers, donors, segments) == PlaceAll(offers, donors, segments[..i])
    decreases |segments| - i
  {
    if i < |segments| {
      assert segments[..i + 1][..i] == segments[..i];
      PlaceAllFails(offers, donors, segments, i + 1);
    } else {
      assert segments[..i] == segments;
    }
  }
}
