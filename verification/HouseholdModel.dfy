/** The household as a value: offers, requests, open reservations and the event
    log they can be rebuilt from. */
module HouseholdModel {
  import opened Prelude

  datatype Offer = Offer(ram: int, vram: int, busy: bool, busyWith: Option<string>)

  datatype Segment = Segment(name: string, bytesNeeded: int, tiers: seq<string>)

  datatype Status = Pending | Approved | Started | Released

  datatype Request = Request(model: string, segments: seq<Segment>, donors: seq<string>, approved: seq<string>, status: Status)

  datatype Placement = Placement(segment: string, pod: string, tier: string, bytes: int)

  type Plan = seq<Placement>

  datatype Event =
    | AllocationRequested(request: string)
    | AllocationRefused(pod: string)
    | AllocationApproved(request: string, pod: string)
    | AllocationStarted(request: string, plan: Plan, model: string, donors: seq<string>)
    | AllocationReleased(request: string, pods: set<string>)
    | OtherEvent(action: string)

  datatype House = House(
    offers: map<string, Offer>, requests: map<string, Request>, reservations: map<string, Plan>, log: seq<Event>)

  datatype Error = KeyError | PermissionError | ValueError | RuntimeError | Refused

  const EMPTY := House(map[], map[], map[], [])

  /** How far back a restore reads the log. */
  const REPLAY_LIMIT := 1000000

  // ---------------------------------------------------------------- placing

  /** Bytes of a plan in one tier of one pod. */
  function Used(plan: Plan, pod: string, tier: string): int {
    if plan == [] then 0
    else
      var last := plan[|plan| - 1];
      Used(plan[..|plan| - 1], pod, tier) + if last.pod == pod && last.tier == tier then last.bytes else 0
  }

  function Capacity(offer: Offer, tier: string): int {
    if tier == "vram" then offer.vram else offer.ram
  }

  predicate KnownTier(tier: string) {
    tier == "vram" || tier == "ram"
  }

  datatype Fit = Fits(tier: string) | NoFit | BadTier

  /** The first preferred tier with room, stopping at an unknown tier. */
  function FitTier(offer: Offer, plan: Plan, pod: string, tiers: seq<string>, bytes: int): Fit {
    if tiers == [] then NoFit
    else if !KnownTier(tiers[0]) then BadTier
    else if Used(plan, pod, tiers[0]) + bytes <= Capacity(offer, tiers[0]) then Fits(tiers[0])
    else FitTier(offer, plan, pod, tiers[1..], bytes)
  }

  /** The first donor that is free and has room. */
  function FitDonor(offers: map<string, Offer>, plan: Plan, donors: seq<string>, s: Segment): Result<Placement, Error>
    requires forall d :: d in donors ==> d in offers
  {
    if donors == [] then Err(RuntimeError)
    else if offers[donors[0]].busy then FitDonor(offers, plan, donors[1..], s)
    else
      match FitTier(offers[donors[0]], plan, donors[0], s.tiers, s.bytesNeeded)
      case Fits(tier) => Ok(Placement(s.name, donors[0], tier, s.bytesNeeded))
      case BadTier => Err(ValueError)
      case NoFit => FitDonor(offers, plan, donors[1..], s)
  }

  /** Places the segments one after the other; later ones see what earlier ones claimed. */
  function PlaceAll(offers: map<string, Offer>, donors: seq<string>, segments: seq<Segment>): Result<Plan, Error>
    requires forall d :: d in donors ==> d in offers
  {
    if segments == [] then Ok([])
    else
      match PlaceAll(offers, donors, segments[..|segments| - 1])
      case Err(e) => Err(e)
      case Ok(plan) =>
        match FitDonor(offers, plan, donors, segments[|segments| - 1])
        case Err(e) => Err(e)
        case Ok(p) => Ok(plan + [p])
  }

  ghost predicate WithinOffer(plan: Plan, pod: string, offer: Offer) {
    forall tier :: tier in {"vram", "ram"} && (exists p :: p in plan && p.pod == pod && p.tier == tier) ==>
      Used(plan, pod, tier) <= Capacity(offer, tier)
  }

  lemma {:induction false} FitTierSound(offer: Offer, plan: Plan, pod: string, tiers: seq<string>, bytes: int)
    ensures var f := FitTier(offer, plan, pod, tiers, bytes);
            && (f.Fits? ==> f.tier in tiers && KnownTier(f.tier) && Used(plan, pod, f.tier) + bytes <= Capacity(offer, f.tier))
            && (f.NoFit? ==> forall t :: t in tiers ==> KnownTier(t) && Capacity(offer, t) < Used(plan, pod, t) + bytes)
    decreases |tiers|
  {
    if tiers != [] { FitTierSound(offer, plan, pod, tiers[1..], bytes); }
  }

  /** A placement uses a free donor with room in a tier the segment asked for;
      no placement means no donor had room. */
  lemma {:induction false} FitDonorSound(offers: map<string, Offer>, plan: Plan, donors: seq<string>, s: Segment)
    requires forall d :: d in donors ==> d in offers
    ensures var r := FitDonor(offers, plan, donors, s);
            && (r.Ok? ==>
                  && r.value.segment == s.name && r.value.bytes == s.bytesNeeded
                  && r.value.pod in donors && !offers[r.value.pod].busy
                  && r.value.tier in s.tiers && KnownTier(r.value.tier)
                  && Used(plan, r.value.pod, r.value.tier) + s.bytesNeeded <= Capacity(offers[r.value.pod], r.value.tier))
            && (r == Err(RuntimeError) ==> forall d, t :: d in donors && !offers[d].busy && t in s.tiers ==>
                  KnownTier(t) && Capacity(offers[d], t) < Used(plan, d, t) + s.bytesNeeded)
    decreases |donors|
  {
    if donors != [] {
      FitTierSound(offers[donors[0]], plan, donors[0], s.tiers, s.bytesNeeded);
      FitDonorSound(offers, plan, donors[1..], s);
    }
  }

  /** Every segment is placed once, in order, on a free donor, and no tier of
      any donor is overbooked: VRAM and RAM are counted apart. */
  ghost predicate PlanSound(offers: map<string, Offer>, donors: seq<string>, segments: seq<Segment>, plan: Plan)
    requires forall d :: d in donors ==> d in offers
  {
    && |plan| == |segments|
    && (forall i :: 0 <= i < |plan| ==>
          && plan[i].segment == segments[i].name && plan[i].bytes == segments[i].bytesNeeded
          && plan[i].pod in donors && !offers[plan[i].pod].busy
          && plan[i].tier in segments[i].tiers && KnownTier(plan[i].tier))
    && (forall d :: d in donors ==> WithinOffer(plan, d, offers[d]))
  }

  lemma WithinOneMore(plan: Plan, p: Placement, pod: string, offer: Offer)
    requires WithinOffer(plan, pod, offer)
    requires p.pod == pod ==> Used(plan, pod, p.tier) + p.bytes <= Capacity(offer, p.tier)
    ensures WithinOffer(plan + [p], pod, offer)
  {
    var longer := plan + [p];
    assert longer[..|longer| - 1] == plan;
    forall tier | tier in {"vram", "ram"} && exists q :: q in longer && q.pod == pod && q.tier == tier
      ensures Used(longer, pod, tier) <= Capacity(offer, tier)
    {
      var q :| q in longer && q.pod == pod && q.tier == tier;
      if !(p.pod == pod && p.tier == tier) { assert q in plan; }
    }
  }

  lemma {:induction false} PlaceAllSound(offers: map<string, Offer>, donors: seq<string>, segments: seq<Segment>)
    requires forall d :: d in donors ==> d in offers
    requires PlaceAll(offers, donors, segments).Ok?
    ensures PlanSound(offers, donors, segments, PlaceAll(offers, donors, segments).value)
    decreases |segments|
  {
    if segments != [] {
      var front, last := segments[..|segments| - 1], segments[|segments| - 1];
      PlaceAllSound(offers, donors, front);
      var plan := PlaceAll(offers, donors, front).value;
      FitDonorSound(offers, plan, donors, last);
      var p := FitDonor(offers, plan, donors, last).value;
      forall d | d in donors
        ensures WithinOffer(plan + [p], d, offers[d])
      {
        WithinOneMore(plan, p, d, offers[d]);
      }
    }
  }

  // ------------------------------------------------------------- operations

  function Pods(plan: Plan): set<string> {
    set p | p in plan :: p.pod
  }

  function Log(h: House, e: Event): House {
    h.(log := h.log + [e])
  }

  function Join(h: House, pod: string, ram: int, vram: int): House {
    h.(offers := h.offers[pod := Offer(ram, vram, false, None)])
  }

  /** What the donor list is refused for, in list order. */
  function DonorProblem(offers: map<string, Offer>, donors: seq<string>): Option<(string, Error)> {
    if donors == [] then None
    else if donors[0] !in offers then Some((donors[0], KeyError))
    else if offers[donors[0]].busy then Some((donors[0], Refused))
    else DonorProblem(offers, donors[1..])
  }

  /** A request under a new id. A busy donor refuses it, and the refusal is logged. */
  function RequestAllocation(h: House, id: string, model: string, segments: seq<Segment>, donors: seq<string>): (Option<Error>, House) {
    match DonorProblem(h.offers, donors)
    case Some((pod, KeyError)) => (Some(KeyError), h)
    case Some((pod, e)) => (Some(e), Log(h, AllocationRefused(pod)))
    case None =>
      (None, Log(h.(requests := h.requests[id := Request(model, segments, donors, [], Pending)]), AllocationRequested(id)))
  }

  function Approve(h: House, id: string, pod: string, authorized: bool): Result<House, Error> {
    if !authorized then Err(PermissionError)
    else if id !in h.requests then Err(KeyError)
    else
      var r := h.requests[id];
      if pod !in r.donors then Err(PermissionError)
      else if pod in r.approved then Ok(h)
      else
        var approved := r.approved + [pod];
        var status := if Elems(approved) == Elems(r.donors) then Approved else r.status;
        Ok(Log(h.(requests := h.requests[id := r.(approved := approved, status := status)]), AllocationApproved(id, pod)))
  }

  function Marked(offers: map<string, Offer>, pods: set<string>, id: string): map<string, Offer> {
    map pod | pod in offers :: if pod in pods then offers[pod].(busy := true, busyWith := Some(id)) else offers[pod]
  }

  function Start(h: House, id: string): Result<House, Error> {
    if id !in h.requests then Err(KeyError)
    else
      var r := h.requests[id];
      if r.status != Approved then Err(PermissionError)
      else if exists d | d in r.donors :: d !in h.offers then Err(KeyError)
      else
        match PlaceAll(h.offers, r.donors, r.segments)
        case Err(e) => Err(e)
        case Ok(plan) =>
          Ok(Log(h.(offers := Marked(h.offers, Pods(plan), id), reservations := h.reservations[id := plan],
                    requests := h.requests[id := r.(status := Started)]),
                 AllocationStarted(id, plan, r.model, r.donors)))
  }

  function Freed(h: House, id: string): set<string> {
    if id in h.reservations then
      set pod | pod in Pods(h.reservations[id]) && pod in h.offers && h.offers[pod].busyWith == Some(id)
    else {}
  }

  function Unmarked(offers: map<string, Offer>, pods: set<string>): map<string, Offer> {
    map pod | pod in offers :: if pod in pods then offers[pod].(busy := false, busyWith := None) else offers[pod]
  }

  function Release(h: House, id: string, authorized: bool): Result<House, Error> {
    if !authorized then Err(PermissionError)
    else if id !in h.requests then Err(KeyError)
    else if h.requests[id].status != Started then Err(PermissionError)
    else
      var freed := Freed(h, id);
      Ok(Log(h.(offers := Unmarked(h.offers, freed), reservations := h.reservations - {id},
                requests := h.requests[id := h.requests[id].(status := Released)]),
             AllocationReleased(id, freed)))
  }

  // ----------------------------------------------------------------- replay

  datatype Opened = Opened(plan: Plan, model: string, donors: seq<string>)

  function ReplayStep(open: map<string, Opened>, e: Event): map<string, Opened> {
    if e.AllocationStarted? then open[e.request := Opened(e.plan, e.model, e.donors)]
    else if e.AllocationReleased? then open - {e.request}
    else open
  }

  /** The starts without a later release. */
  function Replay(log: seq<Event>): map<string, Opened> {
    if log == [] then map[] else ReplayStep(Replay(log[..|log| - 1]), log[|log| - 1])
  }

  /** The most recent part of the log that a restore reads. */
  function Window(log: seq<Event>): seq<Event> {
    if |log| <= REPLAY_LIMIT then log else log[|log| - REPLAY_LIMIT..]
  }

  function PlanPods(o: Opened): set<string> {
    Pods(o.plan)
  }

  function RestoredRequest(o: Opened): Request {
    Request(o.model, seq(|o.plan|, i requires 0 <= i < |o.plan| => Segment(o.plan[i].segment, o.plan[i].bytes, [o.plan[i].tier])),
            o.donors, o.donors, Started)
  }

  /** What a restore leaves: the open plans, their requests, and BUSY exactly
      on the offered pods some open plan names. */
  ghost predicate Restores(h: House, after: House) {
    var open := Replay(Window(h.log));
    && after.log == h.log
    && after.reservations == (map id | id in open :: open[id].plan)
    && after.requests == h.requests + (map id | id in open :: RestoredRequest(open[id]))
    && after.offers.Keys == h.offers.Keys
    && forall pod :: pod in h.offers ==>
         && after.offers[pod].ram == h.offers[pod].ram && after.offers[pod].vram == h.offers[pod].vram
         && (after.offers[pod].busy <==> after.offers[pod].busyWith.Some?)
         && (after.offers[pod].busy <==> exists id :: id in open && pod in Pods(open[id].plan))
         && (after.offers[pod].busyWith.Some? ==>
               var id := after.offers[pod].busyWith.value; id in open && pod in Pods(open[id].plan))
  }

  // -------------------------------------------------------------- invariant

  /** A pod is busy exactly when an open plan names it, and only one does. */
  ghost predicate BusyExact(h: House) {
    && (forall pod :: pod in h.offers ==> (h.offers[pod].busy <==> h.offers[pod].busyWith.Some?))
    && (forall pod :: pod in h.offers && h.offers[pod].busyWith.Some? ==>
          h.offers[pod].busyWith.value in h.reservations && pod in Pods(h.reservations[h.offers[pod].busyWith.value]))
    && (forall id, pod {:trigger pod in Pods(h.reservations[id])} :: id in h.reservations && pod in Pods(h.reservations[id]) ==>
          pod in h.offers && h.offers[pod].busyWith == Some(id))
  }

  ghost predicate PlansFit(h: House) {
    forall id, pod :: id in h.reservations && pod in h.offers ==> WithinOffer(h.reservations[id], pod, h.offers[pod])
  }

  ghost predicate RequestsWell(h: House) {
    && (forall id :: id in h.requests ==>
          && (forall d :: d in h.requests[id].donors ==> d in h.offers)
          && (h.requests[id].status != Pending ==> Elems(h.requests[id].donors) <= Elems(h.requests[id].approved))
          && (h.requests[id].status == Started <==> id in h.reservations))
    && (forall id :: id in h.reservations ==> id in h.requests)
  }

  /** The log tells exactly what is open. */
  ghost predicate LogTells(h: House) {
    var open := Replay(h.log);
    && open.Keys == h.reservations.Keys
    && forall id :: id in open && id in h.requests ==>
         open[id].plan == h.reservations[id] && open[id].donors == h.requests[id].donors
  }

  ghost predicate HouseInv(h: House) {
    BusyExact(h) && PlansFit(h) && RequestsWell(h) && LogTells(h)
  }
}
