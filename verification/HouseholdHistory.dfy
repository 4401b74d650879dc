/** What every household operation keeps, and rebuilding a household from its log. */
module HouseholdHistory {
  import opened Prelude
  import opened HouseholdModel

  lemma ReplayOneMore(log: seq<Event>, e: Event)
    ensures Replay(log + [e]) == ReplayStep(Replay(log), e)
  {
    assert (log + [e])[..|log + [e]| - 1] == log;
  }

  /** Re-announcing a pod is harmless as long as it holds no allocation. */
  lemma JoinKeeps(h: House, pod: string, ram: int, vram: int)
    requires HouseInv(h) && (pod in h.offers ==> !h.offers[pod].busy)
    ensures HouseInv(Join(h, pod, ram, vram))
  {
    var after := Join(h, pod, ram, vram);
    forall id, p | id in after.reservations && p in after.offers
      ensures WithinOffer(after.reservations[id], p, after.offers[p])
    {
      if p == pod {
        assert forall q :: q in h.reservations[id] && q.pod == pod ==> q.pod in Pods(h.reservations[id]);
      } else {
        assert WithinOffer(h.reservations[id], p, h.offers[p]);
      }
    }
  }

  lemma {:induction false} DonorsChecked(offers: map<string, Offer>, donors: seq<string>)
    ensures DonorProblem(offers, donors).None? <==> forall d :: d in donors ==> d in offers && !offers[d].busy
    ensures DonorProblem(offers, donors).Some? ==>
              var (d, e) := DonorProblem(offers, donors).value;
              d in donors && (if e == KeyError then d !in offers else e == Refused && d in offers && offers[d].busy)
    decreases |donors|
  {
    if donors != [] { DonorsChecked(offers, donors[1..]); }
  }

  lemma RequestKeeps(h: House, id: string, model: string, segments: seq<Segment>, donors: seq<string>)
    requires HouseInv(h) && id !in h.requests
    ensures HouseInv(RequestAllocation(h, id, model, segments, donors).1)
  {
    DonorsChecked(h.offers, donors);
    var after := RequestAllocation(h, id, model, segments, donors).1;
    if after.log != h.log {
      ReplayOneMore(h.log, after.log[|after.log| - 1]);
      assert after.log == h.log + [after.log[|after.log| - 1]];
    }
  }

  lemma ApproveKeeps(h: House, id: string, pod: string, authorized: bool)
    requires HouseInv(h) && Approve(h, id, pod, authorized).Ok?
    ensures HouseInv(Approve(h, id, pod, authorized).value)
  {
    var after := Approve(h, id, pod, authorized).value;
    if after != h {
      assert after.offers == h.offers && after.reservations == h.reservations;
      SameBookings(h, after);
      ApprovedRequest(h, id, pod, authorized);
      ApprovedLog(h, id, pod, authorized);
    }
  }

  lemma SameBookings(h: House, after: House)
    requires BusyExact(h) && PlansFit(h) && after.offers == h.offers && after.reservations == h.reservations
    ensures BusyExact(after) && PlansFit(after)
  {
  }

  lemma ApprovedRequest(h: House, id: string, pod: string, authorized: bool)
    requires RequestsWell(h) && Approve(h, id, pod, authorized).Ok?
    ensures RequestsWell(Approve(h, id, pod, authorized).value)
  {
    var r := h.requests[id];
    if pod !in r.approved {
      assert pod in Elems(r.donors) && pod !in Elems(r.approved);
      assert r.status == Pending;
      assert Elems(r.approved + [pod]) == Elems(r.approved) + {pod};
    }
  }

  lemma ApprovedLog(h: House, id: string, pod: string, authorized: bool)
    requires LogTells(h) && Approve(h, id, pod, authorized).Ok?
    ensures LogTells(Approve(h, id, pod, authorized).value)
  {
    ReplayOneMore(h.log, AllocationApproved(id, pod));
  }

  lemma PlanNamesFreeDonors(offers: map<string, Offer>, donors: seq<string>, segments: seq<Segment>, pod: string)
    requires forall d :: d in donors ==> d in offers
    requires PlaceAll(offers, donors, segments).Ok? && pod in Pods(PlaceAll(offers, donors, segments).value)
    ensures pod in donors && !offers[pod].busy
  {
    PlaceAllSound(offers, donors, segments);
    var plan := PlaceAll(offers, donors, segments).value;
    var p :| p in plan && p.pod == pod;
    var i :| 0 <= i < |plan| && plan[i] == p;
  }

  /** A start books free donors only, so the new plan and the open ones name
      different pods and every plan stays within its donors' offers. */
  lemma StartKeeps(h: House, id: string)
    requires HouseInv(h) && Start(h, id).Ok?
    ensures HouseInv(Start(h, id).value)
    ensures PlanSound(h.offers, h.requests[id].donors, h.requests[id].segments, Start(h, id).value.reservations[id])
  {
    var after := Start(h, id).value;
    var r := h.requests[id];
    var plan := after.reservations[id];
    PlaceAllSound(h.offers, r.donors, r.segments);
    forall pod | pod in Pods(plan)
      ensures pod in h.offers && !h.offers[pod].busy
    {
      PlanNamesFreeDonors(h.offers, r.donors, r.segments, pod);
    }
    StartBusy(h, after, id, plan);
    StartFits(h, after, id, plan);
    ReplayOneMore(h.log, AllocationStarted(id, plan, r.model, r.donors));
  }

  lemma StartBusy(h: House, after: House, id: string, plan: Plan)
    requires BusyExact(h) && id !in h.reservations
    requires forall pod :: pod in Pods(plan) ==> pod in h.offers && !h.offers[pod].busy
    requires after.offers == Marked(h.offers, Pods(plan), id) && after.reservations == h.reservations[id := plan]
    ensures BusyExact(after)
  {
    forall other, pod | other in after.reservations && pod in Pods(after.reservations[other])
      ensures pod in after.offers && after.offers[pod].busyWith == Some(other)
    {
      if other != id {
        assert pod in Pods(h.reservations[other]);
        assert h.offers[pod].busy;
      }
    }
  }

  lemma StartFits(h: House, after: House, id: string, plan: Plan)
    requires PlansFit(h) && id in h.requests && forall d :: d in h.requests[id].donors ==> d in h.offers
    requires PlanSound(h.offers, h.requests[id].donors, h.requests[id].segments, plan)
    requires after.offers == Marked(h.offers, Pods(plan), id) && after.reservations == h.reservations[id := plan]
    ensures PlansFit(after)
  {
    forall other, pod | other in after.reservations && pod in after.offers
      ensures WithinOffer(after.reservations[other], pod, after.offers[pod])
    {
      if other != id {
        assert WithinOffer(h.reservations[other], pod, h.offers[pod]);
      } else if pod in h.requests[id].donors {
        assert WithinOffer(plan, pod, h.offers[pod]);
      } else {
        forall p | p in plan
          ensures p.pod != pod
        {
          var i :| 0 <= i < |plan| && plan[i] == p;
        }
      }
    }
  }

  /** A release frees exactly the pods its plan names. */
  lemma ReleaseKeeps(h: House, id: string, authorized: bool)
    requires HouseInv(h) && Release(h, id, authorized).Ok?
    ensures HouseInv(Release(h, id, authorized).value)
    ensures Freed(h, id) == Pods(h.reservations[id])
  {
    var after := Release(h, id, authorized).value;
    ReplayOneMore(h.log, AllocationReleased(id, Freed(h, id)));
    FreedIsPlan(h, id);
    ReleaseBusy(h, after, id);
    ReleaseFits(h, after, id);
    assert RequestsWell(after);
    assert LogTells(after);
  }

  lemma FreedIsPlan(h: House, id: string)
    requires BusyExact(h) && id in h.reservations
    ensures Freed(h, id) == Pods(h.reservations[id])
  {
  }

  lemma ReleaseFits(h: House, after: House, id: string)
    requires PlansFit(h) && id in h.reservations
    requires after.offers == Unmarked(h.offers, Freed(h, id)) && after.reservations == h.reservations - {id}
    ensures PlansFit(after)
  {
    forall other, pod | other in after.reservations && pod in after.offers
      ensures WithinOffer(after.reservations[other], pod, after.offers[pod])
    {
      assert WithinOffer(h.reservations[other], pod, h.offers[pod]);
    }
  }

  lemma ReleaseBusy(h: House, after: House, id: string)
    requires BusyExact(h) && id in h.reservations
    requires after.offers == Unmarked(h.offers, Pods(h.reservations[id])) && after.reservations == h.reservations - {id}
    ensures BusyExact(after)
  {
    forall other, pod | other in after.reservations && pod in Pods(after.reservations[other])
      ensures pod in after.offers && after.offers[pod].busyWith == Some(other)
    {
      assert pod in Pods(h.reservations[other]);
    }
  }

  // ---------------------------------------------------------------- histories

  datatype Op =
    | JoinOp(pod: string, ram: int, vram: int)
    | RequestOp(id: string, model: string, segments: seq<Segment>, donors: seq<string>)
    | ApproveOp(id: string, pod: string, authorized: bool)
    | StartOp(id: string)
    | ReleaseOp(id: string, authorized: bool)
    | NoteOp(action: string)

  function Apply(h: House, op: Op): House {
    match op
    case JoinOp(pod, ram, vram) => Join(h, pod, ram, vram)
    case RequestOp(id, model, segments, donors) => RequestAllocation(h, id, model, segments, donors).1
    case ApproveOp(id, pod, authorized) =>
      var r := Approve(h, id, pod, authorized);
      if r.Ok? then r.value else h
    case StartOp(id) =>
      var r := Start(h, id);
      if r.Ok? then r.value else h
    case ReleaseOp(id, authorized) =>
      var r := Release(h, id, authorized);
      if r.Ok? then r.value else h
    case NoteOp(action) => Log(h, OtherEvent(action))
  }

  /** No busy pod re-joins, and every request id is new. */
  predicate Orderly(h: House, op: Op) {
    match op
    case JoinOp(pod, _, _) => pod in h.offers ==> !h.offers[pod].busy
    case RequestOp(id, _, _, _) => id !in h.requests
    case _ => true
  }

  ghost predicate OrderlyRun(h: House, ops: seq<Op>)
    decreases |ops|
  {
    ops == [] || (Orderly(h, ops[0]) && OrderlyRun(Apply(h, ops[0]), ops[1..]))
  }

  ghost function Run(h: House, ops: seq<Op>): House
    decreases |ops|
  {
    if ops == [] then h else Run(Apply(h, ops[0]), ops[1..])
  }

  lemma ApplyKeeps(h: House, op: Op)
    requires HouseInv(h) && Orderly(h, op)
    ensures HouseInv(Apply(h, op))
  {
    match op
    case JoinOp(pod, ram, vram) => JoinKeeps(h, pod, ram, vram);
    case RequestOp(id, model, segments, donors) => RequestKeeps(h, id, model, segments, donors);
    case ApproveOp(id, pod, authorized) => if Approve(h, id, pod, authorized).Ok? { ApproveKeeps(h, id, pod, authorized); }
    case StartOp(id) => if Start(h, id).Ok? { StartKeeps(h, id); }
    case ReleaseOp(id, authorized) => if Release(h, id, authorized).Ok? { ReleaseKeeps(h, id, authorized); }
    case NoteOp(action) => ReplayOneMore(h.log, OtherEvent(action));
  }

  /** In every state reached without a busy pod re-joining, a pod is busy
      exactly when one open plan names it, plans fit the offers, and the log
      replays to the open allocations. */
  lemma {:induction false} RunKeeps(h: House, ops: seq<Op>)
    requires HouseInv(h) && OrderlyRun(h, ops)
    ensures HouseInv(Run(h, ops))
    decreases |ops|
  {
    if ops != [] {
      ApplyKeeps(h, ops[0]);
      RunKeeps(Apply(h, ops[0]), ops[1..]);
    }
  }

  lemma EmptyInv()
    ensures HouseInv(EMPTY)
  {
  }

  /** A busy pod that re-joins loses its mark while its plan stays open: from
      any reachable state, joining keeps the invariant exactly when the pod is free. */
  lemma JoinKeepsIff(h: House, pod: string, ram: int, vram: int)
    requires HouseInv(h)
    ensures HouseInv(Join(h, pod, ram, vram)) <==> (pod in h.offers ==> !h.offers[pod].busy)
  {
    if pod in h.offers && h.offers[pod].busy {
      var id := h.offers[pod].busyWith.value;
      assert pod in Pods(h.reservations[id]);
      assert pod in Pods(Join(h, pod, ram, vram).reservations[id]);
    } else {
      JoinKeeps(h, pod, ram, vram);
    }
  }

  /** A household in which pod "p" has lent its memory to request "r", one call at a time. */
  function Lending(): seq<Op> {
    [JoinOp("p", 8, 8), RequestOp("r", "m", [Segment("s", 4, ["ram"])], ["p"]), ApproveOp("r", "p", true), StartOp("r")]
  }

  const LENT: Plan := [Placement("s", "p", "ram", 4)]

  lemma LentAfterStart(h: House)
    requires h.offers == map["p" := Offer(8, 8, false, None)] && h.reservations == map[]
    requires h.requests == map["r" := Request("m", [Segment("s", 4, ["ram"])], ["p"], ["p"], Approved)]
    ensures var after := Apply(h, StartOp("r"));
            && after.offers == map["p" := Offer(8, 8, true, Some("r"))] && after.reservations == map["r" := LENT]
            && |after.log| == |h.log| + 1
  {
    LentPlan(h.offers);
    assert Pods(LENT) == {"p"};
    assert Marked(h.offers, Pods(LENT), "r") == map["p" := Offer(8, 8, true, Some("r"))];
  }

  lemma LentPlan(offers: map<string, Offer>)
    requires offers == map["p" := Offer(8, 8, false, None)]
    ensures PlaceAll(offers, ["p"], [Segment("s", 4, ["ram"])]) == Ok(LENT)
  {
    var s := Segment("s", 4, ["ram"]);
    assert Used([], "p", "ram") == 0;
    assert FitTier(offers["p"], [], "p", ["ram"], 4) == Fits("ram");
    assert FitDonor(offers, [], ["p"], s) == Ok(Placement("s", "p", "ram", 4));
    assert [s][..0] == [] && [s][0] == s;
    assert PlaceAll(offers, ["p"], []) == Ok([]);
    var none: Plan := [];
    assert none + [Placement("s", "p", "ram", 4)] == LENT;
  }

  lemma LentIsReachable()
    ensures OrderlyRun(EMPTY, Lending())
    ensures var h := Run(EMPTY, Lending());
            && HouseInv(h) && h.offers == map["p" := Offer(8, 8, true, Some("r"))] && h.reservations == map["r" := LENT] && |h.log| == 3
  {
    var ops := Lending();
    var h1 := Apply(EMPTY, ops[0]);
    assert h1.offers == map["p" := Offer(8, 8, false, None)];
    var h2 := Apply(h1, ops[1]);
    assert DonorProblem(h1.offers, ["p"]).None?;
    assert h2.requests == map["r" := Request("m", [Segment("s", 4, ["ram"])], ["p"], [], Pending)];
    var h3 := Apply(h2, ops[2]);
    var none: seq<string> := [];
    assert none + ["p"] == ["p"];
    assert h3.requests == map["r" := Request("m", [Segment("s", 4, ["ram"])], ["p"], ["p"], Approved)];
    var h4 := Apply(h3, ops[3]);
    LentAfterStart(h3);
    assert ops[1..][1..][1..][1..] == [];
    assert OrderlyRun(h3, ops[3..]) && OrderlyRun(h2, ops[2..]) && OrderlyRun(h1, ops[1..]);
    assert Run(h3, ops[3..]) == h4;
    assert Run(h2, ops[2..]) == h4;
    assert Run(h1, ops[1..]) == h4;
    assert Run(EMPTY, ops) == h4;
    EmptyInv();
    RunKeeps(EMPTY, ops);
  }

  /** The pod that lent its memory re-joins: it reads as free while its plan is open. */
  lemma BusyRejoin()
    ensures var h := Run(EMPTY, Lending());
            && OrderlyRun(EMPTY, Lending()) && HouseInv(h) && "p" in h.offers && h.offers["p"].busy
            && var after := Apply(h, JoinOp("p", 8, 8));
               !HouseInv(after) && !after.offers["p"].busy && "r" in after.reservations && "p" in Pods(after.reservations["r"])
  {
    LentIsReachable();
    JoinKeepsIff(Run(EMPTY, Lending()), "p", 8, 8);
  }

  // ---------------------------------------------------------------- restoring

  /** Some event of the log starts or releases this request. */
  predicate Touched(log: seq<Event>, id: string) {
    exists e | e in log :: (e.AllocationStarted? || e.AllocationReleased?) && e.request == id
  }

  lemma TouchedOneMore(log: seq<Event>, e: Event, id: string)
    ensures Touched(log + [e], id) <==> Touched(log, id) || ((e.AllocationStarted? || e.AllocationReleased?) && e.request == id)
  {
    assert forall x :: x in log + [e] <==> x in log || x == e;
  }

  /** A suffix decides every request it mentions; the rest is as before it. */
  lemma {:induction false} ReplaySuffix(a: seq<Event>, b: seq<Event>, id: string)
    ensures Touched(b, id) ==> (id in Replay(a + b) <==> id in Replay(b)) && (id in Replay(b) ==> Replay(a + b)[id] == Replay(b)[id])
    ensures !Touched(b, id) ==> id !in Replay(b)
    ensures !Touched(b, id) ==> (id in Replay(a + b) <==> id in Replay(a)) && (id in Replay(a) ==> Replay(a + b)[id] == Replay(a)[id])
    decreases |b|
  {
    if b == [] {
      assert a + b == a;
    } else {
      var front, last := b[..|b| - 1], b[|b| - 1];
      assert b == front + [last] && a + b == (a + front) + [last];
      ReplaySuffix(a, front, id);
      ReplayOneMore(front, last);
      ReplayOneMore(a + front, last);
      TouchedOneMore(front, last, id);
    }
  }

  /** Reading only the end of the log rebuilds the open allocations exactly
      when each allocation open before the cut is mentioned after it. */
  lemma WindowSuffices(a: seq<Event>, b: seq<Event>)
    ensures Replay(b) == Replay(a + b) <==> forall id :: id in Replay(a) ==> Touched(b, id)
  {
    if forall id :: id in Replay(a) ==> Touched(b, id) {
      forall id
        ensures id in Replay(b) <==> id in Replay(a + b)
        ensures id in Replay(b) ==> Replay(b)[id] == Replay(a + b)[id]
      {
        ReplaySuffix(a, b, id);
      }
    } else {
      var id :| id in Replay(a) && !Touched(b, id);
      ReplaySuffix(a, b, id);
    }
  }

  /** Offers re-announced by the pods: the same sizes, nothing marked busy yet. */
  ghost predicate Reannounced(offers: map<string, Offer>, live: map<string, Offer>) {
    && offers.Keys == live.Keys
    && forall pod :: pod in offers ==> offers[pod].ram == live[pod].ram && offers[pod].vram == live[pod].vram
  }

  /** A fresh household that shares the log of a live one. */
  ghost predicate FreshCopy(h: House, live: House) {
    h.log == live.log && h.requests == map[] && h.reservations == map[] && Reannounced(h.offers, live.offers)
  }

  /** Restoring from the log rebuilds the live state: the same open plans, the
      same busy pods for the same requests, and requests that can be released. */
  lemma RestoreRebuilds(live: House, h: House, after: House)
    requires HouseInv(live) && FreshCopy(h, live) && Restores(h, after)
    requires Replay(Window(live.log)) == Replay(live.log)
    ensures after.reservations == live.reservations && after.offers == live.offers
    ensures HouseInv(after)
    ensures forall id :: id in after.reservations ==> id in after.requests && after.requests[id].status == Started
  {
    var open := Replay(live.log);
    assert after.reservations == live.reservations;
    forall pod | pod in live.offers
      ensures after.offers[pod] == live.offers[pod]
    {
      RestoredOffer(live, h, after, pod);
    }
    assert after.offers == live.offers;
    forall id | id in after.requests
      ensures id in open && after.requests[id] == RestoredRequest(open[id])
    {
    }
  }

  lemma RestoredOffer(live: House, h: House, after: House, pod: string)
    requires BusyExact(live) && RequestsWell(live) && LogTells(live) && FreshCopy(h, live) && Restores(h, after)
    requires Replay(Window(live.log)) == Replay(live.log) && pod in live.offers
    ensures after.offers[pod] == live.offers[pod]
  {
    var open := Replay(live.log);
    assert forall id :: id in open ==> id in live.reservations && open[id].plan == live.reservations[id];
    if after.offers[pod].busy {
      var id := after.offers[pod].busyWith.value;
      assert pod in Pods(live.reservations[id]);
    }
    if live.offers[pod].busy {
      var id := live.offers[pod].busyWith.value;
      assert pod in Pods(open[id].plan);
    }
  }

  /** A log no longer than the window is read whole. */
  lemma ShortLogIsWhole(log: seq<Event>)
    requires |log| <= REPLAY_LIMIT
    ensures Replay(Window(log)) == Replay(log)
  {
  }

  /** Events that concern no allocation. */
  function Notes(n: nat): seq<Op> {
    seq(n, _ => NoteOp(""))
  }

  lemma {:induction false} RunNotes(h: House, n: nat)
    ensures OrderlyRun(h, Notes(n))
    ensures var after := Run(h, Notes(n)); after == h.(log := after.log) && after.log == h.log + seq(n, _ => OtherEvent(""))
    decreases n
  {
    if n > 0 {
      var next := Apply(h, NoteOp(""));
      assert Notes(n)[0] == NoteOp("") && Notes(n)[1..] == Notes(n - 1);
      RunNotes(next, n - 1);
      assert [OtherEvent("")] + seq(n - 1, _ => OtherEvent("")) == seq(n, _ => OtherEvent(""));
    } else {
      assert Notes(0) == [];
    }
  }

  lemma {:induction false} ReplayNotes(n: nat)
    ensures Replay(seq(n, _ => OtherEvent(""))) == map[]
    decreases n
  {
    if n > 0 {
      var log := seq(n, _ => OtherEvent(""));
      assert log[..n - 1] == seq(n - 1, _ => OtherEvent(""));
      ReplayNotes(n - 1);
    }
  }

  lemma {:induction false} RunAfterRun(h: House, a: seq<Op>, b: seq<Op>)
    requires OrderlyRun(h, a) && OrderlyRun(Run(h, a), b)
    ensures OrderlyRun(h, a + b) && Run(h, a + b) == Run(Run(h, a), b)
    decreases |a|
  {
    if a == [] {
      assert a + b == b;
    } else {
      assert (a + b)[0] == a[0] && (a + b)[1..] == a[1..] + b;
      RunAfterRun(Apply(h, a[0]), a[1..], b);
    }
  }

  /** A pod lends its memory and then nothing but other events is logged, as many
      as a restore reads: the open allocation is no longer seen. */
  function ForgottenStart(): seq<Op> {
    Lending() + Notes(REPLAY_LIMIT)
  }

  lemma StartFallsOutOfTheWindow(h: House, after: House)
    requires FreshCopy(h, Run(EMPTY, ForgottenStart())) && Restores(h, after)
    ensures var live := Run(EMPTY, ForgottenStart());
            && OrderlyRun(EMPTY, ForgottenStart()) && HouseInv(live) && |live.log| == REPLAY_LIMIT + 3
            && Replay(Window(live.log)) != Replay(live.log)
            && live.reservations == map["r" := LENT] && after.reservations == map[]
  {
    LentIsReachable();
    var lent := Run(EMPTY, Lending());
    RunNotes(lent, REPLAY_LIMIT);
    RunAfterRun(EMPTY, Lending(), Notes(REPLAY_LIMIT));
    EmptyInv();
    RunKeeps(EMPTY, ForgottenStart());
    var live := Run(EMPTY, ForgottenStart());
    assert Window(live.log) == seq(REPLAY_LIMIT, _ => OtherEvent(""));
    ReplayNotes(REPLAY_LIMIT);
    assert "r" in live.reservations;
  }

  /** The window is read whole exactly when the log is short or every allocation
      open at the cut is mentioned since. */
  ghost predicate ReadWhole(log: seq<Event>) {
    |log| <= REPLAY_LIMIT || forall id :: id in Replay(log[..|log| - REPLAY_LIMIT]) ==> Touched(Window(log), id)
  }

  /** A restore rebuilds the live allocations, and with them offers, marks and
      owners, exactly when the log is read whole. */
  lemma RestoreRebuildsIff(live: House, h: House, after: House)
    requires HouseInv(live) && FreshCopy(h, live) && Restores(h, after)
    ensures after.reservations == live.reservations <==> ReadWhole(live.log)
    ensures after.reservations == live.reservations && after.offers == live.offers && HouseInv(after) <==> ReadWhole(live.log)
  {
    if |live.log| <= REPLAY_LIMIT { ShortLogIsWhole(live.log); } else { LongLogIsWholeIff(live.log); }
    if ReadWhole(live.log) {
      RestoreRebuilds(live, h, after);
    } else {
      UnreadIsLost(live, h, after);
    }
  }

  lemma UnreadIsLost(live: House, h: House, after: House)
    requires HouseInv(live) && FreshCopy(h, live) && Restores(h, after) && !ReadWhole(live.log)
    ensures after.reservations != live.reservations
  {
    var n := |live.log| - REPLAY_LIMIT;
    var a, b := live.log[..n], live.log[n..];
    assert live.log == a + b && Window(live.log) == b;
    var id :| id in Replay(a) && !Touched(b, id);
    ReplaySuffix(a, b, id);
    assert id in live.reservations && id !in after.reservations;
  }

  /** A longer log is read well exactly when every allocation open at the cut is mentioned since. */
  lemma LongLogIsWholeIff(log: seq<Event>)
    requires |log| > REPLAY_LIMIT
    ensures Replay(Window(log)) == Replay(log) <==>
            forall id :: id in Replay(log[..|log| - REPLAY_LIMIT]) ==> Touched(Window(log), id)
  {
    var n := |log| - REPLAY_LIMIT;
    assert log == log[..n] + log[n..];
    WindowSuffices(log[..n], log[n..]);
  }

  /** Releasing requests one after the other. */
  ghost function ReleaseAll(h: House, ids: seq<string>): House
    decreases |ids|
  {
    if ids == [] then h
    else
      var r := Release(h, ids[0], true);
      ReleaseAll(if r.Ok? then r.value else h, ids[1..])
  }

  lemma ReleaseStep(h: House, id: string)
    requires HouseInv(h) && id in h.reservations
    ensures var r := Release(h, id, true);
            r.Ok? && HouseInv(r.value) && r.value.reservations == h.reservations - {id} && r.value.offers.Keys == h.offers.Keys
  {
    assert h.requests[id].status == Started;
    ReleaseKeeps(h, id, true);
  }

  lemma NoneOpenNoneBusy(h: House)
    requires BusyExact(h) && h.reservations == map[]
    ensures forall pod :: pod in h.offers ==> !h.offers[pod].busy
  {
  }

  /** From any such state, releasing the open requests frees every pod. */
  lemma {:induction false} ReleaseAllFrees(h: House, ids: seq<string>)
    requires HouseInv(h) && NoDuplicates(ids) && Elems(ids) == h.reservations.Keys
    ensures var after := ReleaseAll(h, ids);
            && after.reservations == map[] && after.offers.Keys == h.offers.Keys
            && forall pod :: pod in after.offers ==> !after.offers[pod].busy
    decreases |ids|
  {
    if ids == [] {
      assert h.reservations.Keys == {};
      NoneOpenNoneBusy(h);
    } else {
      ListedTail(ids);
      ReleaseStep(h, ids[0]);
      ReleaseAllFrees(Release(h, ids[0], true).value, ids[1..]);
    }
  }

  lemma ListedTail(ids: seq<string>)
    requires ids != [] && NoDuplicates(ids)
    ensures NoDuplicates(ids[1..]) && Elems(ids[1..]) == Elems(ids) - {ids[0]} && ids[0] in Elems(ids)
  {
    assert ids == [ids[0]] + ids[1..];
    assert ids[0] !in ids[1..];
  }
}
