/** What the event log of a household can be relied on for: the code writes some
    events after the change they report, other households write to the same log,
    and a restore only knows what was started. */
module HouseholdLog {
  import opened Prelude
  import opened HouseholdModel
  import opened HouseholdHistory

  // ------------------------------------------------- events written afterwards

  /** `house.log` is what has been written; `waiting` are the events of changes
      that were made under the lock and are still to be written. */
  datatype Torn = Torn(house: House, waiting: seq<Event>)

  /** A call up to the end of its critical section, or one waiting event being written. */
  datatype Step = Call(op: Op) | Write(n: nat)

  /** Calls that write their event after giving the lock back. */
  predicate WritesLate(op: Op) {
    op.ApproveOp? || op.StartOp? || op.ReleaseOp?
  }

  /** What a call writes. It does not look at the log. */
  function Written(h: House, op: Op): seq<Event> {
    Apply(h.(log := []), op).log
  }

  lemma ApplyIgnoresLog(h: House, log: seq<Event>, op: Op)
    ensures Apply(h.(log := log), op) == Apply(h, op).(log := log + Written(h, op))
  {
    assert log + [] == log;
    match op
    case StartOp(id) => StartIgnoresLog(h, log, id);
    case _ =>
  }

  lemma StartIgnoresLog(h: House, log: seq<Event>, id: string)
    ensures var r := Start(h.(log := log), id);
            && (r.Ok? <==> Start(h, id).Ok?) && (r.Ok? <==> Start(h.(log := []), id).Ok?)
            && (r.Ok? ==>
                  && Start(h.(log := []), id).value.log == [AllocationStarted(id, r.value.reservations[id], h.requests[id].model, h.requests[id].donors)]
                  && r.value == Start(h, id).value.(log := log + Start(h.(log := []), id).value.log))
  {
  }

  function Without(events: seq<Event>, n: nat): seq<Event>
    requires n < |events|
  {
    events[..n] + events[n + 1..]
  }

  function Do(t: Torn, step: Step): Torn {
    match step
    case Call(op) =>
      var after := Apply(t.house, op);
      if WritesLate(op) then Torn(after.(log := t.house.log), t.waiting + Written(t.house, op)) else Torn(after, t.waiting)
    case Write(n) =>
      if n < |t.waiting| then Torn(Log(t.house, t.waiting[n]), Without(t.waiting, n)) else t
  }

  ghost function RunTorn(t: Torn, steps: seq<Step>): Torn
    decreases |steps|
  {
    if steps == [] then t else RunTorn(Do(t, steps[0]), steps[1..])
  }

  ghost predicate OrderlySteps(t: Torn, steps: seq<Step>)
    decreases |steps|
  {
    steps == [] || ((steps[0].Call? ==> Orderly(t.house, steps[0].op)) && OrderlySteps(Do(t, steps[0]), steps[1..]))
  }

  // -------------------------------------------------------- counting of events

  predicate StartsIt(e: Event, id: string) {
    e.AllocationStarted? && e.request == id
  }

  predicate ReleasesIt(e: Event, id: string) {
    e.AllocationReleased? && e.request == id
  }

  function Starts(log: seq<Event>, id: string): nat {
    if log == [] then 0 else Starts(log[..|log| - 1], id) + if StartsIt(log[|log| - 1], id) then 1 else 0
  }

  function Releases(log: seq<Event>, id: string): nat {
    if log == [] then 0 else Releases(log[..|log| - 1], id) + if ReleasesIt(log[|log| - 1], id) then 1 else 0
  }

  lemma {:induction false} CountsOfBoth(a: seq<Event>, b: seq<Event>, id: string)
    ensures Starts(a + b, id) == Starts(a, id) + Starts(b, id)
    ensures Releases(a + b, id) == Releases(a, id) + Releases(b, id)
    decreases |b|
  {
    if b == [] {
      assert a + b == a;
    } else {
      assert (a + b)[..|a + b| - 1] == a + b[..|b| - 1];
      CountsOfBoth(a, b[..|b| - 1], id);
    }
  }

  lemma CountsOfOne(e: Event, id: string)
    ensures Starts([e], id) == (if StartsIt(e, id) then 1 else 0) && Releases([e], id) == if ReleasesIt(e, id) then 1 else 0
  {
    assert [e][..0] == [];
  }

  lemma CountsWithout(events: seq<Event>, n: nat, id: string)
    requires n < |events|
    ensures Starts(events, id) == Starts([events[n]], id) + Starts(Without(events, n), id)
    ensures Releases(events, id) == Releases([events[n]], id) + Releases(Without(events, n), id)
  {
    assert events == events[..n] + ([events[n]] + events[n + 1..]);
    CountsOfBoth(events[..n], [events[n]] + events[n + 1..], id);
    CountsOfBoth([events[n]], events[n + 1..], id);
    CountsOfBoth(events[..n], events[n + 1..], id);
  }

  lemma {:induction false} CountedIsThere(log: seq<Event>, id: string)
    ensures Starts(log, id) > 0 <==> exists i :: 0 <= i < |log| && StartsIt(log[i], id)
    ensures Releases(log, id) > 0 <==> exists i :: 0 <= i < |log| && ReleasesIt(log[i], id)
    decreases |log|
  {
    if log != [] {
      var front := log[..|log| - 1];
      CountedIsThere(front, id);
      assert forall i :: 0 <= i < |front| ==> log[i] == front[i];
    }
  }

  /** The release was written before the start. */
  predicate Swapped(log: seq<Event>, id: string) {
    exists i, j :: 0 <= i < j < |log| && ReleasesIt(log[i], id) && StartsIt(log[j], id)
  }

  /** What a replay makes of a request with at most one start and one release. */
  lemma {:induction false} ReplayOfOne(log: seq<Event>, id: string)
    requires Starts(log, id) <= 1 && Releases(log, id) <= 1
    ensures id in Replay(log) <==> Starts(log, id) == 1 && (Releases(log, id) == 0 || Swapped(log, id))
    ensures id in Replay(log) ==> exists i :: 0 <= i < |log| && StartsIt(log[i], id) && Replay(log)[id] == Opened(log[i].plan, log[i].model, log[i].donors)
    decreases |log|
  {
    if log != [] {
      var front, last := log[..|log| - 1], log[|log| - 1];
      ReplayOfOne(front, id);
      CountedIsThere(front, id);
      CountedIsThere(log, id);
      assert forall i :: 0 <= i < |front| ==> log[i] == front[i];
      if StartsIt(last, id) {
        if Releases(front, id) > 0 {
          var i :| 0 <= i < |front| && ReleasesIt(front[i], id);
          assert ReleasesIt(log[i], id) && StartsIt(log[|log| - 1], id);
        }
      } else {
        assert Swapped(log, id) <==> Swapped(front, id);
        if id in Replay(front) {
          var i :| 0 <= i < |front| && StartsIt(front[i], id) && Replay(front)[id] == Opened(front[i].plan, front[i].model, front[i].donors);
          assert StartsIt(log[i], id);
        }
      }
    }
  }

  // --------------------------------------------------------------- invariant

  /** How many starts and releases of a request were logged or are waiting. */
  predicate CountsFit(t: Torn, id: string) {
    var starts, releases := Starts(t.house.log, id) + Starts(t.waiting, id), Releases(t.house.log, id) + Releases(t.waiting, id);
    if id !in t.house.requests then starts == 0 && releases == 0
    else
      match t.house.requests[id].status
      case Started => starts == 1 && releases == 0
      case Released => starts == 1 && releases == 1
      case _ => starts == 0 && releases == 0
  }

  predicate TellsPlan(h: House, e: Event) {
    e.AllocationStarted? && e.request in h.reservations && e.request in h.requests ==>
      e.plan == h.reservations[e.request] && e.donors == h.requests[e.request].donors
  }

  /** Apart from its log the household is one that calls in turn can reach. */
  ghost predicate TornInv(t: Torn) {
    && (exists log :: HouseInv(t.house.(log := log)))
    && (forall id :: CountsFit(t, id))
    && (forall e :: e in t.house.log || e in t.waiting ==> TellsPlan(t.house, e))
  }

  lemma WriteKeeps(t: Torn, n: nat)
    requires TornInv(t)
    ensures TornInv(Do(t, Write(n)))
  {
    if n < |t.waiting| {
      var after, e := Do(t, Write(n)), t.waiting[n];
      var log :| HouseInv(t.house.(log := log));
      assert after.house.(log := log) == t.house.(log := log);
      forall id
        ensures CountsFit(after, id)
      {
        assert CountsFit(t, id);
        CountsWithout(t.waiting, n, id);
        CountsOfBoth(t.house.log, [e], id);
      }
      forall x | x in after.house.log || x in after.waiting
        ensures TellsPlan(after.house, x)
      {
        assert x in t.house.log || x in t.waiting;
      }
    }
  }

  function StatusOf(h: House, id: string): Option<Status> {
    if id in h.requests then Some(h.requests[id].status) else None
  }

  predicate Early(status: Option<Status>) {
    status != Some(Started) && status != Some(Released)
  }

  /** What a change of a request's status puts in the log: one start, one release, or neither. */
  predicate Reported(before: Option<Status>, after: Option<Status>, starts: nat, releases: nat) {
    || (before == after && starts == 0 && releases == 0)
    || (Early(before) && Early(after) && after.Some? && starts == 0 && releases == 0)
    || (Early(before) && before.Some? && after == Some(Started) && starts == 1 && releases == 0)
    || (before == Some(Started) && after == Some(Released) && starts == 0 && releases == 1)
  }

  /** The events of a call tell what it makes of each request. */
  lemma CallReports(h: House, op: Op, id: string)
    requires HouseInv(h) && Orderly(h, op)
    ensures var after, events := Apply(h, op), Written(h, op);
            Reported(StatusOf(h, id), StatusOf(after, id), Starts(events, id), Releases(events, id))
  {
    match op
    case StartOp(other) => StartReports(h, other, id);
    case ReleaseOp(other, authorized) => ReleaseReports(h, other, authorized, id);
    case ApproveOp(other, pod, authorized) => ApproveReports(h, other, pod, authorized, id);
    case RequestOp(_, _, _, _) => if |Written(h, op)| == 1 { OneEvent(Written(h, op), id); }
    case NoteOp(_) => OneEvent(Written(h, op), id);
    case JoinOp(_, _, _) =>
  }

  lemma OneEvent(events: seq<Event>, id: string)
    requires |events| == 1
    ensures Starts(events, id) == (if StartsIt(events[0], id) then 1 else 0) && Releases(events, id) == if ReleasesIt(events[0], id) then 1 else 0
  {
    assert events == [events[0]];
    CountsOfOne(events[0], id);
  }

  lemma StartReports(h: House, other: string, id: string)
    requires HouseInv(h)
    ensures var after, events := Apply(h, StartOp(other)), Written(h, StartOp(other));
            Reported(StatusOf(h, id), StatusOf(after, id), Starts(events, id), Releases(events, id))
  {
    StartIgnoresLog(h, h.log, other);
    if Start(h, other).Ok? { OneEvent(Written(h, StartOp(other)), id); }
  }

  lemma ReleaseReports(h: House, other: string, authorized: bool, id: string)
    requires HouseInv(h)
    ensures var after, events := Apply(h, ReleaseOp(other, authorized)), Written(h, ReleaseOp(other, authorized));
            Reported(StatusOf(h, id), StatusOf(after, id), Starts(events, id), Releases(events, id))
  {
    if Release(h, other, authorized).Ok? { OneEvent(Written(h, ReleaseOp(other, authorized)), id); }
  }

  lemma ApproveReports(h: House, other: string, pod: string, authorized: bool, id: string)
    requires HouseInv(h)
    ensures var after, events := Apply(h, ApproveOp(other, pod, authorized)), Written(h, ApproveOp(other, pod, authorized));
            Reported(StatusOf(h, id), StatusOf(after, id), Starts(events, id), Releases(events, id))
  {
    if |Written(h, ApproveOp(other, pod, authorized))| == 1 {
      OneEvent(Written(h, ApproveOp(other, pod, authorized)), id);
      ApprovedOnce(h, other, pod);
    }
  }

  lemma ApprovedOnce(h: House, id: string, pod: string)
    requires RequestsWell(h) && id in h.requests && pod in h.requests[id].donors && pod !in h.requests[id].approved
    ensures h.requests[id].status.Pending?
  {
    assert pod in Elems(h.requests[id].donors) && pod !in Elems(h.requests[id].approved);
  }

  predicate StartIsDone(h: House, e: Event) {
    e.AllocationStarted? ==> e.request in h.requests && (h.requests[e.request].status.Started? || h.requests[e.request].status.Released?)
  }

  /** Only a start books anything, and donors stay. */
  lemma CallBookings(h: House, op: Op, id: string)
    requires Orderly(h, op) && !op.StartOp? && id in Apply(h, op).reservations
    ensures id in h.reservations && Apply(h, op).reservations[id] == h.reservations[id]
    ensures id in h.requests ==> id in Apply(h, op).requests && Apply(h, op).requests[id].donors == h.requests[id].donors
  {
  }

  lemma CallTells(h: House, op: Op, e: Event)
    requires Orderly(h, op) && ((TellsPlan(h, e) && StartIsDone(h, e)) || e in Written(h, op))
    ensures TellsPlan(Apply(h, op), e)
  {
    if op.StartOp? {
      StartTells(h, op.id, e);
    } else if e.AllocationStarted? && e.request in Apply(h, op).reservations {
      CallBookings(h, op, e.request);
    }
  }

  lemma StartTells(h: House, id: string, e: Event)
    requires (TellsPlan(h, e) && StartIsDone(h, e)) || e in Written(h, StartOp(id))
    ensures TellsPlan(Apply(h, StartOp(id)), e)
  {
    StartIgnoresLog(h, h.log, id);
    assert h.(log := h.log) == h;
  }

  /** The same call on the household with the log it would have. */
  lemma CallWithLog(t: Torn, op: Op, log: seq<Event>)
    requires Orderly(t.house, op) && HouseInv(t.house.(log := log))
    ensures var h, events := t.house.(log := log), Written(t.house, op);
            && HouseInv(Apply(h, op)) && Written(h, op) == events && Orderly(h, op)
            && Do(t, Call(op)).house.(log := log + events) == Apply(h, op)
  {
    ApplyIgnoresLog(t.house, log, op);
    ApplyKeeps(t.house.(log := log), op);
  }

  lemma CallAppends(t: Torn, op: Op)
    ensures var after, events := Do(t, Call(op)), Written(t.house, op);
            after.house.log + after.waiting == t.house.log + (if WritesLate(op) then t.waiting + events else events + t.waiting)
  {
    ApplyIgnoresLog(t.house, t.house.log, op);
    assert t.house.(log := t.house.log) == t.house;
  }

  lemma CallFits(t: Torn, op: Op, log: seq<Event>, id: string)
    requires CountsFit(t, id) && Orderly(t.house, op) && HouseInv(t.house.(log := log))
    ensures CountsFit(Do(t, Call(op)), id)
  {
    var h, events, after := t.house.(log := log), Written(t.house, op), Do(t, Call(op));
    CallWithLog(t, op, log);
    CallAppends(t, op);
    CallReports(h, op, id);
    CountsOfBoth(after.house.log, after.waiting, id);
    CountsOfBoth(t.house.log, if WritesLate(op) then t.waiting + events else events + t.waiting, id);
    CountsOfBoth(t.waiting, events, id);
    CountsOfBoth(events, t.waiting, id);
    assert after.house.requests == Apply(h, op).requests;
  }

  lemma CallKeeps(t: Torn, op: Op)
    requires TornInv(t) && Orderly(t.house, op)
    ensures TornInv(Do(t, Call(op)))
  {
    var after, events := Do(t, Call(op)), Written(t.house, op);
    var log :| HouseInv(t.house.(log := log));
    CallWithLog(t, op, log);
    CallAppends(t, op);
    assert HouseInv(after.house.(log := log + events));
    forall id
      ensures CountsFit(after, id)
    {
      CallFits(t, op, log, id);
    }
    forall e | e in after.house.log || e in after.waiting
      ensures TellsPlan(after.house, e)
    {
      assert e in after.house.log + after.waiting;
      assert e in t.house.log || e in t.waiting || e in events;
      CallTellsTorn(t, op, e);
    }
  }

  lemma CallTellsTorn(t: Torn, op: Op, e: Event)
    requires TornInv(t) && Orderly(t.house, op) && (e in t.house.log || e in t.waiting || e in Written(t.house, op))
    ensures TellsPlan(Do(t, Call(op)).house, e)
  {
    if e in t.house.log || e in t.waiting { LoggedStartIsDone(t, e); }
    CallTells(t.house, op, e);
  }

  lemma LoggedStartIsDone(t: Torn, e: Event)
    requires TornInv(t) && (e in t.house.log || e in t.waiting)
    ensures StartIsDone(t.house, e)
  {
    if e.AllocationStarted? {
      CountedIsThere(t.house.log, e.request);
      CountedIsThere(t.waiting, e.request);
      assert CountsFit(t, e.request);
    }
  }

  lemma {:induction false} TornRunKeeps(t: Torn, steps: seq<Step>)
    requires TornInv(t) && OrderlySteps(t, steps)
    ensures TornInv(RunTorn(t, steps))
    decreases |steps|
  {
    if steps != [] {
      if steps[0].Call? { CallKeeps(t, steps[0].op); } else { WriteKeeps(t, steps[0].n); }
      TornRunKeeps(Do(t, steps[0]), steps[1..]);
    }
  }

  const FRESH := Torn(EMPTY, [])

  lemma FreshInv()
    ensures TornInv(FRESH)
  {
    EmptyInv();
    assert HouseInv(FRESH.house.(log := []));
  }

  // ------------------------------------------------------ the exact condition

  /** The written events of a request tell whether it is open: a start is written
      once it is open, and once it is released either neither is written or both
      in this order. */
  predicate ToldInOrder(h: House, id: string)
    requires id in h.requests
  {
    && (h.requests[id].status.Started? ==> Starts(h.log, id) == 1)
    && (h.requests[id].status.Released? ==> Starts(h.log, id) == 0 || (Releases(h.log, id) == 1 && !Swapped(h.log, id)))
  }

  lemma OneRequestTold(t: Torn, id: string)
    requires TornInv(t)
    ensures id !in t.house.requests ==> id !in Replay(t.house.log)
    ensures id in t.house.requests ==> ((id in Replay(t.house.log) <==> t.house.requests[id].status.Started?) <==> ToldInOrder(t.house, id))
    ensures id in t.house.reservations && id in Replay(t.house.log) && id in t.house.requests ==>
              Replay(t.house.log)[id].plan == t.house.reservations[id] && Replay(t.house.log)[id].donors == t.house.requests[id].donors
  {
    assert CountsFit(t, id);
    ReplayOfOne(t.house.log, id);
    CountedIsThere(t.house.log, id);
    if id in Replay(t.house.log) {
      var i :| 0 <= i < |t.house.log| && StartsIt(t.house.log[i], id)
               && Replay(t.house.log)[id] == Opened(t.house.log[i].plan, t.house.log[i].model, t.house.log[i].donors);
      assert TellsPlan(t.house, t.house.log[i]);
    }
  }

  /** Over all calls and all orders in which their events reach the log, the log
      tells what is open exactly when each request is told in order. Busy marks,
      budgets and requests are right in any case. */
  lemma LogTellsIff(steps: seq<Step>)
    requires OrderlySteps(FRESH, steps)
    ensures var h := RunTorn(FRESH, steps).house;
            && BusyExact(h) && PlansFit(h) && RequestsWell(h)
            && (LogTells(h) <==> forall id :: id in h.requests ==> ToldInOrder(h, id))
  {
    FreshInv();
    TornRunKeeps(FRESH, steps);
    TornTellsIff(RunTorn(FRESH, steps));
  }

  lemma TornTellsIff(t: Torn)
    requires TornInv(t)
    ensures BusyExact(t.house) && PlansFit(t.house) && RequestsWell(t.house)
    ensures LogTells(t.house) <==> forall id :: id in t.house.requests ==> ToldInOrder(t.house, id)
  {
    var h := t.house;
    var log :| HouseInv(h.(log := log));
    SameButLog(h.(log := log), h);
    forall id
      ensures id in Replay(h.log) ==> id in h.requests
      ensures id in h.requests ==> ((id in Replay(h.log) <==> id in h.reservations) <==> ToldInOrder(h, id))
      ensures id in h.reservations && id in Replay(h.log) && id in h.requests ==>
                Replay(h.log)[id].plan == h.reservations[id] && Replay(h.log)[id].donors == h.requests[id].donors
    {
      OneRequestTold(t, id);
    }
    KeysTold(h);
  }

  lemma KeysTold(h: House)
    requires RequestsWell(h)
    requires forall id :: id in Replay(h.log) ==> id in h.requests
    requires forall id :: id in h.requests ==> ((id in Replay(h.log) <==> id in h.reservations) <==> ToldInOrder(h, id))
    requires forall id :: id in h.reservations && id in Replay(h.log) && id in h.requests ==>
               Replay(h.log)[id].plan == h.reservations[id] && Replay(h.log)[id].donors == h.requests[id].donors
    ensures LogTells(h) <==> forall id :: id in h.requests ==> ToldInOrder(h, id)
  {
    var open := Replay(h.log);
    if forall id :: id in h.requests ==> ToldInOrder(h, id) {
      assert forall id :: id in open.Keys <==> id in h.reservations.Keys;
    } else {
      var id :| id in h.requests && !ToldInOrder(h, id);
      assert id in open.Keys <==> id !in h.reservations.Keys;
    }
  }

  lemma SameButLog(h: House, after: House)
    requires BusyExact(h) && PlansFit(h) && RequestsWell(h) && after == h.(log := after.log)
    ensures BusyExact(after) && PlansFit(after) && RequestsWell(after)
  {
  }

  /** Once every event is written, the log tells what is open exactly when no
      release was written before its start. */
  lemma AllWrittenIff(steps: seq<Step>)
    requires OrderlySteps(FRESH, steps) && RunTorn(FRESH, steps).waiting == []
    ensures var h := RunTorn(FRESH, steps).house;
            LogTells(h) <==> forall id :: id in h.requests ==> !Swapped(h.log, id)
  {
    LogTellsIff(steps);
    FreshInv();
    TornRunKeeps(FRESH, steps);
    var t := RunTorn(FRESH, steps);
    forall id | id in t.house.requests
      ensures ToldInOrder(t.house, id) <==> !Swapped(t.house.log, id)
    {
      assert CountsFit(t, id);
      CountedIsThere(t.house.log, id);
    }
  }

  /** A pod lends its memory and gets it back; then the release is written before
      the start. */
  function GivenBack(): seq<Step> {
    [Call(Lending()[0]), Call(Lending()[1])] + ([Call(Lending()[2]), Call(Lending()[3])] + ([Call(ReleaseOp("r", true)), Write(0)] + [Write(1), Write(0)]))
  }

  const APPROVAL := AllocationApproved("r", "p")
  const START := AllocationStarted("r", LENT, "m", ["p"])
  const RELEASE := AllocationReleased("r", {"p"})

  lemma ApprovedTorn()
    ensures var t := Do(Do(Do(FRESH, Call(Lending()[0])), Call(Lending()[1])), Call(Lending()[2]));
            && t.house.offers == map["p" := Offer(8, 8, false, None)] && t.house.reservations == map[]
            && t.house.requests == map["r" := Request("m", [Segment("s", 4, ["ram"])], ["p"], ["p"], Approved)]
            && |t.house.log| == 1 && t.house.log[0].AllocationRequested? && t.waiting == [APPROVAL]
  {
    var t1 := Do(FRESH, Call(Lending()[0]));
    assert t1.house.offers == map["p" := Offer(8, 8, false, None)];
    assert DonorProblem(t1.house.offers, ["p"]).None?;
    var t2 := Do(t1, Call(Lending()[1]));
    assert t2.house.requests == map["r" := Request("m", [Segment("s", 4, ["ram"])], ["p"], [], Pending)];
    var none: seq<string> := [];
    assert none + ["p"] == ["p"];
  }

  lemma ReleasedTorn(t: Torn)
    requires t.house.offers == map["p" := Offer(8, 8, false, None)] && t.house.reservations == map[] && t.waiting == [APPROVAL]
    requires t.house.requests == map["r" := Request("m", [Segment("s", 4, ["ram"])], ["p"], ["p"], Approved)]
    ensures var after := Do(Do(t, Call(StartOp("r"))), Call(ReleaseOp("r", true)));
            after.house.reservations == map[] && after.house.log == t.house.log && after.waiting == [APPROVAL, START, RELEASE]
  {
    LentAfterStart(t.house);
    StartIgnoresLog(t.house, t.house.log, "r");
    assert t.house.(log := t.house.log) == t.house;
    var lent := Do(t, Call(StartOp("r")));
    assert lent.waiting == [APPROVAL, START];
    assert Pods(LENT) == {"p"};
    assert Freed(lent.house, "r") == {"p"};
    assert Freed(lent.house.(log := []), "r") == {"p"};
  }

  lemma WrittenTorn(t: Torn)
    requires t.waiting == [APPROVAL, START, RELEASE]
    ensures var after := Do(Do(Do(t, Write(0)), Write(1)), Write(0));
            && after.waiting == [] && after.house == t.house.(log := after.house.log)
            && after.house.log == t.house.log + [APPROVAL, RELEASE, START]
  {
    assert Without([APPROVAL, START, RELEASE], 0) == [START, RELEASE];
    assert Without([START, RELEASE], 1) == [START];
    assert Without([START], 0) == [];
  }

  /** All is written and nothing is open, but the log still tells of the allocation. */
  lemma ReleaseWrittenFirst()
    ensures OrderlySteps(FRESH, GivenBack())
    ensures var t := RunTorn(FRESH, GivenBack());
            t.waiting == [] && t.house.reservations == map[] && "r" in Replay(t.house.log) && Replay(t.house.log)["r"].plan == LENT
  {
    ApprovedTorn();
    var t1 := Do(FRESH, Call(Lending()[0]));
    var t2 := Do(t1, Call(Lending()[1]));
    var t3 := Do(t2, Call(Lending()[2]));
    ReleasedTorn(t3);
    var t5 := Do(Do(t3, Call(StartOp("r"))), Call(ReleaseOp("r", true)));
    WrittenTorn(t5);
    var log := Do(Do(Do(t5, Write(0)), Write(1)), Write(0)).house.log;
    assert log[|log| - 1] == START;
    StepsUnfold();
  }

  lemma StepsUnfold()
    ensures var t3 := Do(Do(Do(FRESH, Call(Lending()[0])), Call(Lending()[1])), Call(Lending()[2]));
            var t5 := Do(Do(t3, Call(StartOp("r"))), Call(ReleaseOp("r", true)));
            RunTorn(FRESH, GivenBack()) == Do(Do(Do(t5, Write(0)), Write(1)), Write(0))
    ensures OrderlySteps(FRESH, GivenBack())
  {
    var last := [Write(1), Write(0)];
    var later := [Call(ReleaseOp("r", true)), Write(0)] + last;
    var t2 := TwoSteps(FRESH, Call(Lending()[0]), Call(Lending()[1]), [Call(Lending()[2]), Call(Lending()[3])] + later);
    var t4 := TwoSteps(t2, Call(Lending()[2]), Call(Lending()[3]), later);
    var t6 := TwoSteps(t4, Call(ReleaseOp("r", true)), Write(0), last);
    assert last == last + [];
    var t8 := TwoSteps(t6, Write(1), Write(0), []);
  }

  lemma TwoSteps(t: Torn, a: Step, b: Step, rest: seq<Step>) returns (after: Torn)
    requires (a.Call? ==> Orderly(t.house, a.op)) && (b.Call? ==> Orderly(Do(t, a).house, b.op))
    ensures after == Do(Do(t, a), b) && RunTorn(t, [a, b] + rest) == RunTorn(after, rest)
    ensures OrderlySteps(t, [a, b] + rest) <==> OrderlySteps(after, rest)
  {
    after := Do(Do(t, a), b);
    var steps := [a, b] + rest;
    assert steps[1..] == [b] + rest && steps[1..][1..] == rest;
  }

  // --------------------------------------------------- what a restore preserves

  lemma WholeIsReplayed(log: seq<Event>)
    requires ReadWhole(log)
    ensures Replay(Window(log)) == Replay(log)
  {
    if |log| <= REPLAY_LIMIT { ShortLogIsWhole(log); } else { LongLogIsWholeIff(log); }
  }

  lemma StartedIsRestored(live: House, h: House, after: House, id: string)
    requires RequestsWell(live) && LogTells(live) && FreshCopy(h, live) && Restores(h, after) && Replay(Window(live.log)) == Replay(live.log)
    ensures id in after.requests <==> id in live.requests && live.requests[id].status == Started
    ensures id in after.requests ==> after.requests[id].status == Started && after.requests[id].donors == live.requests[id].donors
  {
    var open := Replay(live.log);
    assert id in open.Keys <==> id in live.reservations.Keys;
    assert id in open ==> after.requests[id] == RestoredRequest(open[id]);
  }

  /** A restart keeps the requests that are started, with their donors, and no
      others: pending, approved and released ones are unknown afterwards. */
  lemma RequestsRestored(live: House, h: House, after: House)
    requires HouseInv(live) && FreshCopy(h, live) && Restores(h, after) && ReadWhole(live.log)
    ensures forall id :: id in after.requests <==> id in live.requests && live.requests[id].status == Started
    ensures forall id :: id in after.requests ==> after.requests[id].donors == live.requests[id].donors && ReleasedAlike(live, after, id)
    ensures forall id, pod :: id in live.requests && live.requests[id].status != Started ==>
              Approve(after, id, pod, true) == Err(KeyError) && Start(after, id) == Err(KeyError) && Release(after, id, true) == Err(KeyError)
  {
    WholeIsReplayed(live.log);
    RestoreRebuilds(live, h, after);
    forall id
      ensures id in after.requests ==> after.requests[id].status == Started
      ensures id in after.requests <==> id in live.requests && live.requests[id].status == Started
      ensures id in after.requests ==> after.requests[id].donors == live.requests[id].donors && ReleasedAlike(live, after, id)
    {
      StartedIsRestored(live, h, after, id);
      if id in after.requests { ReleasesAlike(live, after, id); }
    }
    forall id, pod | id in live.requests && live.requests[id].status != Started
      ensures Approve(after, id, pod, true) == Err(KeyError) && Start(after, id) == Err(KeyError) && Release(after, id, true) == Err(KeyError)
    {
      assert id !in after.requests;
    }
  }

  lemma ReleasesAlike(live: House, after: House, id: string)
    requires after.reservations == live.reservations && after.offers == live.offers
    requires id in live.requests && id in after.requests && live.requests[id].status == Started && after.requests[id].status == Started
    ensures ReleasedAlike(live, after, id)
  {
  }

  /** Releasing the request succeeds in both households with the same effect. */
  predicate ReleasedAlike(live: House, after: House, id: string) {
    && Release(after, id, true).Ok? && Release(live, id, true).Ok?
    && Release(after, id, true).value.reservations == Release(live, id, true).value.reservations
    && Release(after, id, true).value.offers == Release(live, id, true).value.offers
  }

  /** A restart loses no request exactly when all of them are started. */
  lemma NothingLostIff(live: House, h: House, after: House)
    requires HouseInv(live) && FreshCopy(h, live) && Restores(h, after) && ReadWhole(live.log)
    ensures after.requests.Keys == live.requests.Keys <==> forall id :: id in live.requests ==> live.requests[id].status == Started
  {
    WholeIsReplayed(live.log);
    forall id
      ensures id in after.requests.Keys <==> id in live.requests.Keys && live.requests[id].status == Started
    {
      StartedIsRestored(live, h, after, id);
    }
  }

  /** A pending request that a restart loses. */
  lemma PendingIsLost(h: House, after: House)
    requires FreshCopy(h, Run(EMPTY, Lending()[..2])) && Restores(h, after)
    ensures var live := Run(EMPTY, Lending()[..2]);
            && OrderlyRun(EMPTY, Lending()[..2]) && HouseInv(live) && "r" in live.requests && live.requests["r"].status == Pending
            && "r" !in after.requests && Start(after, "r") == Err(KeyError)
  {
    var ops := Lending()[..2];
    assert ops == [Lending()[0], Lending()[1]] && ops[1..] == [Lending()[1]] && ops[1..][1..] == [];
    var h1 := Apply(EMPTY, ops[0]);
    assert h1.offers == map["p" := Offer(8, 8, false, None)];
    assert DonorProblem(h1.offers, ["p"]).None?;
    var live := Apply(h1, ops[1]);
    assert OrderlyRun(live, []) && OrderlyRun(h1, ops[1..]);
    assert Run(h1, ops[1..]) == Run(live, []) == live;
    EmptyInv();
    RunKeeps(EMPTY, ops);
    assert |live.log| == 1;
    RequestsRestored(live, h, after);
  }

  // ------------------------------------------------------------- shared logs

  /** The starts and releases of certain requests. */
  function Own(log: seq<Event>, ids: set<string>): seq<Event> {
    if log == [] then []
    else
      var last := log[|log| - 1];
      Own(log[..|log| - 1], ids) + if (last.AllocationStarted? || last.AllocationReleased?) && last.request in ids then [last] else []
  }

  /** A log replays each household's part by itself. */
  lemma {:induction false} ReplayOwn(log: seq<Event>, ids: set<string>, id: string)
    ensures id in Replay(Own(log, ids)) <==> id in Replay(log) && id in ids
    ensures id in Replay(Own(log, ids)) ==> Replay(Own(log, ids))[id] == Replay(log)[id]
    decreases |log|
  {
    if log != [] {
      var front, last := log[..|log| - 1], log[|log| - 1];
      ReplayOwn(front, ids, id);
      if (last.AllocationStarted? || last.AllocationReleased?) && last.request in ids {
        ReplayOneMore(Own(front, ids), last);
      } else {
        assert Own(log, ids) == Own(front, ids);
      }
    }
  }

  lemma SharedReplay(live: House, log: seq<Event>, id: string)
    requires RequestsWell(live) && LogTells(live) && Own(log, live.requests.Keys) == Own(live.log, live.requests.Keys)
    ensures id in live.reservations <==> id in Replay(log) && id in live.requests
    ensures id in live.reservations ==> Replay(log)[id].plan == live.reservations[id]
  {
    ReplayOwn(log, live.requests.Keys, id);
    ReplayOwn(live.log, live.requests.Keys, id);
    assert id in Replay(live.log).Keys <==> id in live.reservations.Keys;
  }

  /** When several households write to one log, a restore from it rebuilds a
      household's own allocations exactly when no other one has any open. */
  lemma SharedLogIff(live: House, log: seq<Event>, h: House, after: House)
    requires HouseInv(live) && Own(log, live.requests.Keys) == Own(live.log, live.requests.Keys) && |log| <= REPLAY_LIMIT
    requires h.log == log && Restores(h, after)
    ensures after.reservations == live.reservations <==> forall id :: id in Replay(log) ==> id in live.requests
  {
    ShortLogIsWhole(log);
    RestoredPlans(h, after);
    forall id
      ensures id in live.reservations <==> id in Replay(log) && id in live.requests
      ensures id in live.reservations ==> Replay(log)[id].plan == live.reservations[id]
    {
      SharedReplay(live, log, id);
    }
    SameKeysIff(live.reservations, after.reservations, live.requests.Keys);
  }

  lemma RestoredPlans(h: House, after: House)
    requires Restores(h, after)
    ensures forall id :: id in after.reservations <==> id in Replay(Window(h.log))
    ensures forall id :: id in after.reservations ==> after.reservations[id] == Replay(Window(h.log))[id].plan
  {
  }

  lemma SameKeysIff(part: map<string, Plan>, whole: map<string, Plan>, ids: set<string>)
    requires forall id :: id in part <==> id in whole && id in ids
    requires forall id :: id in part ==> whole[id] == part[id]
    ensures whole == part <==> forall id :: id in whole ==> id in ids
  {
  }

  /** A new household on the registry of one that has started an allocation. */
  lemma OthersAreRestored(h: House, after: House)
    requires h == EMPTY.(log := [START]) && Restores(h, after)
    ensures after.reservations == map["r" := LENT] && HouseInv(EMPTY) && Own([START], {}) == Own(EMPTY.log, {})
  {
    EmptyInv();
    ShortLogIsWhole([START]);
    assert [START][..0] == [];
    assert Replay([START]) == map["r" := Opened(LENT, "m", ["p"])];
  }
}
