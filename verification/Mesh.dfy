/** Hop budgets and deadlines that travel with a message between pods. */
module Mesh {
  import opened Prelude

  /** A field that came off the wire: absent, null, a number, something that does
      not parse, or something too large for the conversion. */
  datatype Wire<T> = Missing | Null | Reads(value: T) | Unreadable | Overflows

  /** `visited`; anything falsy reads as the empty list. */
  datatype Trail = Pods(pods: seq<string>) | NotAList(iterable: bool)

  datatype Envelope = Envelope(
    budget: Wire<int>, visited: Trail, deadline: Wire<real>, started: Wire<real>,
    trace: Option<string>, body: string,
    manifest: Option<string>, principal: Option<string>, protocol: Option<int>, sig: Option<string>)

  datatype Refusal = Malformed | ExpiredDeadline | Unbounded | Cycle | HopExhausted

  datatype Verdict = Act | Refuse(why: Refusal) | Raises

  predicate Given<T>(w: Wire<T>) {
    !w.Missing? && !w.Null?
  }

  /** Whether the deadline has passed; unenforced unless both halves are given. */
  function DeadlineVerdict(e: Envelope, now: real): Verdict {
    if !Given(e.deadline) || !Given(e.started) then Act
    else if e.started.Unreadable? then Refuse(Malformed)
    else if e.started.Overflows? then Raises
    else if e.deadline.Unreadable? then Refuse(Malformed)
    else if e.deadline.Overflows? then Raises
    else if now > e.started.value + e.deadline.value then Refuse(ExpiredDeadline)
    else Act
  }

  function Judge(e: Envelope, pod: string, now: real, forwarding: bool): Verdict {
    if e.visited.NotAList? then Refuse(Malformed)
    else if DeadlineVerdict(e, now) != Act then DeadlineVerdict(e, now)
    else if !Given(e.budget) then (if forwarding then Refuse(Unbounded) else Act)
    else if e.budget.Unreadable? then Refuse(Malformed)
    else if e.budget.Overflows? then Raises
    else if forwarding && pod in e.visited.pods then Refuse(Cycle)
    else if (if forwarding then e.budget.value - 1 else e.budget.value) <= 0 then Refuse(HopExhausted)
    else Act
  }

  /** The identity a pod stamps on what it sends; `mac` signs when there is a key. */
  datatype Identity = Identity(pod: string, principal: string, manifest: string, protocol: int, key: Option<string>)

  function Stamped<T>(field: Option<T>, own: T): Option<T> {
    if field.None? then Some(own) else field
  }

  /** Fills what is missing, then signs. A time that is present is kept. */
  function Stamp(e: Envelope, me: Identity, now: real, mac: (string, Envelope) -> string): Envelope {
    var full := e.(manifest := Stamped(e.manifest, me.manifest), principal := Stamped(e.principal, me.principal),
                   protocol := Stamped(e.protocol, me.protocol),
                   started := if e.started.Missing? then Reads(now.Floor as real) else e.started);
    if me.key.None? then full else full.(sig := Some(mac(me.key.value, full.(sig := None))))
  }

  /** A new message under a caller's bounds; a bound not given stays missing. */
  function Published(body: string, budget: Option<int>, deadline: Option<int>, visited: seq<string>, trace: Option<string>,
                     me: Identity, now: real, mac: (string, Envelope) -> string): Envelope {
    Stamp(Envelope(if budget.Some? then Reads(budget.value) else Missing, Pods(visited),
                   if deadline.Some? then Reads(deadline.value as real) else Missing,
                   Missing, trace, body, None, None, None, None), me, now, mac)
  }

  datatype Fault = NotBounded | TopicRefused | TooLarge | NotIterable

  datatype Departure = Sent(envelope: Envelope) | Dropped(why: Refusal) | Failed(fault: Fault)

  /** Passing a received envelope one hop further. */
  function Departs(e: Envelope, me: Identity, topicAllowed: bool, body: Option<string>, now: real, mac: (string, Envelope) -> string): Departure {
    if e.visited.NotAList? && !e.visited.iterable then Failed(NotIterable)
    else
      var verdict := Judge(e, me.pod, now, true);
      if verdict.Raises? then Failed(TooLarge)
      else if verdict == Refuse(Unbounded) then Failed(NotBounded)
      else if verdict.Refuse? then Dropped(verdict.why)
      else if !topicAllowed then Failed(TopicRefused)
      else
        assert verdict == Act;
        Sent(Stamp(Onward(e, me, body), me, now, mac))
  }

  function Onward(e: Envelope, me: Identity, body: Option<string>): Envelope
    requires e.budget.Reads? && e.visited.Pods?
  {
    e.(budget := Reads(e.budget.value - 1), visited := Pods(e.visited.pods + [me.pod]),
       body := if body.Some? then body.value else e.body, sig := None,
       principal := Some(me.principal), manifest := Some(me.manifest))
  }

  // ------------------------------------------------------------- one decision

  predicate Overdue(e: Envelope, now: real) {
    e.deadline.Reads? && e.started.Reads? && now > e.started.value + e.deadline.value
  }

  /** Whether the pair of time fields can be checked at all, if both are given. */
  predicate Timed(e: Envelope) {
    Given(e.deadline) && Given(e.started) ==> e.deadline.Reads? && e.started.Reads?
  }

  /** An envelope goes one hop further exactly when it is well formed, in time,
      has a hop to spare after this one, and the pod has not passed it on before. */
  lemma DepartsIff(e: Envelope, me: Identity, topicAllowed: bool, body: Option<string>, now: real, mac: (string, Envelope) -> string)
    ensures Departs(e, me, topicAllowed, body, now, mac).Sent? <==>
              && topicAllowed && e.visited.Pods? && me.pod !in e.visited.pods
              && e.budget.Reads? && e.budget.value >= 2 && Timed(e) && !Overdue(e, now)
  {
  }

  /** On arrival an unbounded envelope is accepted, a bounded one with a hop left. */
  lemma ArrivesIff(e: Envelope, pod: string, now: real)
    ensures Judge(e, pod, now, false) == Act <==>
              && e.visited.Pods? && Timed(e) && !Overdue(e, now)
              && (Given(e.budget) ==> e.budget.Reads? && e.budget.value >= 1)
  {
  }

  /** The two time fields are both given, and the first that fails to read is too large. */
  predicate TimeOverflows(e: Envelope) {
    Given(e.deadline) && Given(e.started) && (e.started.Overflows? || (e.started.Reads? && e.deadline.Overflows?))
  }

  /** A decision raises instead of returning exactly when a number that is read
      is too large: one of the two times, or, in time, the budget. */
  lemma JudgeRaisesIff(e: Envelope, pod: string, now: real, forwarding: bool)
    ensures Judge(e, pod, now, forwarding).Raises? <==>
              e.visited.Pods? && (TimeOverflows(e) || (Timed(e) && !Overdue(e, now) && e.budget.Overflows?))
  {
  }

  /** Passing an envelope on raises exactly for a trail that is a plain number,
      for a number too large, for a missing budget and for a closed topic, each
      only where the earlier ones do not apply. */
  lemma DepartFaultsIff(e: Envelope, me: Identity, topicAllowed: bool, body: Option<string>, now: real, mac: (string, Envelope) -> string)
    ensures var d := Departs(e, me, topicAllowed, body, now, mac);
            && (d == Failed(NotIterable) <==> e.visited == NotAList(false))
            && (d == Failed(TooLarge) <==> e.visited.Pods? && (TimeOverflows(e) || (Timed(e) && !Overdue(e, now) && e.budget.Overflows?)))
            && (d == Failed(NotBounded) <==> e.visited.Pods? && Timed(e) && !Overdue(e, now) && !Given(e.budget))
            && (d == Failed(TopicRefused) <==> !topicAllowed && Departs(e, me, true, body, now, mac).Sent?)
  {
  }

  /** An envelope for each fault: a number for the trail, a time too large, and a
      budget too large. All three name the sender, the budget or the time only. */
  lemma RaisingEnvelopes(me: Identity, now: real, mac: (string, Envelope) -> string)
    ensures var plain := Envelope(Reads(3), Pods([]), Reads(1.0), Reads(now), None, "", None, None, None, None);
            && Departs(plain, me, true, None, now, mac).Sent?
            && Departs(plain.(visited := NotAList(false)), me, true, None, now, mac) == Failed(NotIterable)
            && Departs(plain.(deadline := Overflows), me, true, None, now, mac) == Failed(TooLarge)
            && Departs(plain.(budget := Overflows), me, true, None, now, mac) == Failed(TooLarge)
            && Judge(plain.(budget := Overflows), me.pod, now, false) == Raises
  {
  }

  /** The two sides cannot drift apart: what one pod sends on, every pod accepts
      at that moment, and later exactly until the original deadline. */
  lemma SentIsAccepted(e: Envelope, me: Identity, body: Option<string>, now: real, mac: (string, Envelope) -> string, pod: string, later: real)
    requires Departs(e, me, true, body, now, mac).Sent? && later >= now && e.started.Reads?
    ensures var out := Departs(e, me, true, body, now, mac).envelope;
            && Judge(out, pod, now, false) == Act
            && (Judge(out, pod, later, false) == Act <==> !Overdue(e, later))
  {
  }

  // ------------------------------------------------------------ one message's life

  /** `e` is `root` after some hops: the budget spent is the trail grown, by
      distinct pods new to the trail, and the clock still counts from the start. */
  ghost predicate Descends(root: Envelope, e: Envelope) {
    && root.budget.Reads? && root.visited.Pods? && e.budget.Reads? && e.visited.Pods?
    && root.visited.pods <= e.visited.pods
    && e.budget.value + |e.visited.pods| == root.budget.value + |root.visited.pods|
    && (forall i, j :: |root.visited.pods| <= i < |e.visited.pods| && 0 <= j < i ==> e.visited.pods[j] != e.visited.pods[i])
    && (e != root ==> e.budget.value >= 1)
    && e.started == root.started && e.deadline == root.deadline && e.trace == root.trace
  }

  ghost predicate Bounded(root: Envelope) {
    root.budget.Reads? && root.visited.Pods? && root.started.Reads?
  }

  function Hops(root: Envelope, e: Envelope): int
    requires root.visited.Pods? && e.visited.Pods?
  {
    |e.visited.pods| - |root.visited.pods|
  }

  /** Each hop keeps the descent and spends exactly one unit of the budget. */
  lemma HopKeeps(root: Envelope, e: Envelope, me: Identity, topicAllowed: bool, body: Option<string>, now: real, mac: (string, Envelope) -> string)
    requires Bounded(root) && Descends(root, e) && Departs(e, me, topicAllowed, body, now, mac).Sent?
    ensures var out := Departs(e, me, topicAllowed, body, now, mac).envelope;
            && Descends(root, out) && out.budget == Reads(e.budget.value - 1) && Hops(root, out) == Hops(root, e) + 1
            && !Overdue(root, now)
  {
  }

  /** The depth stays below the initial budget, and the forwarding pods are distinct. */
  lemma DepthBounded(root: Envelope, e: Envelope)
    requires Bounded(root) && Descends(root, e)
    ensures e == root || 0 <= Hops(root, e) < root.budget.value
    ensures NoDuplicates(e.visited.pods[|root.visited.pods|..])
    ensures forall p :: p in e.visited.pods[|root.visited.pods|..] ==> p !in root.visited.pods
  {
    var n, v := |root.visited.pods|, e.visited.pods;
    forall p | p in v[n..]
      ensures p !in root.visited.pods
    {
      var i :| 0 <= i < |v[n..]| && v[n..][i] == p;
      assert v[n + i] == p;
      assert forall j :: 0 <= j < n ==> root.visited.pods[j] == v[j];
    }
  }

  // -------------------------------------------------------------- the network

  /** A message on its way to one receiving pod. */
  datatype Delivery = Delivery(to: Identity, envelope: Envelope)

  /** What a handler passes on: a topic it may or may not use, and who hears it. */
  datatype Send = Send(topicAllowed: bool, body: Option<string>, hears: seq<Identity>)

  datatype Event = Event(index: nat, now: real, sends: seq<Send>)

  function FanOut(sends: seq<Send>): nat {
    if sends == [] then 0 else |sends[0].hears| + FanOut(sends[1..])
  }

  /** The deliveries one forward call causes. */
  function SentTo(d: Departure, hears: seq<Identity>): (out: seq<Delivery>)
    ensures |out| <= |hears|
    ensures forall m :: m in out ==> d.Sent? && m.envelope == d.envelope
  {
    if d.Sent? then seq(|hears|, i requires 0 <= i < |hears| => Delivery(hears[i], d.envelope)) else []
  }

  function Passed(e: Envelope, me: Identity, now: real, sends: seq<Send>, mac: (string, Envelope) -> string): (out: seq<Delivery>)
    ensures |out| <= FanOut(sends)
  {
    if sends == [] then []
    else SentTo(Departs(e, me, sends[0].topicAllowed, sends[0].body, now, mac), sends[0].hears) + Passed(e, me, now, sends[1..], mac)
  }

  /** One delivery is taken off the wire; a handler runs only if it is accepted. */
  function Step(pending: seq<Delivery>, ev: Event, mac: (string, Envelope) -> string): seq<Delivery>
    requires ev.index < |pending|
  {
    var d := pending[ev.index];
    var caused := if Judge(d.envelope, d.to.pod, ev.now, false) == Act then Passed(d.envelope, d.to, ev.now, ev.sends, mac) else [];
    pending[..ev.index] + caused + pending[ev.index + 1..]
  }

  ghost predicate AllDescend(root: Envelope, pending: seq<Delivery>) {
    forall i :: 0 <= i < |pending| ==> Descends(root, pending[i].envelope)
  }

  lemma {:induction false} PassedDescend(root: Envelope, e: Envelope, me: Identity, now: real, sends: seq<Send>, mac: (string, Envelope) -> string)
    requires Bounded(root) && Descends(root, e)
    ensures AllDescend(root, Passed(e, me, now, sends, mac))
    ensures forall m :: m in Passed(e, me, now, sends, mac) ==> m.envelope.budget == Reads(e.budget.value - 1)
    ensures Passed(e, me, now, sends, mac) != [] ==> e.budget.value >= 2
    decreases |sends|
  {
    if sends != [] {
      var d := Departs(e, me, sends[0].topicAllowed, sends[0].body, now, mac);
      if d.Sent? { HopKeeps(root, e, me, sends[0].topicAllowed, sends[0].body, now, mac); }
      PassedDescend(root, e, me, now, sends[1..], mac);
    }
  }

  /** The most deliveries a message with budget `b` can cause, itself included. */
  function Weight(fan: nat, b: int): (w: nat)
    ensures w >= 1
    decreases if b > 0 then b else 0
  {
    if b <= 1 then 1 else 1 + fan * Weight(fan, b - 1)
  }

  function Load(fan: nat, pending: seq<Delivery>): nat {
    if pending == [] then 0
    else Weight(fan, BudgetOf(pending[0].envelope)) + Load(fan, pending[1..])
  }

  function BudgetOf(e: Envelope): int {
    if e.budget.Reads? then e.budget.value else 0
  }

  lemma {:induction false} LoadOfSum(fan: nat, a: seq<Delivery>, b: seq<Delivery>)
    ensures Load(fan, a + b) == Load(fan, a) + Load(fan, b)
    decreases |a|
  {
    if a == [] {
      assert a + b == b;
    } else {
      assert (a + b)[1..] == a[1..] + b;
      LoadOfSum(fan, a[1..], b);
    }
  }

  lemma {:induction false} LoadOfEqual(fan: nat, ds: seq<Delivery>, w: nat)
    requires forall m :: m in ds ==> Weight(fan, BudgetOf(m.envelope)) == w
    ensures Load(fan, ds) == |ds| * w
    decreases |ds|
  {
    if ds != [] {
      assert ds[0] in ds;
      assert forall m :: m in ds[1..] ==> m in ds;
      LoadOfEqual(fan, ds[1..], w);
      OneMoreTimes(|ds| - 1, w);
    }
  }

  lemma OneMoreTimes(n: nat, w: nat)
    ensures w + n * w == (n + 1) * w
  {
  }

  lemma AtMostFan(n: nat, fan: nat, w: nat)
    requires n <= fan
    ensures n * w <= fan * w
  {
  }

  lemma LoadReplaced(fan: nat, before: seq<Delivery>, d: Delivery, caused: seq<Delivery>, after: seq<Delivery>)
    ensures Load(fan, before + caused + after) == Load(fan, before + [d] + after) - Weight(fan, BudgetOf(d.envelope)) + Load(fan, caused)
  {
    LoadOfSum(fan, before + [d], after);
    LoadOfSum(fan, before, [d]);
    LoadOfSum(fan, before + caused, after);
    LoadOfSum(fan, before, caused);
    assert [d][1..] == [];
    assert Load(fan, [d]) == Weight(fan, BudgetOf(d.envelope)) + Load(fan, []);
  }

  /** All that one delivery causes weighs less than the delivery. */
  lemma CausedWeighsLess(root: Envelope, d: Delivery, now: real, sends: seq<Send>, fan: nat, mac: (string, Envelope) -> string)
    requires Bounded(root) && Descends(root, d.envelope) && FanOut(sends) <= fan
    ensures var caused := Passed(d.envelope, d.to, now, sends, mac);
            AllDescend(root, caused) && Load(fan, caused) < Weight(fan, BudgetOf(d.envelope))
  {
    var caused := Passed(d.envelope, d.to, now, sends, mac);
    var b := d.envelope.budget.value;
    PassedDescend(root, d.envelope, d.to, now, sends, mac);
    if caused != [] {
      var w := Weight(fan, b - 1);
      LoadOfEqual(fan, caused, w);
      AtMostFan(|caused|, fan, w);
      assert Weight(fan, b) == 1 + fan * w;
    }
  }

  /** Taking a delivery off the wire lowers the load, whatever its handler does. */
  lemma StepLowersLoad(root: Envelope, pending: seq<Delivery>, ev: Event, fan: nat, mac: (string, Envelope) -> string)
    requires Bounded(root) && AllDescend(root, pending) && ev.index < |pending| && FanOut(ev.sends) <= fan
    ensures AllDescend(root, Step(pending, ev, mac))
    ensures Load(fan, Step(pending, ev, mac)) < Load(fan, pending)
  {
    var d := pending[ev.index];
    var before, after := pending[..ev.index], pending[ev.index + 1..];
    var accepted := Judge(d.envelope, d.to.pod, ev.now, false) == Act;
    var caused := if accepted then Passed(d.envelope, d.to, ev.now, ev.sends, mac) else [];
    CausedWeighsLess(root, d, ev.now, ev.sends, fan, mac);
    LoadReplaced(fan, before, d, caused, after);
    assert pending == before + [d] + after;
  }

  ghost predicate Runs(pending: seq<Delivery>, events: seq<Event>, fan: nat, mac: (string, Envelope) -> string)
    decreases |events|
  {
    events == [] ||
    (events[0].index < |pending| && FanOut(events[0].sends) <= fan && Runs(Step(pending, events[0], mac), events[1..], fan, mac))
  }

  ghost function After(pending: seq<Delivery>, events: seq<Event>, fan: nat, mac: (string, Envelope) -> string): seq<Delivery>
    requires Runs(pending, events, fan, mac)
    decreases |events|
  {
    if events == [] then pending else After(Step(pending, events[0], mac), events[1..], fan, mac)
  }

  /** In every run, in any order of delivery and whatever the handlers pass on,
      each message on the wire descends from the one that was published, and the
      run ends after a number of deliveries fixed in advance. */
  lemma {:induction false} ForwardingQuiesces(root: Envelope, pending: seq<Delivery>, events: seq<Event>, fan: nat, mac: (string, Envelope) -> string)
    requires Bounded(root) && AllDescend(root, pending) && Runs(pending, events, fan, mac)
    ensures AllDescend(root, After(pending, events, fan, mac))
    ensures |events| + Load(fan, After(pending, events, fan, mac)) <= Load(fan, pending)
    decreases |events|
  {
    if events != [] {
      StepLowersLoad(root, pending, events[0], fan, mac);
      ForwardingQuiesces(root, Step(pending, events[0], mac), events[1..], fan, mac);
    }
  }

  /** From one publish with budget `b` heard by `n` pods, at most `n` times the
      weight of `b` deliveries happen; a run that cannot go on has an empty wire. */
  lemma PublishQuiesces(text: string, budget: int, deadline: Option<int>, visited: seq<string>, trace: Option<string>,
                        me: Identity, now: real, hears: seq<Identity>, events: seq<Event>, fan: nat, mac: (string, Envelope) -> string)
    requires var root := Published(text, Some(budget), deadline, visited, trace, me, now, mac); Runs(SentTo(Sent(root), hears), events, fan, mac)
    ensures |events| <= |hears| * Weight(fan, budget)
    ensures var root := Published(text, Some(budget), deadline, visited, trace, me, now, mac);
            var wire := After(SentTo(Sent(root), hears), events, fan, mac);
            && Bounded(root) && AllDescend(root, wire)
            && (|events| == |hears| * Weight(fan, budget) ==> wire == [])
            && forall i :: 0 <= i < |wire| && wire[i].envelope != root ==> 0 <= Hops(root, wire[i].envelope) < budget
  {
    BoundedQuiesces(Published(text, Some(budget), deadline, visited, trace, me, now, mac), hears, events, fan, mac);
  }

  /** The same for any bounded envelope put on the wire. */
  lemma BoundedQuiesces(root: Envelope, hears: seq<Identity>, events: seq<Event>, fan: nat, mac: (string, Envelope) -> string)
    requires Bounded(root)
    requires Runs(SentTo(Sent(root), hears), events, fan, mac)
    ensures |events| <= |hears| * Weight(fan, root.budget.value)
    ensures var wire := After(SentTo(Sent(root), hears), events, fan, mac);
            && AllDescend(root, wire)
            && (|events| == |hears| * Weight(fan, root.budget.value) ==> wire == [])
            && forall i :: 0 <= i < |wire| && wire[i].envelope != root ==> 0 <= Hops(root, wire[i].envelope) < root.budget.value
  {
    var start := SentTo(Sent(root), hears);
    ForwardingQuiesces(root, start, events, fan, mac);
    LoadOfEqual(fan, start, Weight(fan, root.budget.value));
    var wire := After(start, events, fan, mac);
    if wire != [] { assert Load(fan, wire) >= 1; }
    forall i | 0 <= i < |wire| && wire[i].envelope != root
      ensures 0 <= Hops(root, wire[i].envelope) < root.budget.value
    {
      DepthBounded(root, wire[i].envelope);
    }
  }

  // ------------------------------------------------------------- one endpoint

  /** What an endpoint makes of an arriving message. */
  datatype Arrival = Delivered | Unsigned | BadEnvelope | TooLate | OutOfHops

  /** The signature covers everything but itself; without a key all pass. */
  predicate SignatureOk(e: Envelope, me: Identity, mac: (string, Envelope) -> string) {
    me.key.None? || e.sig == Some(mac(me.key.value, e.(sig := None)))
  }

  function Arrives(e: Envelope, me: Identity, now: real, mac: (string, Envelope) -> string): Arrival {
    if e.protocol != Some(me.protocol) || e.manifest.None? || e.principal.None? then BadEnvelope
    else if !SignatureOk(e, me, mac) then Unsigned
    else
      match Judge(e, me.pod, now, false)
      case Act => Delivered
      case Raises => BadEnvelope
      case Refuse(why) =>
        if why.Malformed? then BadEnvelope else if why.ExpiredDeadline? then TooLate else OutOfHops
  }

  /** An envelope that was delivered can be passed on without a conversion error
      at any later time: only one that never passed the arrival check raises. */
  lemma DeliveredNeverRaises(e: Envelope, me: Identity, at: real, topicAllowed: bool, body: Option<string>, now: real, mac: (string, Envelope) -> string)
    requires Arrives(e, me, at, mac) == Delivered && at <= now
    ensures var d := Departs(e, me, topicAllowed, body, now, mac); d != Failed(TooLarge) && d != Failed(NotIterable)
  {
  }

  /** A message between two endpoints that share a protocol and a key gets
      through exactly while it has a hop left and its deadline has not passed. */
  lemma SharedKeyArrives(e: Envelope, from: Identity, to: Identity, topicAllowed: bool, body: Option<string>, now: real, later: real, mac: (string, Envelope) -> string)
    requires Departs(e, from, topicAllowed, body, now, mac).Sent? && e.started.Reads? && e.protocol == Some(to.protocol)
    requires from.key == to.key
    ensures var out := Departs(e, from, topicAllowed, body, now, mac).envelope;
            Arrives(out, to, later, mac) == Delivered <==> !Overdue(e, later)
  {
    var out := Departs(e, from, topicAllowed, body, now, mac).envelope;
    if from.key.Some? {
      assert out.(sig := None).(sig := None) == out.(sig := None);
    }
  }

  class MeshEndpoint {
    const me: Identity
    const mac: (string, Envelope) -> string
    var badEnvelopes: nat
    var unsignedRejected: nat
    var published: nat
    var received: nat
    var hopExhausted: nat
    var expiredEnvelopes: nat
    var forwarded: nat

    constructor (me: Identity, mac: (string, Envelope) -> string)
      ensures this.me == me && this.mac == mac
      ensures badEnvelopes == unsignedRejected == published == received == hopExhausted == expiredEnvelopes == forwarded == 0
    {
      this.me, this.mac := me, mac;
      badEnvelopes, unsignedRejected, published, received, hopExhausted, expiredEnvelopes, forwarded := 0, 0, 0, 0, 0, 0, 0;
    }

    /** Messages that arrived, by the counters. */
    ghost function Arrived(): nat
      reads this
    {
      badEnvelopes + received + hopExhausted + expiredEnvelopes
    }

    /** Stamps, signs and hands a message to the broker. */
    method PublishRaw(e: Envelope, now: real) returns (sent: Envelope)
      modifies this`published
      ensures sent == Stamp(e, me, now, mac) && published == old(published) + 1
    {
      sent := e;
      if sent.manifest.None? { sent := sent.(manifest := Some(me.manifest)); }
      if sent.principal.None? { sent := sent.(principal := Some(me.principal)); }
      if sent.protocol.None? { sent := sent.(protocol := Some(me.protocol)); }
      if sent.started.Missing? { sent := sent.(started := Reads(now.Floor as real)); }
      if me.key.Some? { sent := sent.(sig := Some(mac(me.key.value, sent.(sig := None)))); }
      published := published + 1;
    }

    /** Every refused envelope is counted once, under its reason; one that
        cannot be bounded at all raises and is not counted. */
    method Forward(e: Envelope, topicAllowed: bool, body: Option<string>, now: real) returns (d: Departure)
      modifies this
      ensures d == Departs(e, me, topicAllowed, body, now, mac)
      ensures forwarded == old(forwarded) + (if d.Sent? then 1 else 0) && published == old(published) + (if d.Sent? then 1 else 0)
      ensures badEnvelopes == old(badEnvelopes) + (if d == Dropped(Malformed) then 1 else 0)
      ensures expiredEnvelopes == old(expiredEnvelopes) + (if d == Dropped(ExpiredDeadline) then 1 else 0)
      ensures hopExhausted == old(hopExhausted) + (if d == Dropped(Cycle) || d == Dropped(HopExhausted) then 1 else 0)
      ensures received == old(received) && unsignedRejected == old(unsignedRejected)
    {
      if e.visited.NotAList? && !e.visited.iterable { return Failed(NotIterable); }
      var verdict := Judge(e, me.pod, now, true);
      match verdict {
        case Raises => return Failed(TooLarge);
        case Refuse(why) =>
          match why {
            case Unbounded => return Failed(NotBounded);
            case Malformed => badEnvelopes := badEnvelopes + 1;
            case ExpiredDeadline => expiredEnvelopes := expiredEnvelopes + 1;
            case _ => hopExhausted := hopExhausted + 1;
          }
          return Dropped(why);
        case Act =>
          if !topicAllowed { return Failed(TopicRefused); }
          var onward := e.(sig := None);
          onward := onward.(budget := Reads(e.budget.value - 1), visited := Pods(e.visited.pods + [me.pod]));
          if body.Some? { onward := onward.(body := body.value); }
          onward := onward.(principal := Some(me.principal), manifest := Some(me.manifest));
          var sent := PublishRaw(onward, now);
          forwarded := forwarded + 1;
          return Sent(sent);
      }
    }

    /** Every arriving message is counted exactly once. */
    method OnMessage(e: Envelope, now: real) returns (delivered: bool)
      modifies this
      ensures delivered <==> Arrives(e, me, now, mac) == Delivered
      ensures Arrived() == old(Arrived()) + 1
      ensures received == old(received) + (if delivered then 1 else 0)
      ensures unsignedRejected == old(unsignedRejected) + (if Arrives(e, me, now, mac) == Unsigned then 1 else 0)
      ensures expiredEnvelopes == old(expiredEnvelopes) + (if Arrives(e, me, now, mac) == TooLate then 1 else 0)
      ensures hopExhausted == old(hopExhausted) + (if Arrives(e, me, now, mac) == OutOfHops then 1 else 0)
      ensures published == old(published) && forwarded == old(forwarded)
    {
      delivered := false;
      if e.protocol != Some(me.protocol) || e.manifest.None? || e.principal.None? {
        badEnvelopes := badEnvelopes + 1;
        return;
      }
      if me.key.Some? && (e.sig.None? || e.sig.value != mac(me.key.value, e.(sig := None))) {
        badEnvelopes, unsignedRejected := badEnvelopes + 1, unsignedRejected + 1;
        return;
      }
      var verdict := Judge(e, me.pod, now, false);
      if verdict == Refuse(Malformed) || verdict == Raises {
        badEnvelopes := badEnvelopes + 1;
      } else if verdict == Refuse(ExpiredDeadline) {
        expiredEnvelopes := expiredEnvelopes + 1;
      } else if verdict != Act {
        hopExhausted := hopExhausted + 1;
      } else {
        received := received + 1;
        delivered := true;
      }
    }
  }
}
