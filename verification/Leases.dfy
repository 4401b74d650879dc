/** Leader leases with terms and fencing tokens. */
module Leases {
  import opened Prelude

  datatype Lease = Lease(holder: string, term: nat, fence: nat, expires: real)

  datatype State = State(lease: Option<Lease>, term: nat, fence: nat)

  datatype Fault = NoHolder | Held | InvalidFence

  const Initial: State := State(None, 0, 0)

  function Acquire(s: State, holder: string, now: real, span: real): (State, Result<Lease, Fault>) {
    if holder == "" then (s, Err(NoHolder))
    else if s.lease.Some? && s.lease.value.expires > now && s.lease.value.holder != holder then (s, Err(Held))
    else
      var lease := Lease(holder, s.term + 1, s.fence + 1, now + span);
      (State(Some(lease), s.term + 1, s.fence + 1), Ok(lease))
  }

  function Renew(s: State, holder: string, fence: int, now: real, span: real): (State, Result<Lease, Fault>) {
    if s.lease.None? || s.lease.value.holder != holder || s.lease.value.fence != fence then (s, Err(InvalidFence))
    else
      var lease := Lease(holder, s.lease.value.term, s.lease.value.fence, now + span);
      (s.(lease := Some(lease)), Ok(lease))
  }

  predicate Validates(s: State, holder: string, fence: int, now: real) {
    s.lease.Some? && s.lease.value.holder == holder && s.lease.value.fence == fence && s.lease.value.expires > now
  }

  datatype Event = Acquires(holder: string, now: real) | Renews(holder: string, fence: int, now: real)

  function Step(s: State, e: Event, span: real): (State, Result<Lease, Fault>) {
    match e
    case Acquires(holder, now) => Acquire(s, holder, now, span)
    case Renews(holder, fence, now) => Renew(s, holder, fence, now, span)
  }

  function After(s: State, events: seq<Event>, span: real): State
    decreases |events|
  {
    if events == [] then s else After(Step(s, events[0], span).0, events[1..], span)
  }

  /** The clock never runs back, and never to before `from`. */
  ghost predicate Clocked(events: seq<Event>, from: real) {
    forall i, j :: 0 <= i <= j < |events| ==> from <= events[i].now <= events[j].now
  }

  ghost predicate Good(s: State) {
    && s.term == s.fence
    && (s.lease.Some? ==> s.lease.value.holder != "" && s.lease.value.term == s.term && s.lease.value.fence == s.fence && s.fence >= 1)
    && (s.lease.None? ==> s.fence == 0)
  }

  /** The current fence stays with its holder until a greater one is granted. */
  ghost predicate Later(s: State, t: State) {
    && s.fence <= t.fence && s.term <= t.term
    && (s.lease.Some? ==> t.lease.Some?)
    && (t.fence == s.fence && s.lease.Some? ==> t.lease.value.holder == s.lease.value.holder)
  }

  lemma {:induction false} RunAdvances(s: State, events: seq<Event>, span: real)
    requires Good(s)
    ensures Good(After(s, events, span)) && Later(s, After(s, events, span))
    decreases |events|
  {
    if events != [] {
      RunAdvances(Step(s, events[0], span).0, events[1..], span);
    }
  }

  /** Once a greater fence was granted, a lesser one never validates again: a
      writer that lost the lead can never commit, whatever happens later. */
  lemma SupersededForever(s: State, events: seq<Event>, span: real, holder: string, fence: int, now: real)
    requires Good(s) && fence < s.fence
    ensures !Validates(After(s, events, span), holder, fence, now)
    ensures Renew(After(s, events, span), holder, fence, now, span).1 == Err(InvalidFence)
  {
    RunAdvances(s, events, span);
  }

  /** Two holders or fences never validate in one state, and never one fence for
      two holders in different states of a run. */
  lemma OneLeader(s: State, events: seq<Event>, span: real, h1: string, f1: int, t1: real, h2: string, f2: int, t2: real)
    requires Good(s) && Validates(s, h1, f1, t1) && Validates(After(s, events, span), h2, f2, t2)
    ensures f1 <= f2 && (f1 == f2 ==> h1 == h2) && (events == [] ==> h1 == h2 && f1 == f2)
  {
    RunAdvances(s, events, span);
  }

  /** A lease that was acquired or renewed validates exactly until it expires
      or another call of `acquire` succeeds. */
  lemma ValidWhileCurrent(s: State, e: Event, span: real, now: real)
    requires Good(s) && Step(s, e, span).1.Ok?
    ensures var (t, r) := Step(s, e, span);
            && Good(t) && r.value.expires == e.now + span
            && (Validates(t, r.value.holder, r.value.fence, now) <==> now < e.now + span)
            && (e.Acquires? ==> r.value.fence == s.fence + 1 && r.value.term == s.term + 1 && r.value.holder == e.holder)
            && (e.Renews? ==> r.value.fence == e.fence == s.fence && r.value.term == s.term && r.value.holder == e.holder)
  {
  }

  /** While a lease runs nobody else can take the lead, however often its holder
      renews it or acquires it again. */
  lemma {:induction false} LeadIsExclusive(s: State, events: seq<Event>, span: real, holder: string, from: real)
    requires Good(s) && span > 0.0 && Clocked(events, from)
    requires s.lease.Some? && s.lease.value.holder == holder && s.lease.value.expires <= from + span
    requires forall i :: 0 <= i < |events| ==> events[i].now < s.lease.value.expires
    ensures var t := After(s, events, span);
            t.lease.Some? && t.lease.value.holder == holder && t.lease.value.expires >= s.lease.value.expires
    decreases |events|
  {
    if events != [] {
      var t := Step(s, events[0], span).0;
      var now := events[0].now;
      assert now < s.lease.value.expires && from <= now;
      assert forall i :: 0 <= i < |events[1..]| ==> events[1..][i] == events[i + 1];
      assert Clocked(events[1..], now);
      LeadIsExclusive(t, events[1..], span, holder, now);
    }
  }

  /** Someone else takes the lead exactly when the lease has run out. */
  lemma TakeoverIff(s: State, holder: string, now: real, span: real)
    requires Good(s) && holder != "" && s.lease.Some? && s.lease.value.holder != holder
    ensures Acquire(s, holder, now, span).1.Ok? <==> !Validates(s, s.lease.value.holder, s.fence, now)
    ensures Acquire(s, holder, now, span).1.Err? ==> Acquire(s, holder, now, span).0 == s
  {
  }

  class FencedLeader {
    const span: real
    var lease: Option<Lease>
    var term: nat
    var fence: nat

    ghost function View(): State
      reads this
    {
      State(lease, term, fence)
    }

    ghost predicate Valid()
      reads this
    {
      Good(View()) && span > 0.0
    }

    constructor (span: real)
      requires span > 0.0
      ensures Valid() && View() == Initial && this.span == span
    {
      this.span, lease, term, fence := span, None, 0, 0;
    }

    method TakeLead(holder: string, now: real) returns (r: Result<Lease, Fault>)
      requires Valid()
      modifies this
      ensures Valid() && Later(old(View()), View()) && (View(), r) == Acquire(old(View()), holder, now, span)
    {
      RunAdvances(View(), [Acquires(holder, now)], span);
      if holder == "" { return Err(NoHolder); }
      if lease.Some? && lease.value.expires > now && lease.value.holder != holder { return Err(Held); }
      term, fence := term + 1, fence + 1;
      lease := Some(Lease(holder, term, fence, now + span));
      return Ok(lease.value);
    }

    method Extend(holder: string, claimed: int, now: real) returns (r: Result<Lease, Fault>)
      requires Valid()
      modifies this
      ensures Valid() && Later(old(View()), View()) && (View(), r) == Renew(old(View()), holder, claimed, now, span)
    {
      RunAdvances(View(), [Renews(holder, claimed, now)], span);
      if lease.None? || lease.value.holder != holder || lease.value.fence != claimed { return Err(InvalidFence); }
      lease := Some(Lease(holder, lease.value.term, lease.value.fence, now + span));
      return Ok(lease.value);
    }

    /** Only the current fence of the current holder, before it expires. */
    method MayCommit(holder: string, claimed: int, now: real) returns (ok: bool)
      requires Valid()
      ensures ok <==> Validates(View(), holder, claimed, now)
      ensures ok ==> claimed == fence && lease.value.holder == holder
    {
      ok := lease.Some? && lease.value.holder == holder && lease.value.fence == claimed && lease.value.expires > now;
    }
  }
}
