/** Deadlines in the micro-batching queue: which requests a selection takes from a
    queue, and exactly when one of them is past its deadline. */
module BatchingDeadlines {
  import opened Prelude
  import opened Batching
  import opened BatchingSteps
  import opened BatchingSections

  ghost predicate InRange(s: State, ids: seq<nat>) {
    |s.outcomes| == |s.requests| && forall i :: i in ids ==> i < |s.requests|
  }

  /** The requests that have not been cancelled, in queue order. */
  ghost function Standing(s: State, ids: seq<nat>): (r: seq<nat>)
    requires InRange(s, ids)
    ensures forall i :: i in r ==> i in ids
  {
    if ids == [] then []
    else
      assert forall i :: i in ids[1..] ==> i in ids;
      assert ids[0] in ids;
      (if s.outcomes[ids[0]].Cancelled? then [] else [ids[0]]) + Standing(s, ids[1..])
  }

  predicate Late(s: State, i: nat, now: real) {
    i < |s.requests| && s.requests[i].deadline.Some? && s.requests[i].deadline.value <= now
  }

  /** From the first request on that is not late. */
  function DropLate(s: State, ids: seq<nat>, now: real): seq<nat> {
    if ids == [] then [] else if Late(s, ids[0], now) then DropLate(s, ids[1..], now) else ids
  }

  function First(ids: seq<nat>, n: nat): seq<nat> {
    if |ids| <= n then ids else ids[..n]
  }

  // ------------------------------------------------- what a selection takes

  lemma {:induction false} StandingFrame(s: State, t: State, ids: seq<nat>)
    requires InRange(s, ids) && InRange(t, ids) && forall i :: i in ids ==> t.outcomes[i] == s.outcomes[i]
    ensures Standing(t, ids) == Standing(s, ids)
    decreases |ids|
  {
    if ids != [] {
      assert forall i :: i in ids[1..] ==> i in ids;
      assert ids[0] in ids;
      StandingFrame(s, t, ids[1..]);
    }
  }

  lemma {:induction false} DropLateFrame(s: State, t: State, ids: seq<nat>, now: real)
    requires t.requests == s.requests
    ensures DropLate(t, ids, now) == DropLate(s, ids, now)
    decreases |ids|
  {
    if ids != [] { DropLateFrame(s, t, ids[1..], now); }
  }

  lemma QueueInRange(s: State, k: string)
    requires QueuesGood(s) && k in s.queues
    ensures InRange(s, s.queues[k]) && forall i :: i in s.queues[k] ==> KeyOf(s, i) == k
  {
    assert QueueGood(s, k);
    assert forall i :: i in s.queues[k] ==> MayWait(s, i, k);
  }

  /** Queues as they are between steps. */
  ghost predicate Queues(s: State) {
    QueuesGood(s) && Counted(s)
  }

  lemma TailInRange(s: State, ids: seq<nat>)
    requires InRange(s, ids) && ids != []
    ensures InRange(s, ids[1..]) && ids[0] < |s.outcomes|
    ensures Standing(s, ids) == (if s.outcomes[ids[0]].Cancelled? then [] else [ids[0]]) + Standing(s, ids[1..])
  {
    assert ids[0] in ids && forall i :: i in ids[1..] ==> i in ids;
  }

  /** Popping the head of one queue leaves all other queued futures alone. */
  lemma PoppedStanding(s: State, t: State, k: string, j: string)
    requires Queues(s) && Popped(s, t, k) && j in s.queues
    ensures Queues(t) && j in t.queues && InRange(s, s.queues[j]) && InRange(t, t.queues[j])
    ensures j != k ==> Standing(t, t.queues[j]) == Standing(s, s.queues[j])
    ensures j == k ==> InRange(s, s.queues[k][1..]) && Standing(t, t.queues[k]) == Standing(s, s.queues[k][1..])
  {
    PoppedQueues(s, t, k);
    HeadFacts(s, k);
    QueueInRange(s, k);
    QueueInRange(s, j);
    QueueInRange(t, j);
    if j != k {
      StandingFrame(s, t, s.queues[j]);
    } else {
      TailInRange(s, s.queues[k]);
      StandingFrame(s, t, s.queues[k][1..]);
    }
  }

  lemma {:induction false} DroppedQueues(s: State, k: string, now: real)
    requires Queues(s) && Indexed(s) && k in s.queues
    ensures Queues(DropHeads(s, k, now))
    decreases |s.queues[k]|
  {
    if s.queues[k] != [] && Droppable(s, s.queues[k][0], now) {
      PoppedStanding(s, Discard(s, k, Expired), k, k);
      DroppedQueues(Discard(s, k, Expired), k, now);
    }
  }

  lemma {:induction false} DroppedElsewhere(s: State, k: string, now: real, j: string)
    requires Queues(s) && Indexed(s) && k in s.queues && j in s.queues && j != k
    ensures var t := DropHeads(s, k, now);
            InRange(s, s.queues[j]) && InRange(t, t.queues[j]) && Standing(t, t.queues[j]) == Standing(s, s.queues[j])
    decreases |s.queues[k]|
  {
    QueueInRange(s, j);
    if s.queues[k] != [] && Droppable(s, s.queues[k][0], now) {
      PoppedStanding(s, Discard(s, k, Expired), k, j);
      DroppedElsewhere(Discard(s, k, Expired), k, now, j);
    }
  }

  lemma {:induction false} DroppedQueue(s: State, k: string, now: real)
    requires Queues(s) && Indexed(s) && k in s.queues
    ensures var t := DropHeads(s, k, now);
            InRange(s, s.queues[k]) && InRange(t, t.queues[k]) && Standing(t, t.queues[k]) == DropLate(s, Standing(s, s.queues[k]), now)
    decreases |s.queues[k]|
  {
    QueueInRange(s, k);
    if s.queues[k] != [] {
      var head, rest := s.queues[k][0], s.queues[k][1..];
      TailInRange(s, s.queues[k]);
      if Droppable(s, head, now) {
        var d := Discard(s, k, Expired);
        PoppedStanding(s, d, k, k);
        DroppedQueue(d, k, now);
        DropLateFrame(s, d, Standing(s, rest), now);
        assert ([head] + Standing(s, rest))[1..] == Standing(s, rest);
        assert [] + Standing(s, rest) == Standing(s, rest);
      }
    }
  }

  /** A scan leaves each scanned queue without its late front. */
  lemma {:induction false} ScannedQueue(s: State, keys: seq<string>, best: Option<string>, now: real, k: string)
    requires Queues(s) && Indexed(s) && NoDuplicates(keys) && forall j :: j in keys ==> j in s.queues
    requires best.Some? ==> best.value in s.queues && s.queues[best.value] != [] && best.value !in keys
    requires k in s.queues
    ensures var t := Scan(s, keys, best, now).0;
            && Queues(t) && k in t.queues && InRange(s, s.queues[k]) && InRange(t, t.queues[k])
            && Standing(t, t.queues[k]) == if k in keys then DropLate(s, Standing(s, s.queues[k]), now) else Standing(s, s.queues[k])
    decreases |keys|
  {
    QueueInRange(s, k);
    if keys != [] {
      var d := DropHeads(s, keys[0], now);
      ScanTail(s, keys, best, now);
      DroppedQueues(s, keys[0], now);
      ScannedQueue(d, keys[1..], Earlier(d, best, keys[0]), now, k);
      assert keys[0] !in keys[1..];
      assert k in keys <==> k == keys[0] || k in keys[1..];
      if k == keys[0] {
        DroppedQueue(s, k, now);
      } else {
        DroppedElsewhere(s, keys[0], now, k);
        DropLateFrame(s, d, Standing(s, s.queues[k]), now);
      }
    }
  }

  /** Filling takes the first standing requests, as many as fit. */
  lemma {:induction false} FilledBatch(s: State, k: string, maxBatch: nat)
    requires Queues(s) && Indexed(s) && k in s.queues && FillsFrom(s, k) && |s.worker.batch| <= maxBatch
    ensures InRange(s, s.queues[k])
    ensures Fill(s, k, maxBatch).worker.batch == s.worker.batch + First(Standing(s, s.queues[k]), maxBatch - |s.worker.batch|)
    decreases |s.queues[k]|
  {
    QueueInRange(s, k);
    var room := maxBatch - |s.worker.batch|;
    if s.queues[k] == [] || room == 0 {
      assert First(Standing(s, s.queues[k]), room) == [];
    } else if s.outcomes[s.queues[k][0]].Cancelled? {
      PassedOver(s, k);
      FilledBatch(Discard(s, k, Expired), k, maxBatch);
    } else {
      TakenFirst(s, k);
      FilledBatch(Take(s, k), k, maxBatch);
      OneTaken(s.worker.batch, s.queues[k][0], Standing(Take(s, k), Take(s, k).queues[k]), room);
    }
  }

  /** A cancelled head leaves what stands in its queue as it was. */
  lemma PassedOver(s: State, k: string)
    requires Queues(s) && Indexed(s) && k in s.queues && s.queues[k] != [] && s.outcomes[s.queues[k][0]].Cancelled?
    ensures var d := Discard(s, k, Expired);
            && Queues(d) && InRange(s, s.queues[k]) && InRange(d, d.queues[k])
            && d.worker == s.worker && Standing(d, d.queues[k]) == Standing(s, s.queues[k])
  {
    QueueInRange(s, k);
    TailInRange(s, s.queues[k]);
    PoppedStanding(s, Discard(s, k, Expired), k, k);
    assert [] + Standing(s, s.queues[k][1..]) == Standing(s, s.queues[k][1..]);
  }

  /** A head that was not cancelled is the first of what stands in its queue. */
  lemma TakenFirst(s: State, k: string)
    requires Queues(s) && Indexed(s) && k in s.queues && s.queues[k] != [] && FillsFrom(s, k) && !s.outcomes[s.queues[k][0]].Cancelled?
    ensures var t := Take(s, k);
            && Queues(t) && FillsFrom(t, k) && InRange(s, s.queues[k]) && InRange(t, t.queues[k])
            && Standing(s, s.queues[k]) == [s.queues[k][0]] + Standing(t, t.queues[k])
  {
    QueueInRange(s, k);
    TailInRange(s, s.queues[k]);
    PoppedStanding(s, Take(s, k), k, k);
  }

  lemma OneTaken(batch: seq<nat>, head: nat, rest: seq<nat>, room: nat)
    requires room > 0
    ensures batch + [head] + First(rest, room - 1) == batch + First([head] + rest, room)
  {
    assert First([head] + rest, room) == [head] + First(rest, room - 1);
  }

  /** What a dispatch from a queue at a moment takes. */
  ghost function TakenAt(s: State, k: string, now: real, maxBatch: nat): seq<nat>
    requires k in s.queues && InRange(s, s.queues[k])
  {
    First(DropLate(s, Standing(s, s.queues[k]), now), maxBatch)
  }

  lemma DispatchTakes(d: State, c: string, limits: Limits)
    requires Sound(d, limits) && Indexed(d) && d.worker.Idle? && d.closer.NoCloser? && c in d.queues
    ensures InRange(d, d.queues[c])
    ensures var t := Dispatch(d, c, limits); t.worker.Holding? ==> t.worker.batch == First(Standing(d, d.queues[c]), limits.maxBatch)
  {
    var open := d.(worker := Filling(c, []));
    StartFilling(d, c, limits);
    QueueInRange(d, c);
    FilledBatch(open, c, limits.maxBatch);
    StandingFrame(d, open, d.queues[c]);
  }

  /** The batch of an undisturbed turn: from the first request of its queue that is
      neither cancelled nor late, the first ones that were not cancelled. */
  lemma WakeTakes(s: State, now: real, limits: Limits)
    requires Inv(s, limits) && s.worker.Idle? && s.closer.NoCloser? && limits.maxBatch >= 1 && Indexed(s) && Wake(s, now, limits).worker.Holding?
    ensures var t := Wake(s, now, limits);
            && t.worker.batch != [] && t.worker.batch[0] < |s.requests|
            && var k := s.requests[t.worker.batch[0]].key;
               k in s.queues && InRange(s, s.queues[k]) && t.worker.batch == TakenAt(s, k, now, limits.maxBatch)
  {
    var (d, chosen) := Scan(s, s.order, None, now);
    ScanKeeps(s, s.order, None, now, limits);
    var c := ChosenQueue(s, now, limits);
    ScannedQueue(s, s.order, None, now, c);
    DispatchTakes(d, c, limits);
  }

  /** The queue a dispatching turn has chosen: the one its first request comes from. */
  lemma ChosenQueue(s: State, now: real, limits: Limits) returns (c: string)
    requires Inv(s, limits) && s.worker.Idle? && s.closer.NoCloser? && limits.maxBatch >= 1 && Indexed(s) && Wake(s, now, limits).worker.Holding?
    ensures var (d, chosen) := Scan(s, s.order, None, now);
            && c in s.order && c in s.queues && c in d.queues && Wake(s, now, limits) == Dispatch(d, c, limits)
    ensures var t := Wake(s, now, limits); t.worker.batch != [] && t.worker.batch[0] < |s.requests| && s.requests[t.worker.batch[0]].key == c
  {
    var (d, chosen) := Scan(s, s.order, None, now);
    ScanKeeps(s, s.order, None, now, limits);
    ScanFinds(s, s.order, None, now);
    c := chosen.value;
    assert LiveAfter(d, c, c, now);
    DispatchKeeps(d, c, limits);
    HeadFacts(d, c);
    assert c in Elems(s.order);
  }

  // ------------------------------------------------------------ late or not

  ghost predicate DispatchesLate(s: State, k: string, now: real, maxBatch: nat)
    requires k in s.queues && InRange(s, s.queues[k])
  {
    exists i :: i in TakenAt(s, k, now, maxBatch) && Late(s, i, now)
  }

  /** One of the first requests is late. */
  ghost predicate LateAmongFirst(s: State, ids: seq<nat>, now: real, maxBatch: nat) {
    exists n :: 0 <= n < |ids| && n < maxBatch && Late(s, ids[n], now)
  }

  /** A batch holds a late request exactly when one of the first requests that
      were not cancelled, counted from the first live head, is late. */
  lemma LateIff(s: State, k: string, now: real, maxBatch: nat)
    requires k in s.queues && InRange(s, s.queues[k])
    ensures DispatchesLate(s, k, now, maxBatch) <==> LateAmongFirst(s, DropLate(s, Standing(s, s.queues[k]), now), now, maxBatch)
  {
    var ids := DropLate(s, Standing(s, s.queues[k]), now);
    var taken := TakenAt(s, k, now, maxBatch);
    if LateAmongFirst(s, ids, now, maxBatch) {
      var n :| 0 <= n < |ids| && n < maxBatch && Late(s, ids[n], now);
      assert taken[n] == ids[n];
    }
    if DispatchesLate(s, k, now, maxBatch) {
      var i :| i in taken && Late(s, i, now);
      var n :| 0 <= n < |taken| && taken[n] == i;
      assert ids[n] == i;
    }
  }

  /** For the batch of an undisturbed turn. */
  lemma WakeLateIff(s: State, now: real, limits: Limits)
    requires Inv(s, limits) && s.worker.Idle? && s.closer.NoCloser? && limits.maxBatch >= 1 && Indexed(s) && Wake(s, now, limits).worker.Holding?
    ensures var batch := Wake(s, now, limits).worker.batch;
            && batch != [] && batch[0] < |s.requests|
            && var k := s.requests[batch[0]].key;
               && k in s.queues && InRange(s, s.queues[k])
               && ((exists i :: i in batch && Late(s, i, now)) <==>
                   LateAmongFirst(s, DropLate(s, Standing(s, s.queues[k]), now), now, limits.maxBatch))
  {
    WakeTakes(s, now, limits);
    LateIff(s, s.requests[Wake(s, now, limits).worker.batch[0]].key, now, limits.maxBatch);
  }

  /** Due strictly before the other; no deadline is never due. */
  predicate Sooner(a: Option<real>, b: Option<real>) {
    a.Some? && (b.None? || a.value < b.value)
  }

  function Due(s: State, i: nat): Option<real> {
    if i < |s.requests| then s.requests[i].deadline else None
  }

  /** A request that is due before one in front of it, close enough to run with it,
      while all in front of that one are due before it too. */
  ghost predicate Overtaken(s: State, ids: seq<nat>, a: int, b: int, maxBatch: nat) {
    && 0 <= a < b < |ids| && b - a + 1 <= maxBatch && Sooner(Due(s, ids[b]), Due(s, ids[a]))
    && forall c :: 0 <= c < a ==> Sooner(Due(s, ids[c]), Due(s, ids[a]))
  }

  lemma {:induction false} LateFront(s: State, ids: seq<nat>, now: real) returns (a: nat)
    ensures a <= |ids| && DropLate(s, ids, now) == ids[a..]
    ensures (forall c :: 0 <= c < a ==> Late(s, ids[c], now)) && (a < |ids| ==> !Late(s, ids[a], now))
    decreases |ids|
  {
    if ids == [] || !Late(s, ids[0], now) {
      a := 0;
    } else {
      var rest := LateFront(s, ids[1..], now);
      a := rest + 1;
      assert ids[1..][rest..] == ids[a..];
      forall c | 0 <= c < a
        ensures Late(s, ids[c], now)
      {
        if c > 0 { assert ids[1..][c - 1] == ids[c]; }
      }
      if a < |ids| { assert ids[1..][rest] == ids[a]; }
    }
  }

  /** A moment by which all the given requests are late, but not another that is due after each of them. */
  lemma {:induction false} MomentBetween(s: State, ids: seq<nat>, last: nat) returns (now: real)
    requires ids != [] && forall c :: 0 <= c < |ids| ==> ids[c] < |s.requests| && Sooner(Due(s, ids[c]), Due(s, last))
    ensures (forall c :: 0 <= c < |ids| ==> Late(s, ids[c], now)) && !Late(s, last, now)
    decreases |ids|
  {
    if |ids| == 1 {
      now := Due(s, ids[0]).value;
    } else {
      var front, x := ids[..|ids| - 1], ids[|ids| - 1];
      var m := MomentBetween(s, front, last);
      assert forall c :: 0 <= c < |front| ==> ids[c] == front[c];
      now := if m < Due(s, x).value then Due(s, x).value else m;
      assert last < |s.requests| && Due(s, last).Some? ==> now < Due(s, last).value;
    }
  }

  lemma LateIsOvertaken(s: State, k: string, now: real, maxBatch: nat)
    requires k in s.queues && InRange(s, s.queues[k]) && DispatchesLate(s, k, now, maxBatch)
    ensures exists a, b :: Overtaken(s, Standing(s, s.queues[k]), a, b, maxBatch)
  {
    var ids := Standing(s, s.queues[k]);
    LateIff(s, k, now, maxBatch);
    var a := LateFront(s, ids, now);
    var n :| 0 <= n < |DropLate(s, ids, now)| && n < maxBatch && Late(s, DropLate(s, ids, now)[n], now);
    assert ids[a..][n] == ids[a + n];
    assert Overtaken(s, ids, a, a + n, maxBatch);
  }

  lemma OvertakenIsLate(s: State, k: string, a: int, b: int, maxBatch: nat)
    requires k in s.queues && InRange(s, s.queues[k]) && Overtaken(s, Standing(s, s.queues[k]), a, b, maxBatch)
    ensures exists now :: DispatchesLate(s, k, now, maxBatch)
  {
    var ids := Standing(s, s.queues[k]);
    assert forall n :: 0 <= n < |ids| ==> ids[n] in ids;
    var before := ids[..a] + [ids[b]];
    var now := MomentBetween(s, before, ids[a]);
    LateBetween(s, ids, a, b, now, before);
    LateIff(s, k, now, maxBatch);
    assert ids[a..][b - a] == ids[b];
    assert DispatchesLate(s, k, now, maxBatch);
  }

  /** Some moment makes a queue dispatch late exactly when it holds an overtaken pair. */
  lemma SomeMomentLateIff(s: State, k: string, maxBatch: nat)
    requires k in s.queues && InRange(s, s.queues[k])
    ensures (exists now :: DispatchesLate(s, k, now, maxBatch)) <==>
              exists a, b :: Overtaken(s, Standing(s, s.queues[k]), a, b, maxBatch)
  {
    if now :| DispatchesLate(s, k, now, maxBatch) { LateIsOvertaken(s, k, now, maxBatch); }
    if a, b :| Overtaken(s, Standing(s, s.queues[k]), a, b, maxBatch) { OvertakenIsLate(s, k, a, b, maxBatch); }
  }

  lemma LateBetween(s: State, ids: seq<nat>, a: int, b: int, now: real, before: seq<nat>)
    requires 0 <= a < b < |ids| && before == ids[..a] + [ids[b]]
    requires (forall c :: 0 <= c < |before| ==> Late(s, before[c], now)) && !Late(s, ids[a], now)
    ensures DropLate(s, ids, now) == ids[a..] && Late(s, ids[b], now)
  {
    var n := LateFront(s, ids, now);
    assert before[a] == ids[b];
    forall c | 0 <= c < a
      ensures Late(s, ids[c], now)
    {
      assert before[c] == ids[c];
    }
  }

  // ------------------------------------------------------------- whole turns

  ghost predicate LateTurn(s: State, now: real, limits: Limits)
    requires Indexed(s) && NoDuplicates(s.order)
  {
    var t := Wake(s, now, limits);
    t.worker.Holding? && exists i :: i in t.worker.batch && Late(s, i, now)
  }

  /** A moment at which the requests before `a` and the one at `b` are late, the one
      at `a` is not, and its queue is ready because it is near its deadline or old. */
  lemma ReadyMoment(s: State, ids: seq<nat>, a: int, b: int, limits: Limits) returns (now: real)
    requires Overtaken(s, ids, a, b, limits.maxBatch) && (forall n :: 0 <= n < |ids| ==> ids[n] < |s.requests|) && limits.target > 0.0
    ensures DropLate(s, ids, now) == ids[a..] && Late(s, ids[b], now) && !Late(s, ids[a], now)
    ensures var first := s.requests[ids[a]];
            (first.deadline.Some? && first.deadline.value - now <= limits.target) || now - first.submitted >= limits.maxWait
  {
    var before, first := ids[..a] + [ids[b]], s.requests[ids[a]];
    var m := MomentBetween(s, before, ids[a]);
    var ready := if first.deadline.Some? then first.deadline.value - limits.target else first.submitted + limits.maxWait;
    now := if m < ready then ready else m;
    LateBetween(s, ids, a, b, now, before);
  }

  /** The head that a scan leaves is the first standing request that is not late. */
  lemma {:induction false} HeadAfterScan(s: State, k: string, now: real)
    requires Queues(s) && Indexed(s) && k in s.queues && InRange(s, s.queues[k])
    ensures var d, ids := DropHeads(s, k, now), DropLate(s, Standing(s, s.queues[k]), now);
            && (ids != [] ==> d.queues[k] != [] && d.queues[k][0] == ids[0])
    decreases |s.queues[k]|
  {
    if s.queues[k] != [] {
      var head, rest := s.queues[k][0], s.queues[k][1..];
      TailInRange(s, s.queues[k]);
      if Droppable(s, head, now) {
        var d := Discard(s, k, Expired);
        PoppedStanding(s, d, k, k);
        HeadAfterScan(d, k, now);
        DropLateFrame(s, d, Standing(s, rest), now);
        assert ([head] + Standing(s, rest))[1..] == Standing(s, rest);
        assert [] + Standing(s, rest) == Standing(s, rest);
      }
    }
  }

  /** With one queue a turn takes from it once its first request in time is ready. */
  lemma ReadyTurn(s: State, k: string, now: real, limits: Limits)
    requires Inv(s, limits) && s.worker.Idle? && s.closer.NoCloser? && limits.maxBatch >= 1 && Indexed(s)
    requires s.order == [k] && k in s.queues && InRange(s, s.queues[k])
    requires var ids := DropLate(s, Standing(s, s.queues[k]), now);
             && ids != [] && ids[0] < |s.requests|
             && var first := s.requests[ids[0]];
                (first.deadline.Some? && first.deadline.value - now <= limits.target) || now - first.submitted >= limits.maxWait
    ensures Wake(s, now, limits).worker.Holding?
  {
    var (d, chosen) := Scan(s, s.order, None, now);
    HeadAfterScan(s, k, now);
    ScanKeeps(s, s.order, None, now, limits);
    ScanFinds(s, s.order, None, now);
    TotalBound(s.order, s.queues, k);
    assert s.order[1..] == [];
    assert d == DropHeads(s, k, now) && chosen == Some(k);
    assert s.queues[k] != [];
    assert LiveAfter(d, k, k, now);
    DispatchKeeps(d, k, limits);
  }

  lemma OnlyQueueTakes(s: State, k: string, now: real, limits: Limits)
    requires Inv(s, limits) && s.worker.Idle? && s.closer.NoCloser? && limits.maxBatch >= 1
    requires Indexed(s) && NoDuplicates(s.order) && s.order == [k] && Wake(s, now, limits).worker.Holding?
    ensures k in s.queues && InRange(s, s.queues[k]) && Wake(s, now, limits).worker.batch == TakenAt(s, k, now, limits.maxBatch)
  {
    WakeTakes(s, now, limits);
    var c := ChosenQueue(s, now, limits);
  }

  lemma LateTurnIsOvertaken(s: State, k: string, now: real, limits: Limits)
    requires Inv(s, limits) && s.worker.Idle? && s.closer.NoCloser? && limits.maxBatch >= 1
    requires Indexed(s) && NoDuplicates(s.order) && s.order == [k] && LateTurn(s, now, limits)
    ensures k in s.queues && InRange(s, s.queues[k]) && exists a, b :: Overtaken(s, Standing(s, s.queues[k]), a, b, limits.maxBatch)
  {
    OnlyQueueTakes(s, k, now, limits);
    LateIsOvertaken(s, k, now, limits.maxBatch);
  }

  lemma TakenLate(s: State, k: string, a: int, b: int, now: real, limits: Limits)
    requires Indexed(s) && NoDuplicates(s.order) && k in s.queues && InRange(s, s.queues[k])
    requires var t := Wake(s, now, limits); t.worker.Holding? && t.worker.batch == TakenAt(s, k, now, limits.maxBatch)
    requires var ids := Standing(s, s.queues[k]);
             0 <= a < b < |ids| && b - a < limits.maxBatch && DropLate(s, ids, now) == ids[a..] && Late(s, ids[b], now)
    ensures LateTurn(s, now, limits)
  {
    var ids := Standing(s, s.queues[k]);
    assert First(ids[a..], limits.maxBatch)[b - a] == ids[b];
  }

  lemma OvertakenHasLateTurn(s: State, k: string, a: int, b: int, limits: Limits) returns (now: real)
    requires Inv(s, limits) && s.worker.Idle? && s.closer.NoCloser? && limits.maxBatch >= 1 && limits.target > 0.0
    requires Indexed(s) && NoDuplicates(s.order) && s.order == [k] && k in s.queues && InRange(s, s.queues[k])
    requires Overtaken(s, Standing(s, s.queues[k]), a, b, limits.maxBatch)
    ensures LateTurn(s, now, limits)
  {
    var ids := Standing(s, s.queues[k]);
    assert forall n :: 0 <= n < |ids| ==> ids[n] in ids;
    now := ReadyMoment(s, ids, a, b, limits);
    ReadyTurn(s, k, now, limits);
    OnlyQueueTakes(s, k, now, limits);
    TakenLate(s, k, a, b, now, limits);
  }

  /** With a single key some turn of the worker dispatches late exactly when its
      queue holds an overtaken pair. */
  lemma SomeTurnLateIff(s: State, k: string, limits: Limits)
    requires Inv(s, limits) && s.worker.Idle? && s.closer.NoCloser? && limits.maxBatch >= 1 && limits.target > 0.0
    requires Indexed(s) && NoDuplicates(s.order) && s.order == [k] && k in s.queues && InRange(s, s.queues[k])
    ensures (exists now :: LateTurn(s, now, limits)) <==>
              exists a, b :: Overtaken(s, Standing(s, s.queues[k]), a, b, limits.maxBatch)
  {
    if now :| LateTurn(s, now, limits) { LateTurnIsOvertaken(s, k, now, limits); }
    if a, b :| Overtaken(s, Standing(s, s.queues[k]), a, b, limits.maxBatch) {
      var now := OvertakenHasLateTurn(s, k, a, b, limits);
    }
  }

  /** A queue whose deadlines never go down, like one constant timeout per key,
      never dispatches a request after its deadline. */
  lemma AscendingNeverLate(s: State, k: string, now: real, maxBatch: nat)
    requires k in s.queues && InRange(s, s.queues[k])
    requires var ids := Standing(s, s.queues[k]); forall a, b :: 0 <= a < b < |ids| ==> !Sooner(Due(s, ids[b]), Due(s, ids[a]))
    ensures !DispatchesLate(s, k, now, maxBatch)
  {
    SomeMomentLateIff(s, k, maxBatch);
  }
}
