/** What each critical section of the micro-batching queue keeps. */
module BatchingSteps {
  import opened Prelude
  import opened Batching

  /** Requests and decided outcomes stay, refusals are immediate, nobody re-enters a queue. */
  ghost predicate Onward(s: State, t: State) {
    && |s.requests| <= |t.requests| && |s.outcomes| == |s.requests| && |t.outcomes| == |t.requests|
    && t.requests[..|s.requests|] == s.requests
    && (forall i {:trigger t.outcomes[i]} :: 0 <= i < |s.requests| && !s.outcomes[i].Pending? ==> t.outcomes[i] == s.outcomes[i])
    && (forall i {:trigger Accepted(t, i)} :: 0 <= i < |s.requests| && Accepted(s, i) ==> Accepted(t, i))
    && forall i {:trigger Waits(t, i)} :: 0 <= i < |s.requests| && Waits(t, i) ==> Waits(s, i)
  }

  lemma OnwardTrans(s: State, t: State, u: State)
    requires Onward(s, t) && Onward(t, u)
    ensures Onward(s, u)
  {
    forall i | 0 <= i < |s.requests| && !s.outcomes[i].Pending?
      ensures u.outcomes[i] == s.outcomes[i]
    {
      assert t.outcomes[i] == s.outcomes[i];
    }
    forall i | 0 <= i < |s.requests| && Accepted(s, i)
      ensures Accepted(u, i)
    {
      assert Accepted(t, i);
    }
    forall i | 0 <= i < |s.requests| && Waits(u, i)
      ensures Waits(s, i)
    {
      assert Waits(t, i);
    }
    assert u.requests[..|s.requests|] == t.requests[..|s.requests|];
  }

  lemma BatchKept(s: State, t: State, batch: seq<nat>, limits: Limits)
    requires Onward(s, t) && BatchGood(s, batch, limits)
    ensures BatchGood(t, batch, limits)
  {
    forall i | i in batch
      ensures i < |t.requests| && Accepted(t, i) && !Waits(t, i) && KeyOf(t, i) == KeyOf(s, i)
    {
      assert t.requests[..|s.requests|][i] == t.requests[i];
      assert Accepted(s, i);
    }
  }

  lemma BeforeKept(s: State, t: State, a: seq<nat>, b: seq<nat>, limits: Limits)
    requires Onward(s, t) && BatchGood(s, a, limits) && BatchGood(s, b, limits) && RunsBefore(s, a, b)
    ensures RunsBefore(t, a, b)
  {
    forall i | i in a || i in b
      ensures i < |s.requests| && KeyOf(t, i) == KeyOf(s, i)
    {
      assert t.requests[..|s.requests|][i] == t.requests[i];
    }
  }

  /** The batches already logged stay good. */
  lemma RunsKept(s: State, t: State, limits: Limits)
    requires Onward(s, t) && RunsGood(s, limits) && t.runs == s.runs
    ensures RunsGood(t, limits)
  {
    forall a | 0 <= a < |s.runs|
      ensures BatchGood(t, s.runs[a], limits)
    {
      BatchKept(s, t, s.runs[a], limits);
    }
    forall a, b | 0 <= a < b < |s.runs|
      ensures RunsBefore(t, s.runs[a], s.runs[b])
    {
      BeforeKept(s, t, s.runs[a], s.runs[b], limits);
    }
  }

  lemma HandKept(s: State, t: State, limits: Limits)
    requires Onward(s, t) && RunsGood(s, limits) && HandGood(s, limits)
    requires t.runs == s.runs && t.worker == s.worker && t.answered == s.answered
    requires t.worker.Exited? ==> t.stopping && t.queued == 0
    requires t.worker.Scanning? ==> ScanGood(t, t.worker.todo, t.worker.best, t.worker.checked)
    requires t.worker.Filling? ==> t.worker.key in t.queues
    ensures HandGood(t, limits)
  {
    if s.worker.Holding? || s.worker.Filling? || s.worker.Crashed? { BatchKept(s, t, s.worker.batch, limits); }
    if s.worker.Filling? {
      forall i | i in s.worker.batch
        ensures i < |t.requests| && KeyOf(t, i) == s.worker.key
      {
        assert t.requests[..|s.requests|][i] == t.requests[i];
      }
    }
    if s.worker.Holding? || s.worker.Filling? {
      forall a | 0 <= a < |s.runs|
        ensures RunsBefore(t, s.runs[a], s.worker.batch)
      {
        BeforeKept(s, t, s.runs[a], s.worker.batch, limits);
      }
    }
  }

  // ---------------------------------------------------- outcomes out of queues

  /** Outside the queues no future changes, and no new one gets a result of a run. */
  ghost predicate QuietOutside(s: State, t: State) {
    && |s.outcomes| == |s.requests| && |s.outcomes| <= |t.outcomes| && t.runs == s.runs && t.answered == s.answered && s.raised <= t.raised
    && (forall i {:trigger t.outcomes[i]} :: 0 <= i < |s.outcomes| && !Waits(s, i) ==> t.outcomes[i] == s.outcomes[i])
    && forall i {:trigger t.outcomes[i]} :: 0 <= i < |t.outcomes| && (FromRun(t.outcomes[i]) || t.outcomes[i] == Failed(SetRaised)) ==>
         i < |s.outcomes| && t.outcomes[i] == s.outcomes[i]
  }

  lemma OutcomesKept(s: State, t: State, limits: Limits)
    requires RunsGood(s, limits) && QuietOutside(s, t) && Explained(s) && RunOutcomes(s) && RaiseExplained(s)
    ensures Explained(t) && RunOutcomes(t) && RaiseExplained(t)
  {
    forall i | 0 <= i < |t.outcomes| && FromRun(t.outcomes[i])
      ensures AnsweredWith(t, i, t.outcomes[i])
    {
      AnsweredStays(s, t, i, s.outcomes[i]);
    }
    forall a, i | 0 <= a < |t.runs| && i in t.runs[a]
      ensures i < |t.outcomes| && RunOutcome(t.outcomes[i])
    {
      assert BatchGood(s, s.runs[a], limits) && RunOutcome(s.outcomes[i]);
      assert t.outcomes[i] == s.outcomes[i];
    }
    forall i | 0 <= i < |t.outcomes| && t.outcomes[i] == Failed(SetRaised)
      ensures RaisedBefore(t, i)
    {
      RaisedStays(s, t, i);
    }
  }

  lemma AnsweredStays(s: State, t: State, i: nat, o: Outcome)
    requires AnsweredWith(s, i, o) && s.runs <= t.runs && s.answered <= t.answered
    ensures AnsweredWith(t, i, o)
  {
    var a, p :| 0 <= a < |s.runs| && a < |s.answered| && 0 <= p < |s.runs[a]| && p < |s.answered[a]|
                && s.runs[a][p] == i && s.answered[a][p] == o;
    assert t.runs[a] == s.runs[a] && t.answered[a] == s.answered[a];
  }

  lemma RaisedStays(s: State, t: State, i: nat)
    requires RaisedBefore(s, i) && s.runs <= t.runs && s.raised <= t.raised
    ensures RaisedBefore(t, i)
  {
    var a, p, q :| 0 <= a < |s.runs| && 0 <= p < q < |s.runs[a]| && s.runs[a][q] == i && Raise(s.runs[a][p], AtAnswer(a, p)) in s.raised;
    assert t.runs[a] == s.runs[a];
    var n :| 0 <= n < |s.raised| && s.raised[n] == Raise(s.runs[a][p], AtAnswer(a, p));
    assert t.raised[n] == s.raised[n];
  }

  lemma RaiseKept(s: State, t: State, r: Raise, limits: Limits)
    requires RunsGood(s, limits) && QuietOutside(s, t) && Onward(s, t) && RaiseGood(s, r) && (s.worker.Crashed? ==> t.worker.Crashed?)
    ensures RaiseGood(t, r)
  {
    assert t.outcomes[r.id] == s.outcomes[r.id];
    if r.site.AtAnswer? {
      var batch := s.runs[r.site.run];
      forall q | r.site.pos < q < |batch|
        ensures LeftOut(t, batch[q])
      {
        assert LeftOut(s, batch[q]) && batch[q] in batch && BatchGood(s, batch, limits);
        assert t.outcomes[batch[q]] == s.outcomes[batch[q]];
      }
    }
  }

  lemma RaisesKept(s: State, t: State, limits: Limits)
    requires RunsGood(s, limits) && QuietOutside(s, t) && Onward(s, t) && RaisesGood(s)
    requires t.raised == s.raised && (t.worker.Crashed? <==> s.worker.Crashed?)
    ensures RaisesGood(t)
  {
    forall r | r in t.raised
      ensures RaiseGood(t, r)
    {
      RaiseKept(s, t, r, limits);
    }
  }

  /** One more raise; one outside all handlers ends the worker. */
  lemma RaiseAdded(s: State, t: State, r: Raise, limits: Limits)
    requires RunsGood(s, limits) && QuietOutside(s, t) && Onward(s, t) && RaisesGood(s)
    requires t.raised == s.raised + [r] && RaiseGood(t, r)
    requires (s.worker.Crashed? ==> t.worker.Crashed?) && (t.worker.Crashed? ==> s.worker.Crashed? || Fatal(r))
    ensures RaisesGood(t)
  {
    forall x | x in t.raised
      ensures RaiseGood(t, x)
    {
      if x != r {
        assert x in s.raised;
        RaiseKept(s, t, x, limits);
      }
    }
    if s.worker.Crashed? {
      var x :| x in s.raised && Fatal(x);
      assert x in t.raised;
    } else {
      assert r in t.raised;
    }
  }

  lemma UntouchedKept(s: State, t: State, batch: seq<nat>, n: int, limits: Limits)
    requires QuietOutside(s, t) && BatchGood(s, batch, limits) && UntouchedFrom(s, batch, n)
    ensures UntouchedFrom(t, batch, n)
  {
    forall q | 0 <= q < |batch| && n <= q
      ensures batch[q] < |t.outcomes| && Untouched(t.outcomes[batch[q]])
    {
      assert batch[q] in batch;
      assert t.outcomes[batch[q]] == s.outcomes[batch[q]];
    }
  }

  lemma HandOutcomesKept(s: State, t: State, limits: Limits)
    requires RunsGood(s, limits) && HandGood(s, limits) && HandOutcomes(s) && QuietOutside(s, t)
    requires t.worker == s.worker && t.raised == s.raised
    ensures HandOutcomes(t)
  {
    match s.worker
    case Filling(_, batch) => UntouchedKept(s, t, batch, 0, limits);
    case Holding(batch) => UntouchedKept(s, t, batch, 0, limits);
    case Running(batch) => UntouchedKept(s, t, batch, 0, limits);
    case Answering(batch, _, next, _, mode) =>
      assert BatchGood(s, batch, limits);
      if mode.Recovering? {
        UntouchedKept(s, t, batch, if next <= mode.at then mode.at + 1 else next, limits);
        forall q | 0 <= q <= mode.at
          ensures batch[q] < |t.outcomes| && !t.outcomes[batch[q]].Pending?
        {
          assert batch[q] in batch;
          assert t.outcomes[batch[q]] == s.outcomes[batch[q]];
        }
      } else {
        UntouchedKept(s, t, batch, next, limits);
      }
    case _ =>
  }

  // ------------------------------------------------------------ queue counts

  lemma {:induction false} TotalElsewhere(order: seq<string>, q: map<string, seq<nat>>, k: string, ids: seq<nat>)
    requires (forall x :: x in order ==> x in q) && k !in order
    ensures Total(order, q[k := ids]) == Total(order, q)
    decreases |order|
  {
    if order != [] {
      assert forall x :: x in order[1..] ==> x in order;
      assert order[0] in order;
      TotalElsewhere(order[1..], q, k, ids);
    }
  }

  lemma {:induction false} TotalChanged(order: seq<string>, q: map<string, seq<nat>>, k: string, ids: seq<nat>)
    requires NoDuplicates(order) && (forall x :: x in order ==> x in q) && k in order
    ensures Total(order, q[k := ids]) == Total(order, q) - |q[k]| + |ids|
    decreases |order|
  {
    assert forall x :: x in order[1..] ==> x in order;
    if order[0] == k {
      assert k !in order[1..];
      TotalElsewhere(order[1..], q, k, ids);
    } else {
      TotalChanged(order[1..], q, k, ids);
    }
  }

  lemma {:induction false} TotalAppended(order: seq<string>, q: map<string, seq<nat>>, k: string, ids: seq<nat>)
    requires (forall x :: x in order ==> x in q) && k !in order
    ensures Total(order + [k], q[k := ids]) == Total(order, q) + |ids|
    decreases |order|
  {
    if order != [] {
      assert (order + [k])[1..] == order[1..] + [k];
      assert order[0] in order;
      assert forall x :: x in order[1..] ==> x in order;
      TotalAppended(order[1..], q, k, ids);
    } else {
      assert (order + [k])[1..] == [];
    }
  }

  lemma {:induction false} TotalWithout(order: seq<string>, q: map<string, seq<nat>>, k: string)
    requires NoDuplicates(order) && (forall x :: x in order ==> x in q) && k in q && q[k] == []
    ensures NoDuplicates(Without(order, k))
    ensures Total(Without(order, k), q - {k}) == Total(order, q)
    decreases |order|
  {
    if order != [] {
      assert forall x :: x in order[1..] ==> x in order;
      TotalWithout(order[1..], q, k);
      var rest := Without(order[1..], k);
      if order[0] != k {
        assert order[0] !in order[1..];
        assert Without(order, k) == [order[0]] + rest;
        assert Without(order, k)[1..] == rest;
        assert order[0] in order;
      } else {
        assert Without(order, k) == rest;
      }
    }
  }

  lemma {:induction false} TotalBound(order: seq<string>, q: map<string, seq<nat>>, k: string)
    requires (forall x :: x in order ==> x in q) && k in order
    ensures |q[k]| <= Total(order, q)
    decreases |order|
  {
    assert forall x :: x in order[1..] ==> x in order;
    if order[0] != k { TotalBound(order[1..], q, k); }
  }

  // ---------------------------------------------------------- popping a head

  lemma HeadFacts(s: State, k: string)
    requires QueuesGood(s) && Counted(s) && k in s.queues && s.queues[k] != []
    ensures Indexed(s) && MayWait(s, s.queues[k][0], k) && Waits(s, s.queues[k][0])
    ensures s.queues[k][0] !in s.queues[k][1..]
    ensures forall i :: i in s.queues[k][1..] ==> i in s.queues[k] && s.queues[k][0] < i
  {
    SoundIsIndexed(s);
    assert QueueGood(s, k) && s.queues[k][0] in s.queues[k];
    forall i | i in s.queues[k][1..]
      ensures i in s.queues[k] && s.queues[k][0] < i
    {
      var n :| 0 <= n < |s.queues[k][1..]| && s.queues[k][1..][n] == i;
      assert s.queues[k][n + 1] == i;
    }
  }

  /** `t` is `s` after the head of queue `k` was popped, possibly with a new outcome. */
  ghost predicate Popped(s: State, t: State, k: string) {
    && k in s.queues && s.queues[k] != [] && Indexed(s)
    && t.queues == s.queues[k := s.queues[k][1..]] && t.queued == s.queued - 1
    && t.requests == s.requests && t.order == s.order && t.runs == s.runs && t.answered == s.answered && t.stopping == s.stopping
    && |t.outcomes| == |s.outcomes|
    && (forall i {:trigger t.outcomes[i]} :: 0 <= i < |s.outcomes| && i != s.queues[k][0] ==> t.outcomes[i] == s.outcomes[i])
  }

  lemma PoppedQueues(s: State, t: State, k: string)
    requires QueuesGood(s) && Counted(s) && Popped(s, t, k)
    ensures QueuesGood(t) && Counted(t)
    ensures forall i {:trigger Waits(t, i)} :: 0 <= i < |s.requests| ==> (Waits(t, i) <==> Waits(s, i) && i != s.queues[k][0])
  {
    HeadFacts(s, k);
    var head := s.queues[k][0];
    forall j | j in t.queues
      ensures QueueGood(t, j)
    {
      assert QueueGood(s, j);
      forall i | i in t.queues[j]
        ensures MayWait(t, i, j)
      {
        assert i in s.queues[j] && MayWait(s, i, j);
        assert i != head;
      }
    }
    TotalChanged(s.order, s.queues, k, s.queues[k][1..]);
    assert Elems(s.order) == t.queues.Keys;
    forall i | 0 <= i < |s.requests|
      ensures Waits(t, i) <==> Waits(s, i) && i != head
    {
      if KeyOf(s, i) == k {
        assert s.queues[k] == [head] + s.queues[k][1..];
      }
    }
  }

  lemma PoppedKeeps(s: State, t: State, k: string, limits: Limits)
    requires Core(s, limits) && Popped(s, t, k) && s.raised <= t.raised
    requires var head := s.queues[k][0]; t.outcomes[head] == s.outcomes[head] || (s.outcomes[head].Pending? && Accepted(t, head) && !RunOutcome(t.outcomes[head]))
    ensures QueuesGood(t) && Counted(t) && LeftFirst(t) && RunsGood(t, limits) && Onward(s, t) && QuietOutside(s, t)
    ensures Explained(t) && RunOutcomes(t) && RaiseExplained(t)
  {
    PoppedQueues(s, t, k);
    HeadFacts(s, k);
    PoppedOnward(s, t, k);
    RunsKept(s, t, limits);
    PoppedLeftFirst(s, t, k);
    OutcomesKept(s, t, limits);
  }

  lemma PoppedLeftFirst(s: State, t: State, k: string)
    requires QueuesGood(s) && Counted(s) && LeftFirst(s) && Popped(s, t, k)
    requires forall i {:trigger Waits(t, i)} :: 0 <= i < |s.requests| ==> (Waits(t, i) <==> Waits(s, i) && i != s.queues[k][0])
    ensures LeftFirst(t)
  {
    HeadFacts(s, k);
    var head := s.queues[k][0];
    forall i, j | 0 <= i < |t.requests| && 0 <= j < |t.requests| && Accepted(t, i) && !Waits(t, i) && Waits(t, j) && KeyOf(t, i) == KeyOf(t, j)
      ensures i < j
    {
      assert Waits(s, j);
      if i == head {
        assert j in s.queues[k][1..];
      } else {
        assert Accepted(s, i) && !Waits(s, i);
      }
    }
  }

  lemma PoppedOnward(s: State, t: State, k: string)
    requires QueuesGood(s) && Counted(s) && Popped(s, t, k)
    requires var head := s.queues[k][0]; t.outcomes[head] == s.outcomes[head] || (s.outcomes[head].Pending? && Accepted(t, head))
    requires forall i {:trigger Waits(t, i)} :: 0 <= i < |s.requests| ==> (Waits(t, i) <==> Waits(s, i) && i != s.queues[k][0])
    ensures Onward(s, t)
  {
    HeadFacts(s, k);
    forall i | 0 <= i < |s.requests| && Accepted(s, i)
      ensures Accepted(t, i)
    {
      if i != s.queues[k][0] { assert t.outcomes[i] == s.outcomes[i]; }
    }
  }

  /** Throwing a head away keeps the core, whoever does it and wherever the worker goes. */
  lemma DiscardCore(s: State, t: State, k: string, why: Reason, limits: Limits)
    requires Core(s, limits) && Indexed(s) && k in s.queues && s.queues[k] != [] && (why.Closed? || why.Expired?)
    requires t == Discard(s, k, why).(worker := t.worker, closer := t.closer, raised := t.raised) && s.raised <= t.raised
    requires forall i :: i in InHand(s.worker) ==> i in InHand(t.worker)
    ensures Core(t, limits) && Onward(s, t) && QuietOutside(s, t)
    ensures forall i {:trigger Waits(t, i)} :: 0 <= i < |s.requests| ==> (Waits(t, i) <==> Waits(s, i) && i != s.queues[k][0])
  {
    HeadFacts(s, k);
    PoppedKeeps(s, t, k, limits);
    PoppedQueues(s, t, k);
    forall i | 0 <= i < |t.requests| && t.outcomes[i].Pending?
      ensures Waits(t, i) || i in InHand(t.worker)
    {
      assert s.outcomes[i].Pending? && i != s.queues[k][0];
      assert Waits(s, i) || i in InHand(s.worker);
    }
  }

  lemma DiscardKeeps(s: State, k: string, why: Reason, limits: Limits)
    requires Sound(s, limits) && Indexed(s) && k in s.queues && s.queues[k] != [] && (why.Closed? || why.Expired?)
    requires !s.worker.Exited? && !s.worker.Scanning? && s.closer.NoCloser?
    ensures Sound(Discard(s, k, why), limits) && Onward(s, Discard(s, k, why))
  {
    var t := Discard(s, k, why);
    DiscardCore(s, t, k, why, limits);
    HandKept(s, t, limits);
    HandOutcomesKept(s, t, limits);
    RaisesKept(s, t, limits);
  }

  /** The batch being filled comes from queue `k`. */
  ghost predicate FillsFrom(s: State, k: string) {
    s.worker.Filling? && s.worker.key == k
  }

  lemma TakeHand(s: State, k: string, limits: Limits)
    requires Core(s, limits) && HandGood(s, limits) && Indexed(s) && k in s.queues && s.queues[k] != [] && FillsFrom(s, k)
    requires |s.worker.batch| < limits.maxBatch
    requires Onward(s, Take(s, k)) && !Waits(Take(s, k), s.queues[k][0]) && RunsGood(Take(s, k), limits)
    ensures HandGood(Take(s, k), limits)
  {
    var t := Take(s, k);
    HeadFacts(s, k);
    var head, batch := s.queues[k][0], s.worker.batch;
    BatchKept(s, t, batch, limits);
    forall i | i in batch
      ensures i < head
    {
      assert Accepted(s, i) && !Waits(s, i);
    }
    assert Accepted(s, head);
    assert forall a :: 0 <= a < |batch| ==> batch[a] in batch;
    assert BatchGood(t, batch + [head], limits);
    forall a | 0 <= a < |s.runs|
      ensures RunsBefore(t, s.runs[a], batch + [head])
    {
      assert RunsBefore(s, s.runs[a], batch);
      BeforeKept(s, t, s.runs[a], batch, limits);
      assert BatchGood(s, s.runs[a], limits);
      forall i | i in s.runs[a] && KeyOf(s, i) == k
        ensures i < head
      {
        assert Accepted(s, i) && !Waits(s, i);
      }
    }
  }

  lemma TakeKeeps(s: State, k: string, limits: Limits)
    requires Sound(s, limits) && Indexed(s) && k in s.queues && s.queues[k] != [] && FillsFrom(s, k)
    requires |s.worker.batch| < limits.maxBatch
    ensures Sound(Take(s, k), limits) && Onward(s, Take(s, k))
  {
    var t := Take(s, k);
    HeadFacts(s, k);
    PoppedKeeps(s, t, k, limits);
    PoppedQueues(s, t, k);
    TakeHand(s, k, limits);
    forall i | 0 <= i < |t.requests| && t.outcomes[i].Pending?
      ensures Waits(t, i) || i in InHand(t.worker)
    {
      assert Waits(s, i) || i in InHand(s.worker);
    }
    RaisesKept(s, t, limits);
    assert s.worker.batch + [s.queues[k][0]] == t.worker.batch;
  }

  // --------------------------------------------------------------- selection

  lemma {:induction false} DropKeeps(s: State, k: string, now: real, limits: Limits)
    requires Sound(s, limits) && Indexed(s) && k in s.queues && !s.worker.Exited? && !s.worker.Scanning? && s.closer.NoCloser?
    ensures var t := DropHeads(s, k, now);
            Sound(t, limits) && Onward(s, t) && t.worker == s.worker && t.closer == s.closer && t.queued <= s.queued
    decreases |s.queues[k]|
  {
    if s.queues[k] != [] && Droppable(s, s.queues[k][0], now) {
      var d := Discard(s, k, Expired);
      DiscardKeeps(s, k, Expired, limits);
      DropKeeps(d, k, now, limits);
      OnwardTrans(s, d, DropHeads(s, k, now));
    }
  }

  /** One key of a scan. */
  lemma ScanTail(s: State, keys: seq<string>, best: Option<string>, now: real)
    requires Indexed(s) && NoDuplicates(keys) && keys != [] && forall k :: k in keys ==> k in s.queues
    requires best.Some? ==> best.value in s.queues && s.queues[best.value] != [] && best.value !in keys
    ensures var t := DropHeads(s, keys[0], now);
            && NoDuplicates(keys[1..]) && (forall k :: k in keys[1..] ==> k in t.queues)
            && (best.Some? ==> best.value in t.queues && t.queues[best.value] != [])
            && var b := Earlier(t, best, keys[0]);
               && (b.Some? ==> b.value in t.queues && t.queues[b.value] != [] && b.value !in keys[1..])
               && Scan(s, keys, best, now) == Scan(t, keys[1..], b, now)
  {
    assert forall k :: k in keys[1..] ==> k in keys;
    assert keys[0] !in keys[1..];
    DropTouchesOne(s, keys[0], now);
    assert best.Some? ==> best.value != keys[0];
  }

  lemma {:induction false} ScanKeeps(s: State, keys: seq<string>, best: Option<string>, now: real, limits: Limits)
    requires Sound(s, limits) && Indexed(s) && NoDuplicates(keys) && forall k :: k in keys ==> k in s.queues
    requires !s.worker.Exited? && !s.worker.Scanning? && s.closer.NoCloser?
    requires best.Some? ==> best.value in s.queues && s.queues[best.value] != [] && best.value !in keys
    ensures var t := Scan(s, keys, best, now).0;
            Sound(t, limits) && Onward(s, t) && t.worker == s.worker && t.closer == s.closer && t.queued <= s.queued
    decreases |keys|
  {
    if keys == [] {
      SameOnward(s);
    } else {
      var t := DropHeads(s, keys[0], now);
      ScanTail(s, keys, best, now);
      DropKeeps(s, keys[0], now, limits);
      ScanKeeps(t, keys[1..], Earlier(t, best, keys[0]), now, limits);
      OnwardTrans(s, t, Scan(s, keys, best, now).0);
    }
  }

  lemma SameOnward(s: State)
    requires QueuesGood(s)
    ensures Onward(s, s)
  {
  }

  lemma {:induction false} DropLeavesLive(s: State, k: string, now: real)
    requires Indexed(s) && k in s.queues
    ensures var t := DropHeads(s, k, now); t.queues[k] != [] ==> !Droppable(t, t.queues[k][0], now)
    ensures forall i :: 0 <= i < |s.outcomes| && DropHeads(s, k, now).outcomes[i].Cancelled? ==> s.outcomes[i].Cancelled?
    decreases |s.queues[k]|
  {
    if s.queues[k] != [] && Droppable(s, s.queues[k][0], now) {
      DropLeavesLive(Discard(s, k, Expired), k, now);
    }
  }

  /** The head of queue `k` may run at `now` and was not submitted before that of `c`. */
  ghost predicate LiveAfter(t: State, c: string, k: string, now: real)
    requires Indexed(t) && c in t.queues && t.queues[c] != [] && k in t.queues
  {
    t.queues[k] != [] ==>
      && !Droppable(t, t.queues[k][0], now)
      && t.requests[t.queues[c][0]].submitted <= t.requests[t.queues[k][0]].submitted
  }

  /** A head that is live stays so while other queues are scanned, and the
      choice among the scanned heads is the earliest submitted one. */
  lemma {:induction false} ScanFinds(s: State, keys: seq<string>, best: Option<string>, now: real)
    requires Indexed(s) && NoDuplicates(keys) && forall k :: k in keys ==> k in s.queues
    requires best.Some? ==> best.value in s.queues && s.queues[best.value] != [] && best.value !in keys
    ensures var (t, c) := Scan(s, keys, best, now);
            && (forall k :: k in s.queues && k !in keys ==> t.queues[k] == s.queues[k])
            && t.requests == s.requests && |t.outcomes| == |s.outcomes|
            && (forall i :: 0 <= i < |s.outcomes| && t.outcomes[i].Cancelled? ==> s.outcomes[i].Cancelled?)
            && (c.None? ==> best.None? && forall k :: k in keys ==> t.queues[k] == [])
            && (c.Some? ==> forall k :: k in keys ==> LiveAfter(t, c.value, k, now))
            && (best.Some? ==> c.Some? && t.requests[t.queues[c.value][0]].submitted <= t.requests[t.queues[best.value][0]].submitted)
            && (c.Some? ==> c == best || c.value in keys)
    decreases |keys|
  {
    if keys != [] {
      assert forall k :: k in keys[1..] ==> k in keys;
      assert keys[0] !in keys[1..];
      DropTouchesOne(s, keys[0], now);
      DropLeavesLive(s, keys[0], now);
      var d := DropHeads(s, keys[0], now);
      assert best.Some? ==> best.value != keys[0];
      ScanFinds(d, keys[1..], Earlier(d, best, keys[0]), now);
      var (t, c) := Scan(s, keys, best, now);
      forall k | k in s.queues && k !in keys
        ensures t.queues[k] == s.queues[k]
      {
        assert k !in keys[1..] && d.queues[k] == s.queues[k];
      }
      assert t.queues[keys[0]] == d.queues[keys[0]];
      forall k | k in keys
        ensures c.Some? ==> LiveAfter(t, c.value, k, now)
      {
        if k != keys[0] { assert k in keys[1..]; }
      }
    }
  }

  lemma {:induction false} FillKeeps(s: State, k: string, limits: Limits)
    requires Sound(s, limits) && Indexed(s) && k in s.queues && FillsFrom(s, k) && s.closer.NoCloser?
    ensures var t := Fill(s, k, limits.maxBatch);
            Sound(t, limits) && Onward(s, t) && t.closer == s.closer && t.queued <= s.queued
    ensures s.worker.batch <= Fill(s, k, limits.maxBatch).worker.batch
    decreases |s.queues[k]|
  {
    if s.queues[k] != [] && |s.worker.batch| < limits.maxBatch {
      HeadFacts(s, k);
      var next: State;
      if s.outcomes[s.queues[k][0]].Cancelled? {
        next := Discard(s, k, Expired);
        DiscardKeeps(s, k, Expired, limits);
      } else {
        next := Take(s, k);
        TakeKeeps(s, k, limits);
      }
      FillKeeps(next, k, limits);
      OnwardTrans(s, next, Fill(s, k, limits.maxBatch));
    }
  }

  // ------------------------------------------------------ the worker moves on

  /** Requests, futures and queues are as they were; the worker, a closing call
      and the logs may have moved on. */
  ghost predicate SameRequests(s: State, t: State) {
    && t.requests == s.requests && t.outcomes == s.outcomes && t.order == s.order
    && t.queues == s.queues && t.queued == s.queued && (s.stopping ==> t.stopping)
    && s.runs <= t.runs && s.answered <= t.answered && s.raised <= t.raised
  }

  lemma SameRequestsKeeps(s: State, t: State)
    requires QueuesGood(s) && Counted(s) && LeftFirst(s) && Explained(s) && RaiseExplained(s) && SameRequests(s, t)
    ensures QueuesGood(t) && Counted(t) && LeftFirst(t) && Explained(t) && RaiseExplained(t) && Onward(s, t)
    ensures forall i {:trigger Accepted(t, i)} :: Accepted(t, i) <==> Accepted(s, i)
    ensures forall i {:trigger Waits(t, i)} :: 0 <= i < |s.requests| ==> (Waits(t, i) <==> Waits(s, i))
  {
    assert forall i {:trigger Waits(t, i)} :: 0 <= i < |s.requests| ==> (Waits(t, i) <==> Waits(s, i));
    assert forall i {:trigger Accepted(t, i)} :: Accepted(t, i) <==> Accepted(s, i);
    forall k | k in s.queues
      ensures QueueGood(t, k)
    {
      assert QueueGood(s, k);
      assert forall i :: i in s.queues[k] ==> MayWait(s, i, k) && MayWait(t, i, k);
    }
    SameWaitsLeftFirst(s, t);
    forall i | 0 <= i < |t.outcomes| && FromRun(t.outcomes[i])
      ensures AnsweredWith(t, i, t.outcomes[i])
    {
      AnsweredStays(s, t, i, t.outcomes[i]);
    }
    forall i | 0 <= i < |t.outcomes| && t.outcomes[i] == Failed(SetRaised)
      ensures RaisedBefore(t, i)
    {
      RaisedStays(s, t, i);
    }
  }

  lemma SameWaitsLeftFirst(s: State, t: State)
    requires LeftFirst(s) && t.requests == s.requests
    requires forall i {:trigger Accepted(t, i)} :: Accepted(t, i) <==> Accepted(s, i)
    requires forall i {:trigger Waits(t, i)} :: 0 <= i < |s.requests| ==> (Waits(t, i) <==> Waits(s, i))
    ensures LeftFirst(t)
  {
    forall i, j | 0 <= i < |t.requests| && 0 <= j < |t.requests| && Accepted(t, i) && !Waits(t, i) && Waits(t, j) && KeyOf(t, i) == KeyOf(t, j)
      ensures i < j
    {
      assert Accepted(s, i) && !Waits(s, i) && Waits(s, j);
    }
  }

  /** The worker or a closing call moves on without touching a request, and lets
      go of decided ones only. */
  lemma MoveOn(s: State, t: State, limits: Limits)
    requires Core(s, limits) && SameRequests(s, t) && t.runs == s.runs && t.answered == s.answered
    requires forall i :: i in InHand(s.worker) && i !in InHand(t.worker) ==> i < |s.outcomes| && !s.outcomes[i].Pending?
    ensures Core(t, limits) && Onward(s, t) && QuietOutside(s, t)
  {
    SameRequestsKeeps(s, t);
    RunsKept(s, t, limits);
    OutcomesKept(s, t, limits);
    forall i | 0 <= i < |t.requests| && t.outcomes[i].Pending?
      ensures Waits(t, i) || i in InHand(t.worker)
    {
      assert Waits(s, i) || i in InHand(s.worker);
    }
  }

  lemma ForgetQueues(s: State, k: string)
    requires QueuesGood(s) && Counted(s) && k in s.queues && s.queues[k] == []
    ensures QueuesGood(ForgetKey(s, k)) && Counted(ForgetKey(s, k))
    ensures forall i {:trigger Waits(ForgetKey(s, k), i)} :: 0 <= i < |s.requests| ==> (Waits(ForgetKey(s, k), i) <==> Waits(s, i))
  {
    var t := ForgetKey(s, k);
    TotalWithout(s.order, s.queues, k);
    assert Elems(t.order) == t.queues.Keys;
    forall j | j in t.queues
      ensures QueueGood(t, j)
    {
      assert QueueGood(s, j);
      assert forall i :: i in s.queues[j] ==> MayWait(s, i, j) && MayWait(t, i, j);
    }
    assert forall i {:trigger Waits(t, i)} :: 0 <= i < |s.requests| ==> (Waits(t, i) <==> Waits(s, i));
  }

  /** An exhausted queue is forgotten. */
  lemma ForgetKeeps(s: State, k: string, limits: Limits)
    requires Core(s, limits) && k in s.queues && s.queues[k] == []
    ensures var t := ForgetKey(s, k); Core(t, limits) && Onward(s, t)
  {
    var t := ForgetKey(s, k);
    ForgetQueues(s, k);
    ForgetOnward(s, k);
    RunsKept(s, t, limits);
    OutcomesKept(s, t, limits);
    forall i | 0 <= i < |t.requests| && t.outcomes[i].Pending?
      ensures Waits(t, i) || i in InHand(t.worker)
    {
      assert Waits(s, i) || i in InHand(s.worker);
    }
  }

  lemma ForgetOnward(s: State, k: string)
    requires QueuesGood(s) && LeftFirst(s) && k in s.queues && s.queues[k] == []
    requires forall i {:trigger Waits(ForgetKey(s, k), i)} :: 0 <= i < |s.requests| ==> (Waits(ForgetKey(s, k), i) <==> Waits(s, i))
    ensures var t := ForgetKey(s, k); LeftFirst(t) && Onward(s, t) && QuietOutside(s, t)
  {
    var t := ForgetKey(s, k);
    assert forall i {:trigger Accepted(t, i)} :: Accepted(t, i) <==> Accepted(s, i);
    SameWaitsLeftFirst(s, t);
  }

  lemma ForgetMore(s: State, k: string, limits: Limits)
    requires Core(s, limits) && k in s.queues && s.queues[k] == [] && s.worker.Filling?
    ensures var t := ForgetKey(s, k).(worker := Holding(s.worker.batch)); Core(t, limits) && Onward(s, t)
  {
    var u := ForgetKey(s, k);
    var t := u.(worker := Holding(s.worker.batch));
    ForgetKeeps(s, k, limits);
    MoveOn(u, t, limits);
    OnwardTrans(s, u, t);
  }

  /** The filled batch is held. */
  lemma ReleasedHand(s: State, t: State, limits: Limits)
    requires RunsGood(s, limits) && HandGood(s, limits) && HandOutcomes(s) && RaisesGood(s) && s.worker.Filling? && t.worker == Holding(s.worker.batch)
    requires Onward(s, t) && t.runs == s.runs && t.answered == s.answered && t.raised == s.raised && t.outcomes == s.outcomes
    ensures HandGood(t, limits) && HandOutcomes(t) && RaisesGood(t)
  {
    BatchKept(s, t, s.worker.batch, limits);
    forall a | 0 <= a < |s.runs|
      ensures RunsBefore(t, s.runs[a], s.worker.batch)
    {
      BeforeKept(s, t, s.runs[a], s.worker.batch, limits);
    }
    RaisesKept(s, t, limits);
  }

  lemma ReleaseKeeps(s: State, limits: Limits)
    requires Sound(s, limits) && s.worker.Filling? && s.worker.key in s.queues && s.closer.NoCloser?
    ensures var t := Release(s);
            && Sound(t, limits) && Onward(s, t) && t.queued == s.queued && LockFree(t)
            && t.worker == if s.worker.batch == [] then Idle else Holding(s.worker.batch)
  {
    var k, t := s.worker.key, Release(s);
    var held: State;
    if s.queues[k] == [] {
      ForgetMore(s, k, limits);
      held := ForgetKey(s, k).(worker := Holding(s.worker.batch));
    } else {
      held := s.(worker := Holding(s.worker.batch));
      MoveOn(s, held, limits);
    }
    ReleasedHand(s, held, limits);
    if s.worker.batch == [] {
      MoveOn(held, t, limits);
      OnwardTrans(s, held, t);
      RaisesKept(held, t, limits);
    }
  }

  /** An idle worker turns to the queues, or back. */
  lemma StartFilling(s: State, k: string, limits: Limits)
    requires Sound(s, limits) && (s.worker.Idle? || s.worker.Scanning?) && s.closer.NoCloser? && k in s.queues
    ensures var t := s.(worker := Filling(k, [])); Sound(t, limits) && Onward(s, t)
  {
    var t := s.(worker := Filling(k, []));
    MoveOn(s, t, limits);
    RaisesKept(s, t, limits);
  }

  lemma BackToIdle(s: State, limits: Limits)
    requires Sound(s, limits) && (s.worker.Scanning? || s.worker.Idle?) && s.closer.NoCloser?
    ensures var t := s.(worker := Idle); Sound(t, limits) && Onward(s, t)
  {
    var t := s.(worker := Idle);
    MoveOn(s, t, limits);
    RaisesKept(s, t, limits);
  }
}
