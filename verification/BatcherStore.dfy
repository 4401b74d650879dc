/** The micro-batching queue as the object its callers and its worker share. Each
    critical section is one method, run without a cancellation in between; looking
    at a future of a batch and setting it are two. */
module Batchers {
  import opened Prelude
  import opened Batching
  import opened BatchingSteps
  import opened BatchingSections
  import opened BatchingHistory

  class AdaptiveBatcher {
    const limits: Limits
    var requests: seq<Request>
    var outcomes: seq<Outcome>
    var order: seq<string>
    var queues: map<string, seq<nat>>
    var queued: int
    var stopping: bool
    var worker: Worker
    ghost var runs: seq<seq<nat>>
    ghost var answered: seq<seq<Outcome>>
    ghost var raised: seq<Raise>

    ghost function View(): State
      reads this
    {
      State(requests, outcomes, order, queues, queued, stopping, worker, NoCloser, runs, answered, raised)
    }

    ghost predicate Valid()
      reads this
    {
      Inv(View(), limits) && Open(View()) && LockFree(View()) && limits.maxBatch >= 1
    }

    /** The constructor raises on limits below one; here they are a precondition. */
    constructor (limits: Limits)
      requires limits.maxBatch >= 1 && limits.maxQueue >= 1
      ensures Valid() && View() == Initial() && this.limits == limits
    {
      this.limits := limits;
      requests, outcomes, order, queues, queued := [], [], [], map[], 0;
      stopping, worker, runs, answered, raised := false, Idle, [], [], [];
      new;
      InitialInv(limits);
    }

    method SubmitRequest(r: Request) returns (id: nat)
      requires Valid()
      modifies this
      ensures Valid() && View() == Submit(old(View()), r, limits) && id == |old(requests)|
      ensures Onward(old(View()), View())
      ensures id < |outcomes| && outcomes[id] == if old(stopping) then Failed(Stopped) else if old(queued) >= limits.maxQueue then Failed(QueueFull) else Pending
    {
      SubmitKeeps(View(), r, limits);
      id := |requests|;
      Accept(r);
      HandIndexed(View(), limits);
    }

    method Accept(r: Request)
      modifies this
      ensures View() == Submit(old(View()), r, limits)
    {
      var id := |requests|;
      requests := requests + [r];
      if stopping {
        outcomes := outcomes + [Failed(Stopped)];
      } else if queued >= limits.maxQueue {
        outcomes := outcomes + [Failed(QueueFull)];
      } else {
        outcomes := outcomes + [Pending];
        if r.key !in queues {
          order, queues := order + [r.key], queues[r.key := []];
        }
        queues := queues[r.key := queues[r.key] + [id]];
        queued := queued + 1;
        assert queues == Submit(old(View()), r, limits).queues;
      }
    }

    /** A caller gives up on its future; a decided future is left alone. */
    method CancelFuture(id: nat) returns (cancelled: bool)
      requires Valid()
      modifies this
      ensures Valid() && View() == Cancel(old(View()), id) && Onward(old(View()), View())
      ensures cancelled <==> id < |old(outcomes)| && old(outcomes)[id].Pending?
    {
      CancelKeeps(View(), id, limits);
      cancelled := id < |outcomes| && outcomes[id].Pending?;
      if cancelled { outcomes := outcomes[id := Cancelled]; }
      HandIndexed(View(), limits);
    }

    method Pop(k: string, why: Reason)
      requires Indexed(View()) && k in queues && queues[k] != []
      modifies this
      ensures View() == Discard(old(View()), k, why)
    {
      var head := queues[k][0];
      queues, queued := queues[k := queues[k][1..]], queued - 1;
      if outcomes[head].Pending? { outcomes := outcomes[head := Failed(why)]; }
    }

    /** Drops the dead heads of every queue and picks the oldest live head. */
    method ScanQueues(now: real) returns (chosen: Option<string>)
      requires Indexed(View()) && NoDuplicates(order)
      modifies this
      ensures (View(), chosen) == Scan(old(View()), old(order), None, now)
      ensures Indexed(View()) && (chosen.Some? ==> chosen.value in queues && queues[chosen.value] != [])
    {
      chosen := None;
      ghost var s0 := View();
      assert order[0..] == order;
      for i := 0 to |order|
        invariant order == s0.order && Indexed(View()) && NoDuplicates(order[i..])
        invariant chosen.Some? ==> chosen.value in queues && queues[chosen.value] != [] && chosen.value !in order[i..]
        invariant forall k :: k in order[i..] ==> k in queues
        invariant Scan(View(), order[i..], chosen, now) == Scan(s0, s0.order, None, now)
      {
        var k := order[i];
        ghost var before := View();
        assert order[i..][0] == k && order[i..][1..] == order[i + 1..];
        assert k !in order[i + 1..];
        DropTouchesOne(before, k, now);
        DropDeadHeads(k, now);
        assert chosen.Some? ==> chosen.value != k;
        if queues[k] != [] && (chosen.None? || requests[queues[k][0]].submitted < requests[queues[chosen.value][0]].submitted) {
          chosen := Some(k);
        }
      }
      assert order[|order|..] == [];
    }

    method DropDeadHeads(k: string, now: real)
      requires Indexed(View()) && k in queues
      modifies this
      ensures View() == DropHeads(old(View()), k, now)
    {
      ghost var s0 := View();
      while queues[k] != []
        invariant Indexed(View()) && k in queues
        invariant DropHeads(View(), k, now) == DropHeads(s0, k, now)
        decreases |queues[k]|
      {
        var head := queues[k][0];
        if outcomes[head].Cancelled? || (requests[head].deadline.Some? && requests[head].deadline.value <= now) {
          Pop(k, Expired);
        } else {
          break;
        }
      }
    }

    method FillBatch(k: string)
      requires Indexed(View()) && k in queues && worker.Filling?
      modifies this
      ensures View() == Fill(old(View()), k, limits.maxBatch)
    {
      ghost var s0 := View();
      while queues[k] != [] && |worker.batch| < limits.maxBatch
        invariant Indexed(View()) && k in queues && worker.Filling?
        invariant Fill(View(), k, limits.maxBatch) == Fill(s0, k, limits.maxBatch)
        decreases |queues[k]|
      {
        var head := queues[k][0];
        if outcomes[head].Cancelled? {
          Pop(k, Expired);
        } else {
          TakeHead(k);
        }
      }
    }

    method TakeHead(k: string)
      requires Indexed(View()) && k in queues && queues[k] != [] && worker.Filling?
      modifies this
      ensures View() == Take(old(View()), k)
    {
      worker := Filling(worker.key, worker.batch + [queues[k][0]]);
      queues, queued := queues[k := queues[k][1..]], queued - 1;
    }

    method ForgetQueue(k: string)
      requires k in queues
      modifies this
      ensures View() == ForgetKey(old(View()), k)
    {
      var kept := KeysWithout(order, k);
      order, queues := kept, queues - {k};
    }

    method SelectBatch(now: real)
      requires Indexed(View()) && NoDuplicates(order)
      modifies this
      ensures View() == Select(old(View()), now, limits)
    {
      var chosen := ScanQueues(now);
      if chosen.None? { return; }
      var k := chosen.value;
      var first := requests[queues[k][0]];
      if |queues[k]| < limits.maxBatch && (first.deadline.None? || first.deadline.value - now > limits.target) {
        if now - first.submitted < limits.maxWait { return; }
      }
      DispatchFrom(k);
    }

    method DispatchFrom(k: string)
      requires Indexed(View()) && k in queues
      modifies this
      ensures View() == Dispatch(old(View()), k, limits)
    {
      worker := Filling(k, []);
      FillBatch(k);
      if queues[k] == [] { ForgetQueue(k); }
      worker := if worker.batch == [] then Idle else Holding(worker.batch);
    }

    /** One turn of the worker's loop; it sleeps unless it comes back with a batch. */
    method TakeTurn(now: real)
      requires Valid() && worker.Idle?
      modifies this
      ensures Valid() && View() == Wake(old(View()), now, limits) && Onward(old(View()), View())
      ensures worker.Exited? ==> forall i :: 0 <= i < |outcomes| ==> !outcomes[i].Pending?
      ensures worker.Idle? ==> Indexed(View()) && AllYoung(View(), now, limits)
      ensures worker.Holding? ==> Indexed(View()) && worker.batch != [] && worker.batch[0] < |requests| && OldestFirst(View(), worker.batch, now)
    {
      SoundIsIndexed(View());
      TurnKeeps(View(), now, limits);
      WaitIsBounded(View(), now, limits);
      OldestKeyRuns(View(), now, limits);
      if queued == 0 {
        if stopping {
          NothingPending(View(), limits);
          worker := Exited;
        }
      } else {
        SelectBatch(now);
        ghost var s0 := old(View());
        SelectKeeps(s0, now, limits);
      }
      HandIndexed(View(), limits);
    }

    /** Requests cancelled since selection never reach `run_batch`. */
    method AdmitBatch()
      requires Valid() && worker.Holding?
      modifies this
      ensures Valid() && View() == Admit(old(View())) && Onward(old(View()), View())
      ensures worker.Running? ==> forall i :: i in worker.batch ==> i < |outcomes| && !outcomes[i].Cancelled?
    {
      HandIndexed(View(), limits);
      AdmitKeeps(View(), limits);
      HandIsOut(View(), limits);
      ActiveFacts(outcomes, worker.batch);
      var active := StillActive(outcomes, worker.batch);
      if active == [] {
        worker := Idle;
      } else {
        worker := Running(active);
        runs := runs + [active];
      }
      HandIndexed(View(), limits);
    }

    /** `run_batch` came back, or raised. */
    method RunEnded(result: Result<seq<string>, string>)
      requires Valid() && worker.Running?
      modifies this
      ensures Valid() && View() == Return(old(View()), result) && Onward(old(View()), View())
    {
      ReturnKeeps(View(), result, limits);
      ReturnInside(result);
      HandIndexed(View(), limits);
    }

    method ReturnInside(result: Result<seq<string>, string>)
      requires worker.Running?
      modifies this`worker, this`answered
      ensures View() == Return(old(View()), result)
    {
      var answers := AnswersFor(worker.batch, result);
      worker := Answering(worker.batch, answers, 0, false, if Matches(worker.batch, result) then Setting else Failing);
      answered := answered + [answers];
    }

    /** Looks whether the next future of the batch is done. */
    method CheckFuture()
      requires Valid() && worker.Answering? && !worker.checked
      modifies this
      ensures Valid() && View() == Apply(old(View()), Work, limits) && Onward(old(View()), View())
      ensures worker.Answering? && worker.checked ==> worker.next < |worker.batch| && worker.batch[worker.next] < |outcomes| && outcomes[worker.batch[worker.next]].Pending?
    {
      AdvanceKeeps(View(), limits);
      CheckInside();
      HandIndexed(View(), limits);
    }

    method CheckInside()
      requires worker.Answering? && (worker.next < |worker.batch| ==> worker.batch[worker.next] < |outcomes|)
      modifies this`worker
      ensures View() == CheckNext(old(View()))
    {
      if worker.next < |worker.batch| {
        if outcomes[worker.batch[worker.next]].Pending? {
          worker := Answering(worker.batch, worker.answers, worker.next, true, worker.mode);
        } else {
          worker := Answering(worker.batch, worker.answers, worker.next + 1, worker.checked, worker.mode);
        }
      } else {
        worker := Idle;
      }
    }

    /** Sets the future that was found undecided; cancelled meanwhile, it raises. */
    method SetFuture() returns (took: bool)
      requires Valid() && worker.Answering? && worker.checked && worker.next < |worker.batch|
      modifies this
      ensures Valid() && View() == Apply(old(View()), Work, limits) && Onward(old(View()), View())
      ensures var i := old(worker).batch[old(worker).next];
              && i < |old(outcomes)| && i < |outcomes| && (took <==> old(outcomes)[i].Pending?)
              && (took ==> old(worker).next < |old(worker).answers| && outcomes[i] == old(worker).answers[old(worker).next] && raised == old(raised))
              && (!took ==> |raised| == |old(raised)| + 1 && (worker.Crashed? <==> !old(worker).mode.Setting?))
    {
      assert worker.batch[worker.next] in worker.batch;
      AdvanceKeeps(View(), limits);
      took := SetInside();
      HandIndexed(View(), limits);
    }

    method SetInside() returns (took: bool)
      requires worker.Answering? && worker.next < |worker.batch| && worker.next < |worker.answers| && worker.batch[worker.next] < |outcomes|
      modifies this`worker, this`outcomes, this`raised
      ensures View() == SetNext(old(View())) && (took <==> old(outcomes)[old(worker).batch[old(worker).next]].Pending?)
    {
      var w := worker;
      var i := w.batch[w.next];
      took := outcomes[i].Pending?;
      if took {
        outcomes := outcomes[i := w.answers[w.next]];
        worker := Answering(w.batch, w.answers, w.next + 1, false, w.mode);
      } else if w.mode.Setting? {
        worker := Answering(w.batch, seq(|w.batch|, _ => Failed(SetRaised)), 0, false, Recovering(w.next));
        raised := raised + [Raise(i, AtAnswer(|runs| - 1, w.next))];
      } else {
        worker := Crashed(w.batch[w.next + 1..]);
        raised := raised + [Raise(i, AtFailing)];
      }
    }

    method CloseBatcher(cancelPending: bool)
      requires Valid()
      modifies this
      ensures Valid() && View() == Close(old(View()), cancelPending) && Onward(old(View()), View())
      ensures stopping && (cancelPending ==> queued == 0)
    {
      SoundIsIndexed(View());
      CloseKeeps(View(), cancelPending, limits);
      stopping := true;
      if cancelPending { FailAll(); }
      HandIndexed(View(), limits);
    }

    method FailAll()
      requires Indexed(View())
      modifies this
      ensures View() == FailQueues(old(View()), old(order))
    {
      ghost var s0 := View();
      assert order[0..] == order;
      for i := 0 to |order|
        invariant order == s0.order && Indexed(View()) && (forall k :: k in order[i..] ==> k in queues)
        invariant FailQueues(View(), order[i..]) == FailQueues(s0, s0.order)
      {
        var k := order[i];
        assert order[i..][0] == k && order[i..][1..] == order[i + 1..];
        ghost var s1 := View();
        while queues[k] != []
          invariant order == s0.order && Indexed(View()) && k in queues && queues.Keys == s1.queues.Keys
          invariant FailQueue(View(), k) == FailQueue(s1, k)
          decreases |queues[k]|
        {
          Pop(k, Closed);
        }
      }
      assert order[|order|..] == [];
    }
  }

  method KeysWithout(order: seq<string>, k: string) returns (kept: seq<string>)
    ensures kept == Without(order, k)
  {
    kept := [];
    assert order[0..] == order;
    for i := 0 to |order|
      invariant kept + Without(order[i..], k) == Without(order, k)
    {
      assert order[i..][0] == order[i] && order[i..][1..] == order[i + 1..];
      if order[i] != k { kept := kept + [order[i]]; }
    }
    assert order[|order|..] == [] && kept + [] == kept;
  }

  lemma PrefixBelow(batch: seq<nat>, i: nat, bound: nat)
    requires i <= |batch| && forall j :: j in batch ==> j < bound
    ensures forall j :: j in batch[..i] ==> j < bound
  {
    forall j | j in batch[..i]
      ensures j < bound
    {
      var n :| 0 <= n < i && batch[n] == j;
      assert batch[n] in batch;
    }
  }

  method StillActive(outcomes: seq<Outcome>, batch: seq<nat>) returns (active: seq<nat>)
    requires forall i :: i in batch ==> i < |outcomes|
    ensures active == Active(outcomes, batch)
  {
    active := [];
    for i := 0 to |batch|
      invariant (forall j :: j in batch[..i] ==> j < |outcomes|) && active == Active(outcomes, batch[..i])
    {
      assert batch[i] in batch;
      assert batch[..i + 1][..i] == batch[..i];
      PrefixBelow(batch, i + 1, |outcomes|);
      if !outcomes[batch[i]].Cancelled? { active := active + [batch[i]]; }
    }
    assert batch[..|batch|] == batch;
  }

  lemma NothingPending(s: State, limits: Limits)
    requires Inv(s, limits) && s.worker.Idle? && s.queued == 0
    ensures forall i :: 0 <= i < |s.outcomes| ==> !s.outcomes[i].Pending?
  {
    forall i | 0 <= i < |s.outcomes|
      ensures !s.outcomes[i].Pending?
    {
      if s.outcomes[i].Pending? {
        assert Waits(s, i);
        assert KeyOf(s, i) in Elems(s.order);
        TotalBound(s.order, s.queues, KeyOf(s, i));
      }
    }
  }
}
