/** The critical sections of the micro-batching queue, each run without a
    cancellation in between: what they keep and what a selection promises. */
module BatchingSections {
  import opened Prelude
  import opened Batching
  import opened BatchingSteps

  // ---------------------------------------------------------------- selection

  lemma DispatchKeeps(s: State, k: string, limits: Limits)
    requires Sound(s, limits) && Indexed(s) && s.worker.Idle? && s.closer.NoCloser? && k in s.queues && s.queues[k] != []
    requires !s.outcomes[s.queues[k][0]].Cancelled? && limits.maxBatch >= 1
    ensures var t := Dispatch(s, k, limits);
            && Sound(t, limits) && Onward(s, t) && t.queued <= s.queued && LockFree(t)
            && t.worker.Holding? && t.worker.batch != [] && t.worker.batch[0] == s.queues[k][0]
  {
    var one := Take(s.(worker := Filling(k, [])), k);
    FirstTaken(s, k, limits);
    FillKeeps(one, k, limits);
    var filled := Fill(s.(worker := Filling(k, [])), k, limits.maxBatch);
    OnwardTrans(s, one, filled);
    ReleaseKeeps(filled, limits);
    OnwardTrans(s, filled, Dispatch(s, k, limits));
  }

  lemma FirstTaken(s: State, k: string, limits: Limits)
    requires Sound(s, limits) && Indexed(s) && s.worker.Idle? && s.closer.NoCloser? && k in s.queues && s.queues[k] != []
    requires !s.outcomes[s.queues[k][0]].Cancelled? && limits.maxBatch >= 1
    ensures var open := s.(worker := Filling(k, []));
            var one := Take(open, k);
            && Sound(one, limits) && Onward(s, one) && one.queued == s.queued - 1 && one.closer == s.closer
            && one.worker == Filling(k, [s.queues[k][0]]) && Fill(open, k, limits.maxBatch) == Fill(one, k, limits.maxBatch)
  {
    var open := s.(worker := Filling(k, []));
    StartFilling(s, k, limits);
    HeadFacts(s, k);
    TakeKeeps(open, k, limits);
    OnwardTrans(s, open, Take(open, k));
    assert open.worker.batch + [s.queues[k][0]] == [s.queues[k][0]];
  }

  /** The worker found nothing to run: all that may run is younger than the wait limit. */
  ghost predicate AllYoung(s: State, now: real, limits: Limits)
    requires Indexed(s)
  {
    forall k :: k in s.queues && s.queues[k] != [] ==>
      !Droppable(s, s.queues[k][0], now) && now - s.requests[s.queues[k][0]].submitted < limits.maxWait
  }

  /** The first of a batch was alive and submitted no later than what heads the other queues. */
  ghost predicate OldestFirst(s: State, batch: seq<nat>, now: real)
    requires Indexed(s) && batch != [] && batch[0] < |s.requests|
  {
    && !Droppable(s, batch[0], now)
    && forall k :: k in s.queues && s.queues[k] != [] && k != KeyOf(s, batch[0]) ==>
         s.requests[batch[0]].submitted <= s.requests[s.queues[k][0]].submitted
  }

  lemma SelectKeeps(s: State, now: real, limits: Limits)
    requires Sound(s, limits) && s.worker.Idle? && s.closer.NoCloser? && limits.maxBatch >= 1 && Indexed(s)
    ensures var t := Select(s, now, limits);
            && Sound(t, limits) && Onward(s, t) && t.queued <= s.queued && Indexed(t) && LockFree(t)
            && (t.worker.Idle? || (t.worker.Holding? && t.worker.batch != []))
  {
    var (d, chosen) := Scan(s, s.order, None, now);
    ScanKeeps(s, s.order, None, now, limits);
    ScanFinds(s, s.order, None, now);
    if chosen.Some? && Ready(d, chosen.value, now, limits) {
      assert LiveAfter(d, chosen.value, chosen.value, now);
      DispatchKeeps(d, chosen.value, limits);
      OnwardTrans(s, d, Select(s, now, limits));
    }
    SoundIsIndexed(Select(s, now, limits));
  }

  /** A worker that goes back to sleep leaves nobody waiting beyond `max_wait`
      at the head of a queue. */
  lemma WaitIsBounded(s: State, now: real, limits: Limits)
    requires Inv(s, limits) && s.worker.Idle? && s.closer.NoCloser? && limits.maxBatch >= 1 && Indexed(s)
    ensures var t := Wake(s, now, limits); t.worker.Idle? ==> Indexed(t) && AllYoung(t, now, limits)
  {
    if s.queued == 0 {
      forall k | k in s.queues
        ensures s.queues[k] == []
      {
        assert k in Elems(s.order);
        TotalBound(s.order, s.queues, k);
      }
    } else {
      var (d, chosen) := Scan(s, s.order, None, now);
      ScanKeeps(s, s.order, None, now, limits);
      ScanFinds(s, s.order, None, now);
      if chosen.Some? && Ready(d, chosen.value, now, limits) {
        assert LiveAfter(d, chosen.value, chosen.value, now);
        DispatchKeeps(d, chosen.value, limits);
      } else {
        forall k | k in d.queues && d.queues[k] != []
          ensures !Droppable(d, d.queues[k][0], now) && now - d.requests[d.queues[k][0]].submitted < limits.maxWait
        {
          assert k in Elems(s.order);
          assert LiveAfter(d, chosen.value, k, now);
        }
      }
    }
  }

  lemma {:induction false} FillTouchesOne(s: State, k: string, maxBatch: nat)
    requires Indexed(s) && k in s.queues && s.worker.Filling?
    ensures forall j :: j in s.queues && j != k ==> Fill(s, k, maxBatch).queues[j] == s.queues[j]
    ensures Fill(s, k, maxBatch).requests == s.requests
    ensures forall i :: 0 <= i < |s.outcomes| && Fill(s, k, maxBatch).outcomes[i].Cancelled? ==> i < |s.outcomes| && s.outcomes[i].Cancelled?
    ensures |Fill(s, k, maxBatch).outcomes| == |s.outcomes|
    decreases |s.queues[k]|
  {
    if s.queues[k] != [] && |s.worker.batch| < maxBatch {
      if s.outcomes[s.queues[k][0]].Cancelled? {
        FillTouchesOne(Discard(s, k, Expired), k, maxBatch);
      } else {
        FillTouchesOne(Take(s, k), k, maxBatch);
      }
    }
  }

  /** A dispatched batch starts with a live request that no other queue's head
      has waited longer than: no key is starved. */
  lemma OldestKeyRuns(s: State, now: real, limits: Limits)
    requires Inv(s, limits) && s.worker.Idle? && s.closer.NoCloser? && limits.maxBatch >= 1 && Indexed(s)
    ensures var t := Wake(s, now, limits);
            t.worker.Holding? ==> Indexed(t) && t.worker.batch != [] && t.worker.batch[0] < |t.requests| && OldestFirst(t, t.worker.batch, now)
  {
    if s.queued != 0 {
      var (d, chosen) := Scan(s, s.order, None, now);
      ScanKeeps(s, s.order, None, now, limits);
      ScanFinds(s, s.order, None, now);
      if chosen.Some? && Ready(d, chosen.value, now, limits) {
        var c := chosen.value;
        assert LiveAfter(d, c, c, now);
        DispatchKeeps(d, c, limits);
        FillTouchesOne(d.(worker := Filling(c, [])), c, limits.maxBatch);
        HeadFacts(d, c);
        var t := Dispatch(d, c, limits);
        SoundIsIndexed(t);
        forall k | k in t.queues && t.queues[k] != [] && k != c
          ensures t.requests[t.worker.batch[0]].submitted <= t.requests[t.queues[k][0]].submitted
        {
          assert d.queues[k] == t.queues[k];
          assert k in Elems(s.order);
          assert LiveAfter(d, c, k, now);
        }
      }
    }
  }

  /** Filling stops only at a full batch or an empty queue. */
  lemma {:induction false} FillIsGreedy(s: State, k: string, maxBatch: nat)
    requires Indexed(s) && k in s.queues && s.worker.Filling? && |s.worker.batch| <= maxBatch
    ensures var t := Fill(s, k, maxBatch); |t.worker.batch| == maxBatch || t.queues[k] == []
    decreases |s.queues[k]|
  {
    if s.queues[k] != [] && |s.worker.batch| < maxBatch {
      FillIsGreedy(if s.outcomes[s.queues[k][0]].Cancelled? then Discard(s, k, Expired) else Take(s, k), k, maxBatch);
    }
  }

  lemma {:induction false} DropShortens(s: State, k: string, now: real)
    requires Indexed(s) && k in s.queues
    ensures forall j :: j in s.queues ==> |DropHeads(s, k, now).queues[j]| <= |s.queues[j]|
    decreases |s.queues[k]|
  {
    if s.queues[k] != [] && Droppable(s, s.queues[k][0], now) {
      DropShortens(Discard(s, k, Expired), k, now);
    }
  }

  lemma {:induction false} ScanShortens(s: State, keys: seq<string>, best: Option<string>, now: real)
    requires Indexed(s) && NoDuplicates(keys) && forall k :: k in keys ==> k in s.queues
    requires best.Some? ==> best.value in s.queues && s.queues[best.value] != [] && best.value !in keys
    ensures forall j :: j in s.queues ==> |Scan(s, keys, best, now).0.queues[j]| <= |s.queues[j]|
    decreases |keys|
  {
    if keys != [] {
      assert forall k :: k in keys[1..] ==> k in keys;
      assert keys[0] !in keys[1..];
      DropTouchesOne(s, keys[0], now);
      DropShortens(s, keys[0], now);
      var t := DropHeads(s, keys[0], now);
      assert best.Some? ==> best.value != keys[0];
      ScanShortens(t, keys[1..], Earlier(t, best, keys[0]), now);
    }
  }

  /** A batch leaves for a reason, and leaves full or with all its queue had: its
      queue was long enough, or its first request is near its deadline or old. */
  lemma NoHaste(s: State, now: real, limits: Limits)
    requires Inv(s, limits) && s.worker.Idle? && s.closer.NoCloser? && limits.maxBatch >= 1 && Indexed(s)
    requires var t := Wake(s, now, limits); t.worker.Holding? && t.worker.batch != [] && t.worker.batch[0] < |s.requests|
    ensures var t := Wake(s, now, limits);
            var first := s.requests[t.worker.batch[0]];
            && first.key in s.queues
            && (|s.queues[first.key]| >= limits.maxBatch || now - first.submitted >= limits.maxWait
                || (first.deadline.Some? && first.deadline.value - now <= limits.target))
            && (|t.worker.batch| == limits.maxBatch || first.key !in t.queues)
  {
    var (d, chosen) := Scan(s, s.order, None, now);
    ScanKeeps(s, s.order, None, now, limits);
    ScanFinds(s, s.order, None, now);
    ScanShortens(s, s.order, None, now);
    assert chosen.Some? && Ready(d, chosen.value, now, limits);
    var c := chosen.value;
    assert LiveAfter(d, c, c, now);
    DispatchKeeps(d, c, limits);
    HeadFacts(d, c);
    FillIsGreedy(d.(worker := Filling(c, [])), c, limits.maxBatch);
  }

  lemma RisingLast(ids: seq<nat>)
    requires Rising(ids) && ids != []
    ensures var front, last := ids[..|ids| - 1], ids[|ids| - 1];
            && Rising(front) && (forall i :: i in front ==> i in ids && i < last)
            && forall i :: i in ids <==> i in front || i == last
  {
    var front, last := ids[..|ids| - 1], ids[|ids| - 1];
    assert ids == front + [last];
    forall i | i in front
      ensures i < last
    {
      var n :| 0 <= n < |front| && front[n] == i;
      assert ids[n] == i;
    }
  }

  lemma RisingAppend(ids: seq<nat>, x: nat)
    requires Rising(ids) && forall i :: i in ids ==> i < x
    ensures Rising(ids + [x])
  {
    assert forall n :: 0 <= n < |ids| ==> ids[n] in ids;
  }

  lemma {:induction false} ActiveFacts(outcomes: seq<Outcome>, batch: seq<nat>)
    requires Rising(batch) && forall i :: i in batch ==> i < |outcomes|
    ensures Rising(Active(outcomes, batch))
    ensures forall i :: i in Active(outcomes, batch) <==> i in batch && !outcomes[i].Cancelled?
    decreases |batch|
  {
    if batch != [] {
      var front, last := batch[..|batch| - 1], batch[|batch| - 1];
      RisingLast(batch);
      ActiveFacts(outcomes, front);
      RisingAppend(Active(outcomes, front), last);
    }
  }

  // ------------------------------------------------------------ run_batch

  /** Logs may have grown, futures are as they were. */
  lemma RaisesGrow(s: State, t: State)
    requires RaisesGood(s) && SameRequests(s, t) && t.raised == s.raised && (t.worker.Crashed? <==> s.worker.Crashed?)
    ensures RaisesGood(t)
  {
    forall r | r in t.raised
      ensures RaiseGood(t, r)
    {
      assert RaiseGood(s, r);
      if r.site.AtAnswer? {
        assert t.runs[r.site.run] == s.runs[r.site.run];
        assert forall q :: r.site.pos < q < |s.runs[r.site.run]| ==> LeftOut(s, s.runs[r.site.run][q]) && LeftOut(t, s.runs[r.site.run][q]);
      }
    }
  }

  lemma AdmitKeeps(s: State, limits: Limits)
    requires Sound(s, limits) && s.worker.Holding? && LockFree(s) && forall i :: i in s.worker.batch ==> i < |s.outcomes|
    ensures var t := Admit(s); Sound(t, limits) && Onward(s, t) && t.queued == s.queued && LockFree(t)
  {
    if Active(s.outcomes, s.worker.batch) == [] { AdmitNone(s, limits); } else { AdmitSome(s, limits); }
  }

  lemma AdmitNone(s: State, limits: Limits)
    requires Sound(s, limits) && s.worker.Holding? && LockFree(s) && forall i :: i in s.worker.batch ==> i < |s.outcomes|
    requires Active(s.outcomes, s.worker.batch) == []
    ensures var t := Admit(s); Sound(t, limits) && Onward(s, t)
  {
    ActiveFacts(s.outcomes, s.worker.batch);
    forall i | i in s.worker.batch
      ensures !s.outcomes[i].Pending?
    {
      assert i !in Active(s.outcomes, s.worker.batch);
    }
    MoveOn(s, Admit(s), limits);
    RaisesKept(s, Admit(s), limits);
  }

  lemma AdmitSome(s: State, limits: Limits)
    requires Sound(s, limits) && s.worker.Holding? && LockFree(s) && forall i :: i in s.worker.batch ==> i < |s.outcomes|
    requires Active(s.outcomes, s.worker.batch) != []
    ensures var t := Admit(s); Sound(t, limits) && Onward(s, t)
  {
    var t, batch := Admit(s), s.worker.batch;
    ActiveFacts(s.outcomes, batch);
    SameRequestsKeeps(s, t);
    AdmitRuns(s, limits);
    AdmitOutcomes(s, limits);
    RaisesGrow(s, t);
    forall i | 0 <= i < |t.requests| && t.outcomes[i].Pending?
      ensures Waits(t, i) || i in InHand(t.worker)
    {
      assert Waits(s, i) || i in batch;
    }
  }

  lemma AdmitOutcomes(s: State, limits: Limits)
    requires Sound(s, limits) && s.worker.Holding? && forall i :: i in s.worker.batch ==> i < |s.outcomes|
    requires Active(s.outcomes, s.worker.batch) != []
    ensures RunOutcomes(Admit(s)) && HandOutcomes(Admit(s))
  {
    var t, batch := Admit(s), s.worker.batch;
    var active := Active(s.outcomes, batch);
    ActiveFacts(s.outcomes, batch);
    forall i | i in active
      ensures i < |t.outcomes| && Untouched(t.outcomes[i])
    {
      var q :| 0 <= q < |batch| && batch[q] == i;
    }
    forall a, i | 0 <= a < |t.runs| && i in t.runs[a]
      ensures i < |t.outcomes| && RunOutcome(t.outcomes[i])
    {
      if a < |s.runs| { assert i in s.runs[a]; } else { assert i in active; }
    }
    assert forall q :: 0 <= q < |active| ==> active[q] in active;
  }

  lemma AdmitRuns(s: State, limits: Limits)
    requires Sound(s, limits) && s.worker.Holding? && forall i :: i in s.worker.batch ==> i < |s.outcomes|
    requires Active(s.outcomes, s.worker.batch) != []
    ensures RunsGood(Admit(s), limits)
  {
    var t, batch := Admit(s), s.worker.batch;
    var active := Active(s.outcomes, batch);
    ActiveFacts(s.outcomes, batch);
    SameRequestsKeeps(s, t);
    assert BatchGood(s, active, limits);
    OneRunMore(s, t, active, limits);
  }

  /** A run is logged after all those it comes after. */
  lemma OneRunMore(s: State, t: State, batch: seq<nat>, limits: Limits)
    requires RunsGood(s, limits) && Onward(s, t) && batch != [] && BatchGood(s, batch, limits) && t.runs == s.runs + [batch]
    requires forall a :: 0 <= a < |s.runs| ==> RunsBefore(s, s.runs[a], batch)
    ensures RunsGood(t, limits)
  {
    forall a | 0 <= a < |t.runs|
      ensures t.runs[a] != [] && BatchGood(t, t.runs[a], limits)
    {
      BatchKept(s, t, t.runs[a], limits);
    }
    forall a, b | 0 <= a < b < |t.runs|
      ensures RunsBefore(t, t.runs[a], t.runs[b])
    {
      BeforeKept(s, t, t.runs[a], t.runs[b], limits);
    }
  }

  lemma ReturnCore(s: State, result: Result<seq<string>, string>, limits: Limits)
    requires Core(s, limits) && s.worker.Running? && s.runs != [] && |s.answered| == |s.runs| - 1 && s.worker.batch == s.runs[|s.runs| - 1]
    ensures var t := Return(s, result); Core(t, limits) && Onward(s, t)
  {
    var t, batch := Return(s, result), s.worker.batch;
    SameRequestsKeeps(s, t);
    RunsKept(s, t, limits);
    assert batch[0..] == batch;
    forall i | 0 <= i < |t.requests| && t.outcomes[i].Pending?
      ensures Waits(t, i) || i in InHand(t.worker)
    {
      assert Waits(s, i) || i in InHand(s.worker);
    }
    assert t.answered[|t.answered| - 1] == AnswersFor(batch, result);
    assert forall o :: o in AnswersFor(batch, result) ==> FromRun(o);
  }

  lemma ReturnHand(s: State, result: Result<seq<string>, string>, limits: Limits)
    requires HandGood(s, limits) && HandOutcomes(s) && RaisesGood(s) && s.worker.Running?
    ensures var t := Return(s, result); HandGood(t, limits) && HandOutcomes(t)
  {
    var t, batch := Return(s, result), s.worker.batch;
    forall r | r in t.raised && r.site.AtAnswer?
      ensures r.site.run < |t.runs| - 1
    {
      assert RaiseGood(s, r);
    }
    assert t.answered[|t.answered| - 1] == AnswersFor(batch, result);
    assert forall o :: o in AnswersFor(batch, result) ==> FromRun(o);
  }

  lemma ReturnKeeps(s: State, result: Result<seq<string>, string>, limits: Limits)
    requires Sound(s, limits) && s.worker.Running?
    ensures var t := Return(s, result);
            Sound(t, limits) && Onward(s, t) && t.queued == s.queued && t.closer == s.closer && !t.worker.Scanning? && !t.worker.Filling?
  {
    ReturnCore(s, result, limits);
    ReturnHand(s, result, limits);
    RaisesGrow(s, Return(s, result));
  }

  // ------------------------------------------------------------ cancellation

  /** A caller may cancel at any moment. */
  lemma CancelKeeps(s: State, id: nat, limits: Limits)
    requires Sound(s, limits)
    ensures var t := Cancel(s, id);
            Sound(t, limits) && Onward(s, t) && t.queued == s.queued && t.worker == s.worker && t.closer == s.closer
  {
    if id < |s.outcomes| && s.outcomes[id].Pending? {
      var t := Cancel(s, id);
      CancelCore(s, id, limits);
      HandKept(s, t, limits);
      CancelHand(s, id, limits);
      forall r | r in t.raised
        ensures RaiseGood(t, r)
      {
        assert RaiseGood(s, r);
        if r.site.AtAnswer? {
          assert forall q :: r.site.pos < q < |s.runs[r.site.run]| ==> LeftOut(s, s.runs[r.site.run][q]) && LeftOut(t, s.runs[r.site.run][q]);
        }
      }
    } else {
      assert Cancel(s, id) == s;
    }
  }

  lemma CancelHand(s: State, id: nat, limits: Limits)
    requires HandGood(s, limits) && HandOutcomes(s) && id < |s.outcomes| && s.outcomes[id].Pending?
    ensures HandOutcomes(Cancel(s, id))
  {
    var t := Cancel(s, id);
    assert forall i {:trigger t.outcomes[i]} :: 0 <= i < |s.outcomes| ==> t.outcomes[i] == s.outcomes[i] || (i == id && t.outcomes[i].Cancelled?);
  }

  lemma CancelCore(s: State, id: nat, limits: Limits)
    requires Core(s, limits) && id < |s.outcomes| && s.outcomes[id].Pending?
    ensures Core(Cancel(s, id), limits) && Onward(s, Cancel(s, id))
  {
    var t := Cancel(s, id);
    forall k | k in t.queues
      ensures QueueGood(t, k)
    {
      assert QueueGood(s, k);
      assert forall j :: j in s.queues[k] ==> MayWait(s, j, k) && MayWait(t, j, k);
    }
    assert forall j {:trigger Waits(t, j)} :: 0 <= j < |s.requests| ==> (Waits(t, j) <==> Waits(s, j));
    assert forall j {:trigger Accepted(t, j)} :: Accepted(t, j) <==> Accepted(s, j);
    SameWaitsLeftFirst(s, t);
    RunsKept(s, t, limits);
    CancelFutures(s, id);
  }

  lemma CancelFutures(s: State, id: nat)
    requires NoneLost(s) && Explained(s) && RunOutcomes(s) && RaiseExplained(s) && id < |s.outcomes| && s.outcomes[id].Pending?
    ensures var t := Cancel(s, id); NoneLost(t) && Explained(t) && RunOutcomes(t) && RaiseExplained(t)
  {
    var t := Cancel(s, id);
    forall j | 0 <= j < |t.requests| && j < |t.outcomes| && t.outcomes[j].Pending?
      ensures Waits(t, j) || j in InHand(t.worker)
    {
      assert Waits(s, j) || j in InHand(s.worker);
    }
    forall j | 0 <= j < |t.outcomes| && FromRun(t.outcomes[j])
      ensures AnsweredWith(t, j, t.outcomes[j])
    {
      AnsweredStays(s, t, j, t.outcomes[j]);
    }
    forall j | 0 <= j < |t.outcomes| && t.outcomes[j] == Failed(SetRaised)
      ensures RaisedBefore(t, j)
    {
      RaisedStays(s, t, j);
    }
    forall a, j | 0 <= a < |t.runs| && j in t.runs[a]
      ensures j < |t.outcomes| && RunOutcome(t.outcomes[j])
    {
      assert j in s.runs[a];
      assert j < |s.outcomes| && RunOutcome(s.outcomes[j]);
    }
  }

  // ------------------------------------------------------ submission, closing

  /** `t` is `s` with request `id`, the newest, at the end of the queue of its key. */
  ghost predicate Queued(s: State, t: State, key: string) {
    var id := |s.requests|;
    var before := if key in s.queues then s.queues[key] else [];
    && |s.outcomes| == id && |t.requests| == |t.outcomes| == id + 1 && t.requests[..id] == s.requests && t.outcomes[..id] == s.outcomes
    && KeyOf(t, id) == key && t.outcomes[id].Pending?
    && t.queues == s.queues[key := before + [id]] && t.queued == s.queued + 1
    && t.order == if key in s.queues then s.order else s.order + [key]
  }

  lemma QueuedCount(s: State, t: State, key: string)
    requires Counted(s) && Queued(s, t, key)
    ensures Counted(t)
  {
    var id := |s.requests|;
    if key in s.queues {
      assert key in Elems(s.order);
      TotalChanged(s.order, s.queues, key, s.queues[key] + [id]);
    } else {
      assert key !in Elems(s.order);
      TotalAppended(s.order, s.queues, key, [id]);
      var none: seq<nat> := [];
      assert none + [id] == [id];
    }
    assert Elems(t.order) == t.queues.Keys;
  }

  lemma QueuedQueues(s: State, t: State, key: string)
    requires QueuesGood(s) && Queued(s, t, key)
    ensures QueuesGood(t)
  {
    var id := |s.requests|;
    forall i | 0 <= i < id
      ensures t.requests[i] == s.requests[i] && t.outcomes[i] == s.outcomes[i]
    {
      assert t.requests[..id][i] == t.requests[i] && t.outcomes[..id][i] == t.outcomes[i];
    }
    forall k | k in t.queues
      ensures QueueGood(t, k)
    {
      if k in s.queues {
        assert QueueGood(s, k);
        assert forall i :: i in s.queues[k] ==> MayWait(s, i, k) && MayWait(t, i, k);
        assert forall n :: 0 <= n < |s.queues[k]| ==> s.queues[k][n] in s.queues[k];
      }
      assert k == key ==> MayWait(t, id, k);
    }
  }

  lemma QueuedWaits(s: State, t: State, key: string)
    requires QueuesGood(s) && Queued(s, t, key)
    ensures forall i {:trigger Waits(t, i)} :: 0 <= i < |s.requests| ==> (Waits(t, i) <==> Waits(s, i))
    ensures Waits(t, |s.requests|)
  {
    forall i | 0 <= i < |s.requests|
      ensures Waits(t, i) <==> Waits(s, i)
    {
      assert t.requests[..|s.requests|][i] == t.requests[i];
    }
  }

  /** A refused request joins no queue. */
  lemma RefusedQueues(s: State, t: State)
    requires QueuesGood(s) && Counted(s) && |t.requests| == |t.outcomes| == |s.requests| + 1
    requires t.requests[..|s.requests|] == s.requests && t.outcomes[..|s.requests|] == s.outcomes
    requires t.queues == s.queues && t.order == s.order && t.queued == s.queued
    ensures QueuesGood(t) && Counted(t)
    ensures forall i {:trigger Waits(t, i)} :: 0 <= i < |s.requests| ==> (Waits(t, i) <==> Waits(s, i))
    ensures !Waits(t, |s.requests|)
  {
    forall i | 0 <= i < |s.requests|
      ensures t.requests[i] == s.requests[i] && t.outcomes[i] == s.outcomes[i]
    {
      assert t.requests[..|s.requests|][i] == t.requests[i] && t.outcomes[..|s.requests|][i] == t.outcomes[i];
    }
    forall k | k in t.queues
      ensures QueueGood(t, k) && |s.requests| !in t.queues[k]
    {
      assert QueueGood(s, k);
      assert forall i :: i in s.queues[k] ==> MayWait(s, i, k) && MayWait(t, i, k);
    }
  }

  lemma SubmitQueues(s: State, r: Request, limits: Limits)
    requires QueuesGood(s) && Counted(s)
    ensures var t := Submit(s, r, limits);
            && QueuesGood(t) && Counted(t) && t.queued <= if s.queued < limits.maxQueue then s.queued + 1 else s.queued
    ensures var t := Submit(s, r, limits);
            forall i {:trigger Waits(t, i)} :: 0 <= i < |s.requests| ==> (Waits(t, i) <==> Waits(s, i))
    ensures var t := Submit(s, r, limits);
            Waits(t, |s.requests|) <==> t.outcomes[|s.requests|].Pending?
  {
    var t := Submit(s, r, limits);
    if s.stopping || s.queued >= limits.maxQueue {
      RefusedQueues(s, t);
    } else {
      QueuedCount(s, t, r.key);
      QueuedQueues(s, t, r.key);
      QueuedWaits(s, t, r.key);
    }
  }

  /** `t` is `s` with one more request, refused at once or put in a queue. */
  ghost predicate OneMore(s: State, t: State) {
    var id := |s.requests|;
    && |s.outcomes| == id && |t.requests| == |t.outcomes| == id + 1 && t.requests[..id] == s.requests && t.outcomes[..id] == s.outcomes
    && (forall i {:trigger Waits(t, i)} :: 0 <= i < id ==> (Waits(t, i) <==> Waits(s, i)))
    && (t.outcomes[id] == Failed(Stopped) || t.outcomes[id] == Failed(QueueFull) || (t.outcomes[id].Pending? && Waits(t, id)))
    && (t.outcomes[id].Failed? ==> !Waits(t, id))
    && t.runs == s.runs && t.answered == s.answered && t.raised == s.raised && t.worker == s.worker && t.closer == s.closer
  }

  lemma OneMoreSame(s: State, t: State)
    requires OneMore(s, t)
    ensures forall i {:trigger t.requests[i]} {:trigger t.outcomes[i]} :: 0 <= i < |s.requests| ==> t.requests[i] == s.requests[i] && t.outcomes[i] == s.outcomes[i]
    ensures forall i {:trigger Accepted(t, i)} :: 0 <= i < |s.requests| ==> (Accepted(t, i) <==> Accepted(s, i))
    ensures Onward(s, t)
  {
    forall i | 0 <= i < |s.requests|
      ensures t.requests[i] == s.requests[i] && t.outcomes[i] == s.outcomes[i]
    {
      assert t.requests[..|s.requests|][i] == t.requests[i] && t.outcomes[..|s.requests|][i] == t.outcomes[i];
    }
  }

  lemma OneMoreLeftFirst(s: State, t: State)
    requires OneMore(s, t) && LeftFirst(s)
    ensures LeftFirst(t)
  {
    OneMoreSame(s, t);
    var id := |s.requests|;
    assert Waits(t, id) || !Accepted(t, id);
    forall i, j | 0 <= i < |t.requests| && 0 <= j < |t.requests| && Accepted(t, i) && !Waits(t, i) && Waits(t, j) && KeyOf(t, i) == KeyOf(t, j)
      ensures i < j
    {
      if i < id && j < id {
        assert Accepted(s, i) && !Waits(s, i) && Waits(s, j);
      }
    }
  }

  lemma OneMoreFutures(s: State, t: State)
    requires OneMore(s, t) && NoneLost(s)
    ensures NoneLost(t) && QuietOutside(s, t)
  {
    OneMoreSame(s, t);
    forall i | 0 <= i < |t.requests| && t.outcomes[i].Pending?
      ensures Waits(t, i) || i in InHand(t.worker)
    {
      if i < |s.requests| { assert Waits(s, i) || i in InHand(s.worker); }
    }
  }

  lemma SubmitKeeps(s: State, r: Request, limits: Limits)
    requires Sound(s, limits) && LockFree(s)
    ensures var t := Submit(s, r, limits);
            && Sound(t, limits) && Onward(s, t) && LockFree(t)
            && t.queued <= if s.queued < limits.maxQueue then s.queued + 1 else s.queued
  {
    var t := Submit(s, r, limits);
    SubmitQueues(s, r, limits);
    assert OneMore(s, t);
    OneMoreSame(s, t);
    OneMoreLeftFirst(s, t);
    OneMoreFutures(s, t);
    RunsKept(s, t, limits);
    OutcomesKept(s, t, limits);
    HandKept(s, t, limits);
    HandOutcomesKept(s, t, limits);
    RaisesKept(s, t, limits);
  }

  lemma {:induction false} FailQueueKeeps(s: State, k: string, limits: Limits)
    requires Sound(s, limits) && Indexed(s) && LockFree(s) && k in s.queues && (s.worker.Exited? ==> s.queues[k] == [])
    ensures var t := FailQueue(s, k);
            && Sound(t, limits) && Onward(s, t) && t.queued <= s.queued && t.worker == s.worker && t.closer == s.closer && t.stopping == s.stopping
            && forall j :: j in s.queues && j != k ==> t.queues[j] == s.queues[j]
    decreases |s.queues[k]|
  {
    if s.queues[k] != [] {
      var d := Discard(s, k, Closed);
      DiscardKeeps(s, k, Closed, limits);
      FailQueueKeeps(d, k, limits);
      OnwardTrans(s, d, FailQueue(s, k));
    }
  }

  lemma {:induction false} FailQueuesKeeps(s: State, keys: seq<string>, limits: Limits)
    requires Sound(s, limits) && Indexed(s) && LockFree(s) && NoDuplicates(keys) && forall k :: k in keys ==> k in s.queues
    requires s.worker.Exited? ==> forall k :: k in keys ==> s.queues[k] == []
    ensures var t := FailQueues(s, keys);
            && Sound(t, limits) && Onward(s, t) && t.queued <= s.queued && t.worker == s.worker && t.closer == s.closer && t.stopping == s.stopping
    decreases |keys|
  {
    if keys == [] {
      SameOnward(s);
    } else {
      assert forall k :: k in keys[1..] ==> k in keys;
      assert keys[0] !in keys[1..];
      FailQueueKeeps(s, keys[0], limits);
      FailQueuesKeeps(FailQueue(s, keys[0]), keys[1..], limits);
      OnwardTrans(s, FailQueue(s, keys[0]), FailQueues(s, keys));
    }
  }

  lemma {:induction false} FailQueueEmpties(s: State, k: string)
    requires Indexed(s) && k in s.queues
    ensures forall j :: j in s.queues && j != k ==> FailQueue(s, k).queues[j] == s.queues[j]
    decreases |s.queues[k]|
  {
    if s.queues[k] != [] { FailQueueEmpties(Discard(s, k, Closed), k); }
  }

  lemma {:induction false} FailQueuesEmpty(s: State, keys: seq<string>)
    requires Indexed(s) && forall k :: k in keys ==> k in s.queues
    ensures var t := FailQueues(s, keys);
            && (forall k :: k in keys ==> t.queues[k] == [])
            && forall k :: k in s.queues && s.queues[k] == [] ==> t.queues[k] == []
    decreases |keys|
  {
    if keys != [] {
      assert forall k :: k in keys[1..] ==> k in keys;
      FailQueueEmpties(s, keys[0]);
      var d := FailQueue(s, keys[0]);
      FailQueuesEmpty(d, keys[1..]);
      forall k | k in keys
        ensures FailQueues(s, keys).queues[k] == []
      {
        if k != keys[0] { assert k in keys[1..]; }
      }
    }
  }

  lemma CloseKeeps(s: State, cancelPending: bool, limits: Limits)
    requires Sound(s, limits) && Indexed(s) && LockFree(s)
    ensures var t := Close(s, cancelPending);
            && Sound(t, limits) && Onward(s, t) && t.queued <= s.queued && t.stopping && LockFree(t) && t.worker == s.worker
            && (cancelPending ==> t.queued == 0)
  {
    StoppingKeeps(s, limits);
    if cancelPending {
      FlushKeeps(s.(stopping := true), limits);
      OnwardTrans(s, s.(stopping := true), Close(s, true));
    }
  }

  /** Once the worker has left nothing is queued. */
  lemma ExitedIsEmpty(s: State, limits: Limits)
    requires Counted(s) && HandGood(s, limits) && s.worker.Exited?
    ensures forall k :: k in s.queues ==> s.queues[k] == []
  {
    forall k | k in s.queues
      ensures s.queues[k] == []
    {
      assert k in Elems(s.order);
      TotalBound(s.order, s.queues, k);
    }
  }

  lemma FlushKeeps(u: State, limits: Limits)
    requires Sound(u, limits) && Indexed(u) && LockFree(u)
    ensures var t := FailQueues(u, u.order);
            && Sound(t, limits) && Onward(u, t) && t.queued == 0 && t.worker == u.worker && t.stopping == u.stopping && t.closer == u.closer
    ensures 0 <= u.queued
  {
    if u.worker.Exited? { ExitedIsEmpty(u, limits); }
    FailQueuesKeeps(u, u.order, limits);
    FailQueuesEmpty(u, u.order);
    var t := FailQueues(u, u.order);
    AllEmpty(t.order, t.queues);
  }

  lemma {:induction false} AllEmpty(order: seq<string>, q: map<string, seq<nat>>)
    requires forall k :: k in order ==> k in q && q[k] == []
    ensures Total(order, q) == 0
    decreases |order|
  {
    if order != [] {
      assert order[0] in order;
      assert forall k :: k in order[1..] ==> k in order;
      AllEmpty(order[1..], q);
    }
  }

  lemma StoppingKeeps(s: State, limits: Limits)
    requires Sound(s, limits)
    ensures Sound(s.(stopping := true), limits) && Onward(s, s.(stopping := true))
  {
    var t := s.(stopping := true);
    MoveOn(s, t, limits);
    HandKept(s, t, limits);
    HandOutcomesKept(s, t, limits);
    RaisesKept(s, t, limits);
  }

  // ---------------------------------------------------------------- one turn

  lemma HandIndexed(s: State, limits: Limits)
    requires Sound(s, limits)
    ensures Open(s)
    ensures s.worker.Holding? ==> forall i :: i in s.worker.batch ==> i < |s.outcomes|
  {
    SoundIsIndexed(s);
    if s.worker.Answering? { assert BatchGood(s, s.runs[|s.runs| - 1], limits); }
  }

  lemma TurnKeeps(s: State, now: real, limits: Limits)
    requires Inv(s, limits) && limits.maxBatch >= 1 && Indexed(s) && LockFree(s)
    ensures Inv(Wake(s, now, limits), limits) && Onward(s, Wake(s, now, limits)) && LockFree(Wake(s, now, limits))
  {
    if s.worker.Idle? && s.queued != 0 {
      SelectKeeps(s, now, limits);
    } else if s.worker.Idle? && s.stopping {
      var t := Wake(s, now, limits);
      MoveOn(s, t, limits);
      RaisesKept(s, t, limits);
    }
  }
}
