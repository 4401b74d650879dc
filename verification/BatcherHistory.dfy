/** Every interleaving of callers, cancellations, closing calls and the worker of
    the micro-batching queue, with cancellations inside critical sections too. */
module BatchingHistory {
  import opened Prelude
  import opened Batching
  import opened BatchingSteps
  import opened BatchingSections

  // ------------------------------------------------------ steps of a section

  lemma ScanStepKeeps(s: State, limits: Limits)
    requires Sound(s, limits) && Open(s) && s.worker.Scanning?
    ensures var t := ScanStep(s, limits); Sound(t, limits) && Onward(s, t) && t.queued <= s.queued
  {
    var w := s.worker;
    if w.todo == [] {
      if w.best.None? || !Ready(s, w.best.value, w.now, limits) { BackToIdle(s, limits); } else { StartFilling(s, w.best.value, limits); }
    } else {
      assert w.todo[0] in w.todo;
      var head := if s.queues[w.todo[0]] == [] then 0 else s.queues[w.todo[0]][0];
      if s.queues[w.todo[0]] == [] || (!w.checked && !Droppable(s, head, w.now)) {
        PassKeeps(s, limits);
      } else if !w.checked && !s.outcomes[head].Cancelled? {
        CheckHeadKeeps(s, limits);
      } else {
        DropHeadKeeps(s, limits);
      }
    }
  }

  /** The scan passes to the next queue. */
  lemma PassKeeps(s: State, limits: Limits)
    requires Sound(s, limits) && Open(s) && s.worker.Scanning? && s.worker.todo != []
    ensures var w := s.worker;
            var t := s.(worker := Scanning(w.now, w.todo[1..], Earlier(s, w.best, w.todo[0]), false));
            Sound(t, limits) && Onward(s, t)
  {
    var w := s.worker;
    assert w.todo[0] in w.todo && w.todo[0] !in w.todo[1..];
    assert forall k :: k in w.todo[1..] ==> k in w.todo;
    var t := s.(worker := Scanning(w.now, w.todo[1..], Earlier(s, w.best, w.todo[0]), false));
    MoveOn(s, t, limits);
    RaisesKept(s, t, limits);
  }

  lemma CheckHeadKeeps(s: State, limits: Limits)
    requires Sound(s, limits) && Open(s) && s.worker.Scanning? && s.worker.todo != [] && s.queues[s.worker.todo[0]] != []
    ensures var w := s.worker; var t := s.(worker := Scanning(w.now, w.todo, w.best, true)); Sound(t, limits) && Onward(s, t)
  {
    var w := s.worker;
    var t := s.(worker := Scanning(w.now, w.todo, w.best, true));
    MoveOn(s, t, limits);
    RaisesKept(s, t, limits);
  }

  /** A head is thrown away: cancelled, set, or lost in a race. */
  lemma DropHeadKeeps(s: State, limits: Limits)
    requires Sound(s, limits) && Open(s) && s.worker.Scanning? && s.worker.todo != [] && s.queues[s.worker.todo[0]] != []
    requires s.worker.checked || s.outcomes[s.queues[s.worker.todo[0]][0]].Cancelled?
    ensures var t := ScanStep(s, limits); Sound(t, limits) && Onward(s, t) && t.queued <= s.queued
  {
    var w, k := s.worker, s.worker.todo[0];
    assert k in w.todo;
    var head, t := s.queues[k][0], ScanStep(s, limits);
    HeadFacts(s, k);
    DiscardCore(s, t, k, Expired, limits);
    if w.checked && !s.outcomes[head].Pending? {
      RaiseAdded(s, t, Raise(head, AtScan), limits);
    } else {
      RaisesKept(s, t, limits);
    }
  }

  lemma FillStepKeeps(s: State, limits: Limits)
    requires Sound(s, limits) && Open(s) && s.worker.Filling?
    ensures var t := FillStep(s, limits); Sound(t, limits) && Onward(s, t) && t.queued <= s.queued
  {
    var k := s.worker.key;
    if s.queues[k] == [] || |s.worker.batch| >= limits.maxBatch {
      ReleaseKeeps(s, limits);
    } else if s.outcomes[s.queues[k][0]].Cancelled? {
      DiscardKeeps(s, k, Expired, limits);
    } else {
      TakeKeeps(s, k, limits);
    }
  }

  /** A closing call moves on; the worker stays where it is. */
  lemma CloserMoves(s: State, c: Closer, limits: Limits)
    requires Sound(s, limits) && s.closer.Flushing? && CloserGood(s.(closer := c))
    ensures Sound(s.(closer := c), limits) && Onward(s, s.(closer := c))
  {
    var t := s.(closer := c);
    MoveOn(s, t, limits);
    HandKept(s, t, limits);
    HandOutcomesKept(s, t, limits);
    RaisesKept(s, t, limits);
  }

  lemma FlushStepKeeps(s: State, limits: Limits)
    requires Sound(s, limits) && Open(s) && s.closer.Flushing?
    ensures var t := FlushStep(s); Sound(t, limits) && Onward(s, t) && t.queued <= s.queued
  {
    var todo, t := s.closer.todo, FlushStep(s);
    if todo == [] {
      CloserMoves(s, NoCloser, limits);
    } else {
      assert todo[0] in todo;
      assert forall k :: k in todo[1..] ==> k in todo;
      if s.queues[todo[0]] == [] {
        CloserMoves(s, Flushing(todo[1..], false), limits);
      } else if !s.closer.checked && s.outcomes[s.queues[todo[0]][0]].Pending? {
        CloserMoves(s, Flushing(todo, true), limits);
      } else {
        FlushHeadKeeps(s, limits);
      }
    }
  }

  lemma FlushHeadKeeps(s: State, limits: Limits)
    requires Sound(s, limits) && Open(s) && s.closer.Flushing? && s.closer.todo != []
    requires s.closer.todo[0] in s.queues && s.queues[s.closer.todo[0]] != []
    requires s.closer.checked || !s.outcomes[s.queues[s.closer.todo[0]][0]].Pending?
    ensures var t := FlushStep(s); Sound(t, limits) && Onward(s, t) && t.queued <= s.queued
  {
    var k, t := s.closer.todo[0], FlushStep(s);
    var head := s.queues[k][0];
    HeadFacts(s, k);
    if s.worker.Exited? { ExitedIsEmpty(s, limits); }
    DiscardCore(s, t, k, Closed, limits);
    HandKept(s, t, limits);
    if s.closer.checked && !s.outcomes[head].Pending? {
      RaiseAdded(s, t, Raise(head, AtClose), limits);
      MoreRaises(s, t, limits);
    } else {
      HandOutcomesKept(s, t, limits);
      RaisesKept(s, t, limits);
    }
  }

  /** A raise in a closing call does not concern the batch in hand. */
  lemma MoreRaises(s: State, t: State, limits: Limits)
    requires RunsGood(s, limits) && HandGood(s, limits) && HandOutcomes(s) && QuietOutside(s, t) && t.worker == s.worker
    requires exists r: Raise :: t.raised == s.raised + [r] && r.site.AtClose?
    ensures HandOutcomes(t)
  {
    HandOutcomesKept(s, t.(raised := s.raised), limits);
    assert forall x :: x in s.raised ==> x in t.raised;
  }

  // ---------------------------------------------------------- setting futures

  /** The future at hand is out of the queues and of the earlier positions. */
  lemma NextFacts(s: State, limits: Limits)
    requires Core(s, limits) && HandGood(s, limits) && s.worker.Answering? && s.worker.next < |s.worker.batch|
    ensures var w := s.worker; var i := w.batch[w.next];
            && i in s.runs[|s.runs| - 1] && i < |s.requests| && i < |s.outcomes| && Accepted(s, i) && !Waits(s, i)
            && BatchGood(s, w.batch, limits) && (forall q :: 0 <= q < |w.batch| && q != w.next ==> w.batch[q] != i)
            && (forall q :: 0 <= q < w.next ==> w.batch[q] < |s.outcomes| && !s.outcomes[w.batch[q]].Pending?)
            && forall j :: j in w.batch[w.next..] && j !in w.batch[w.next + 1..] ==> j == i
  {
    var w := s.worker;
    var i := w.batch[w.next];
    assert BatchGood(s, s.runs[|s.runs| - 1], limits) && i in w.batch;
    forall q | 0 <= q < w.next
      ensures w.batch[q] < |s.outcomes| && !s.outcomes[w.batch[q]].Pending?
    {
      var j := w.batch[q];
      assert j in w.batch && Accepted(s, j) && !Waits(s, j);
      forall n | 0 <= n < |w.batch[w.next..]|
        ensures w.batch[w.next..][n] != j
      {
        assert w.batch[w.next..][n] == w.batch[w.next + n];
      }
    }
    NextLeaves(w.batch, w.next);
  }

  lemma CheckNextKeeps(s: State, limits: Limits)
    requires Sound(s, limits) && s.worker.Answering? && !s.worker.checked && (s.worker.next < |s.worker.batch| ==> s.worker.batch[s.worker.next] < |s.outcomes|)
    ensures var t := CheckNext(s); Sound(t, limits) && Onward(s, t) && t.queued == s.queued
  {
    CheckCore(s, limits);
    RaisesKept(s, CheckNext(s), limits);
    CheckHand(s, limits);
  }

  lemma CheckCore(s: State, limits: Limits)
    requires Core(s, limits) && HandGood(s, limits) && s.worker.Answering? && (s.worker.next < |s.worker.batch| ==> s.worker.batch[s.worker.next] < |s.outcomes|)
    ensures var t := CheckNext(s); Core(t, limits) && Onward(s, t) && QuietOutside(s, t)
  {
    CheckLetsGo(s);
    MoveOn(s, CheckNext(s), limits);
  }

  lemma CheckLetsGo(s: State)
    requires s.worker.Answering? && (s.worker.next < |s.worker.batch| ==> s.worker.batch[s.worker.next] < |s.outcomes|)
    ensures forall i :: i in InHand(s.worker) && i !in InHand(CheckNext(s).worker) ==> i < |s.outcomes| && !s.outcomes[i].Pending?
  {
    var w := s.worker;
    if w.next < |w.batch| { NextLeaves(w.batch, w.next); }
  }

  lemma NextLeaves(batch: seq<nat>, n: nat)
    requires n < |batch|
    ensures forall j :: j in batch[n..] && j !in batch[n + 1..] ==> j == batch[n]
  {
    assert batch[n..] == [batch[n]] + batch[n + 1..];
  }

  lemma CheckHand(s: State, limits: Limits)
    requires HandGood(s, limits) && HandOutcomes(s) && CloserGood(s) && s.worker.Answering? && !s.worker.checked
    requires s.worker.next < |s.worker.batch| ==> s.worker.batch[s.worker.next] < |s.outcomes|
    ensures var t := CheckNext(s); HandGood(t, limits) && HandOutcomes(t) && CloserGood(t)
  {
  }

  lemma SetNextKeeps(s: State, limits: Limits)
    requires Sound(s, limits) && Open(s) && s.worker.Answering? && s.worker.next < |s.worker.batch|
    requires s.worker.next < |s.worker.answers| && s.worker.batch[s.worker.next] < |s.outcomes| && s.worker.checked
    ensures var t := SetNext(s); Sound(t, limits) && Onward(s, t) && t.queued == s.queued
  {
    if s.outcomes[s.worker.batch[s.worker.next]].Pending? {
      SetKeeps(s, limits);
    } else if s.worker.mode.Setting? {
      RecoverKeeps(s, limits);
    } else {
      CrashKeeps(s, limits);
    }
  }

  /** The error of a lost race goes to the batch from its start. */
  lemma RecoverKeeps(s: State, limits: Limits)
    requires Sound(s, limits) && s.worker.Answering? && s.worker.next < |s.worker.batch| && s.worker.mode.Setting?
    requires s.worker.next < |s.worker.answers| && s.worker.batch[s.worker.next] < |s.outcomes| && s.worker.checked
    requires !s.outcomes[s.worker.batch[s.worker.next]].Pending?
    ensures var t := SetNext(s); Sound(t, limits) && Onward(s, t)
  {
    var w, t := s.worker, SetNext(s);
    NextFacts(s, limits);
    assert w.batch[0..] == w.batch;
    MoveOn(s, t, limits);
    RecoverRaise(s, limits);
    RaiseAdded(s, t, Raise(w.batch[w.next], AtAnswer(|s.runs| - 1, w.next)), limits);
    RecoverHand(s, limits);
  }

  lemma RecoverRaise(s: State, limits: Limits)
    requires HandGood(s, limits) && HandOutcomes(s) && s.worker.Answering? && s.worker.next < |s.worker.batch| && s.worker.mode.Setting?
    requires s.worker.next < |s.worker.answers| && s.worker.batch[s.worker.next] < |s.outcomes| && s.worker.checked
    requires !s.outcomes[s.worker.batch[s.worker.next]].Pending?
    ensures var w := s.worker; RaiseGood(SetNext(s), Raise(w.batch[w.next], AtAnswer(|s.runs| - 1, w.next)))
  {
    var w, t := s.worker, SetNext(s);
    forall q | w.next < q < |w.batch|
      ensures LeftOut(t, w.batch[q])
    {
      assert Untouched(s.outcomes[w.batch[q]]);
    }
  }

  lemma RecoverHand(s: State, limits: Limits)
    requires HandGood(s, limits) && HandOutcomes(s) && CloserGood(s) && s.worker.Answering? && s.worker.next < |s.worker.batch| && s.worker.mode.Setting?
    requires s.worker.next < |s.worker.answers| && s.worker.batch[s.worker.next] < |s.outcomes| && s.worker.checked
    requires !s.outcomes[s.worker.batch[s.worker.next]].Pending?
    requires forall q :: 0 <= q < s.worker.next ==> s.worker.batch[q] < |s.outcomes| && !s.outcomes[s.worker.batch[q]].Pending?
    ensures var t := SetNext(s); HandGood(t, limits) && HandOutcomes(t) && CloserGood(t)
  {
    var w, t := s.worker, SetNext(s);
    assert Raise(w.batch[w.next], AtAnswer(|s.runs| - 1, w.next)) in t.raised;
  }

  lemma CrashKeeps(s: State, limits: Limits)
    requires Sound(s, limits) && s.worker.Answering? && s.worker.next < |s.worker.batch| && !s.worker.mode.Setting?
    requires s.worker.next < |s.worker.answers| && s.worker.batch[s.worker.next] < |s.outcomes| && s.worker.checked
    requires !s.outcomes[s.worker.batch[s.worker.next]].Pending?
    ensures var t := SetNext(s); Sound(t, limits) && Onward(s, t)
  {
    var w, t := s.worker, SetNext(s);
    CrashCore(s, limits);
    SuffixGood(t, w.batch, w.next + 1, limits);
    NextIsUntouched(s, limits);
    RaiseAdded(s, t, Raise(w.batch[w.next], AtFailing), limits);
  }

  lemma CrashCore(s: State, limits: Limits)
    requires Core(s, limits) && HandGood(s, limits) && s.worker.Answering? && s.worker.next < |s.worker.batch| && !s.worker.mode.Setting?
    requires s.worker.next < |s.worker.answers| && s.worker.batch[s.worker.next] < |s.outcomes|
    requires !s.outcomes[s.worker.batch[s.worker.next]].Pending?
    ensures var t := SetNext(s); Core(t, limits) && Onward(s, t) && QuietOutside(s, t) && BatchGood(t, s.worker.batch, limits)
  {
    NextFacts(s, limits);
    MoveOn(s, SetNext(s), limits);
    BatchKept(s, SetNext(s), s.worker.batch, limits);
  }

  /** A future of the batch in hand is set; nothing else changes. */
  ghost predicate JustSet(s: State, t: State, i: nat, o: Outcome) {
    && i < |s.outcomes| && s.outcomes[i].Pending? && (FromRun(o) || o == Failed(SetRaised))
    && t == s.(outcomes := s.outcomes[i := o], worker := t.worker)
  }

  lemma SetQueues(s: State, t: State, i: nat, o: Outcome)
    requires QueuesGood(s) && Counted(s) && LeftFirst(s) && JustSet(s, t, i, o) && i < |s.requests| && Accepted(s, i) && !Waits(s, i)
    ensures QueuesGood(t) && Counted(t) && LeftFirst(t) && Onward(s, t)
    ensures forall j {:trigger Waits(t, j)} :: 0 <= j < |s.requests| ==> (Waits(t, j) <==> Waits(s, j))
  {
    forall k | k in t.queues
      ensures QueueGood(t, k)
    {
      assert QueueGood(s, k);
      forall j | j in t.queues[k]
        ensures MayWait(t, j, k)
      {
        assert MayWait(s, j, k) && Waits(s, j);
      }
    }
    assert forall j {:trigger Waits(t, j)} :: 0 <= j < |s.requests| ==> (Waits(t, j) <==> Waits(s, j));
    assert forall j {:trigger Accepted(t, j)} :: Accepted(t, j) <==> Accepted(s, j);
    SameWaitsLeftFirst(s, t);
  }

  lemma SetOutcomes(s: State, t: State, i: nat, o: Outcome)
    requires Explained(s) && RunOutcomes(s) && RaiseExplained(s) && JustSet(s, t, i, o)
    requires if FromRun(o) then AnsweredWith(s, i, o) else RaisedBefore(s, i)
    ensures Explained(t) && RunOutcomes(t) && RaiseExplained(t)
  {
    forall j | 0 <= j < |t.outcomes| && FromRun(t.outcomes[j])
      ensures AnsweredWith(t, j, t.outcomes[j])
    {
      AnsweredStays(s, t, j, t.outcomes[j]);
    }
    forall j | 0 <= j < |t.outcomes| && t.outcomes[j] == Failed(SetRaised)
      ensures RaisedBefore(t, j)
    {
      RaisedStays(s, t, j);
    }
    forall a, j | 0 <= a < |t.runs| && j in t.runs[a]
      ensures j < |t.outcomes| && RunOutcome(t.outcomes[j])
    {
      assert j in s.runs[a];
    }
  }

  /** Two runs share no request. */
  lemma RunsDisjoint(s: State, a: int, b: int, i: nat, limits: Limits)
    requires RunsGood(s, limits) && 0 <= a < |s.runs| && 0 <= b < |s.runs| && i in s.runs[a] && i in s.runs[b]
    ensures a == b
  {
    assert BatchGood(s, s.runs[a], limits);
    assert a < b ==> RunsBefore(s, s.runs[a], s.runs[b]);
    assert b < a ==> RunsBefore(s, s.runs[b], s.runs[a]);
  }

  lemma SetRaises(s: State, t: State, i: nat, o: Outcome, limits: Limits)
    requires RunsGood(s, limits) && RaisesGood(s) && JustSet(s, t, i, o) && s.runs != [] && i in s.runs[|s.runs| - 1]
    requires !s.worker.Crashed? && !t.worker.Crashed? && (RaisesBefore(s, |s.runs| - 1) || o == Failed(SetRaised))
    ensures RaisesGood(t)
  {
    forall r | r in t.raised
      ensures RaiseGood(t, r)
    {
      assert RaiseGood(s, r);
      if r.site.AtAnswer? {
        var batch := s.runs[r.site.run];
        forall q | r.site.pos < q < |batch|
          ensures LeftOut(t, batch[q])
        {
          assert LeftOut(s, batch[q]);
          if batch[q] == i {
            assert i in batch;
            RunsDisjoint(s, r.site.run, |s.runs| - 1, i, limits);
          }
        }
      }
    }
  }

  lemma SetKeeps(s: State, limits: Limits)
    requires Sound(s, limits) && s.worker.Answering? && s.worker.next < |s.worker.batch| && s.worker.checked
    requires s.worker.next < |s.worker.answers| && s.worker.batch[s.worker.next] < |s.outcomes|
    requires s.outcomes[s.worker.batch[s.worker.next]].Pending?
    ensures var t := SetNext(s); Sound(t, limits) && Onward(s, t)
  {
    SetExplained(s, limits);
    SetNextCore(s, limits);
    SetHand(s, limits);
  }

  lemma SetNextCore(s: State, limits: Limits)
    requires Core(s, limits) && HandGood(s, limits) && HandOutcomes(s) && RaisesGood(s)
    requires s.worker.Answering? && s.worker.next < |s.worker.batch| && s.worker.next < |s.worker.answers|
    requires s.worker.batch[s.worker.next] < |s.outcomes| && s.outcomes[s.worker.batch[s.worker.next]].Pending?
    requires var w := s.worker; var i, o := w.batch[w.next], w.answers[w.next];
             && (if w.mode.Recovering? then o == Failed(SetRaised) else FromRun(o))
             && if FromRun(o) then AnsweredWith(s, i, o) else RaisedBefore(s, i)
    ensures var t := SetNext(s); Core(t, limits) && Onward(s, t) && RaisesGood(t)
  {
    var w, t := s.worker, SetNext(s);
    NextFacts(s, limits);
    NextIsSet(s);
    SetCore(s, t, w.batch[w.next], w.answers[w.next], limits);
    SetRaises(s, t, w.batch[w.next], w.answers[w.next], limits);
  }

  /** Setting the future at hand changes nothing but its outcome and the worker. */
  lemma NextIsSet(s: State)
    requires s.worker.Answering? && s.worker.next < |s.worker.batch| && s.worker.next < |s.worker.answers|
    requires s.worker.batch[s.worker.next] < |s.outcomes| && s.outcomes[s.worker.batch[s.worker.next]].Pending?
    requires FromRun(s.worker.answers[s.worker.next]) || s.worker.answers[s.worker.next] == Failed(SetRaised)
    ensures var w, t := s.worker, SetNext(s);
            && JustSet(s, t, w.batch[w.next], w.answers[w.next]) && t.worker == w.(next := w.next + 1, checked := false)
            && forall j :: j in InHand(w) && j !in InHand(t.worker) ==> j == w.batch[w.next]
  {
    NextLeaves(s.worker.batch, s.worker.next);
  }

  lemma SetCore(s: State, t: State, i: nat, o: Outcome, limits: Limits)
    requires Core(s, limits) && JustSet(s, t, i, o) && i < |s.requests| && Accepted(s, i) && !Waits(s, i)
    requires if FromRun(o) then AnsweredWith(s, i, o) else RaisedBefore(s, i)
    requires forall j :: j in InHand(s.worker) && j !in InHand(t.worker) ==> j == i
    ensures Core(t, limits) && Onward(s, t)
  {
    SetQueues(s, t, i, o);
    SetOutcomes(s, t, i, o);
    RunsKept(s, t, limits);
    forall j | 0 <= j < |t.requests| && t.outcomes[j].Pending?
      ensures Waits(t, j) || j in InHand(t.worker)
    {
      assert Waits(s, j) || j in InHand(s.worker);
    }
  }

  /** What the future at hand is set to is its answer, or the error of a raise before it. */
  lemma SetExplained(s: State, limits: Limits)
    requires Sound(s, limits) && s.worker.Answering? && s.worker.next < |s.worker.batch| && s.worker.checked
    requires s.worker.next < |s.worker.answers| && s.worker.batch[s.worker.next] < |s.outcomes|
    requires s.outcomes[s.worker.batch[s.worker.next]].Pending?
    ensures var w := s.worker; var i, o := w.batch[w.next], w.answers[w.next];
            && (if w.mode.Recovering? then o == Failed(SetRaised) else FromRun(o))
            && if FromRun(o) then AnsweredWith(s, i, o) else RaisedBefore(s, i)
  {
    var w := s.worker;
    var a := |s.runs| - 1;
    assert w.answers[w.next] in w.answers;
    if w.mode.Recovering? {
      assert s.runs[a][w.next] == w.batch[w.next] && Raise(s.runs[a][w.mode.at], AtAnswer(a, w.mode.at)) in s.raised;
    } else {
      assert s.runs[a][w.next] == w.batch[w.next] && s.answered[a][w.next] == w.answers[w.next];
    }
  }

  lemma SetHand(s: State, limits: Limits)
    requires Sound(s, limits) && s.worker.Answering? && s.worker.next < |s.worker.batch| && s.worker.checked
    requires s.worker.next < |s.worker.answers| && s.worker.batch[s.worker.next] < |s.outcomes|
    requires s.outcomes[s.worker.batch[s.worker.next]].Pending?
    ensures HandOutcomes(SetNext(s)) && HandGood(SetNext(s), limits)
  {
    var w, t := s.worker, SetNext(s);
    NextFacts(s, limits);
    forall q | 0 <= q < |w.batch| && q != w.next
      ensures w.batch[q] < |s.outcomes| ==> t.outcomes[w.batch[q]] == s.outcomes[w.batch[q]]
    {
    }
  }

  /** A future found undecided was at most cancelled since. */
  lemma NextIsUntouched(s: State, limits: Limits)
    requires Sound(s, limits) && s.worker.Answering? && s.worker.next < |s.worker.batch| && s.worker.checked
    requires s.worker.batch[s.worker.next] < |s.outcomes|
    ensures Untouched(s.outcomes[s.worker.batch[s.worker.next]])
  {
  }

  lemma SuffixGood(s: State, batch: seq<nat>, n: nat, limits: Limits)
    requires BatchGood(s, batch, limits) && n <= |batch|
    ensures BatchGood(s, batch[n..], limits)
  {
    forall i | i in batch[n..]
      ensures i in batch
    {
      var q :| 0 <= q < |batch[n..]| && batch[n..][q] == i;
      assert batch[n + q] == i;
    }
  }

  lemma AdvanceKeeps(s: State, limits: Limits)
    requires Sound(s, limits) && Open(s)
    ensures var t := Advance(s, limits); Sound(t, limits) && Onward(s, t) && t.queued <= s.queued
  {
    match s.worker
    case Scanning(_, _, _, _) => ScanStepKeeps(s, limits);
    case Filling(_, _) => FillStepKeeps(s, limits);
    case Answering(batch, _, next, checked, _) =>
      assert next < |batch| ==> batch[next] in batch;
      if next < |batch| && checked { SetNextKeeps(s, limits); } else { CheckNextKeeps(s, limits); }
    case _ =>
  }

  // ------------------------------------------------------------- all histories

  /** What happens next: a request arrives, a caller cancels, the worker wakes up,
      takes its next step, admits the batch it holds or gets something back from
      `run_batch`, or somebody closes the queue, one step at a time. */
  datatype Event =
    | Arrive(request: Request)
    | Withdraw(id: nat)
    | Turn(now: real)
    | Work
    | Enter
    | Leave(result: Result<seq<string>, string>)
    | Stop(cancelPending: bool)
    | Flush

  function TurnOf(s: State, now: real): State {
    if !s.worker.Idle? || !LockFree(s) then s
    else if s.queued == 0 then (if s.stopping then s.(worker := Exited) else s)
    else s.(worker := Scanning(now, s.order, None, false))
  }

  function StopOf(s: State, cancelPending: bool): State {
    if !LockFree(s) then s
    else s.(stopping := true, closer := if cancelPending then Flushing(s.order, false) else NoCloser)
  }

  function Apply(s: State, e: Event, limits: Limits): State
    requires Open(s)
  {
    match e
    case Arrive(request) => if LockFree(s) then Submit(s, request, limits) else s
    case Withdraw(id) => Cancel(s, id)
    case Turn(now) => TurnOf(s, now)
    case Work => Advance(s, limits)
    case Enter => if LockFree(s) then Admit(s) else s
    case Leave(result) => Return(s, result)
    case Stop(cancelPending) => StopOf(s, cancelPending)
    case Flush => if s.closer.Flushing? then FlushStep(s) else s
  }

  lemma TurnOfKeeps(s: State, now: real, limits: Limits)
    requires Sound(s, limits)
    ensures var t := TurnOf(s, now); Sound(t, limits) && Onward(s, t) && t.queued == s.queued
  {
    var t := TurnOf(s, now);
    if s.worker.Idle? && LockFree(s) {
      MoveOn(s, t, limits);
      RaisesKept(s, t, limits);
    }
  }

  lemma StopOfKeeps(s: State, cancelPending: bool, limits: Limits)
    requires Sound(s, limits)
    ensures var t := StopOf(s, cancelPending); Sound(t, limits) && Onward(s, t) && t.queued == s.queued
  {
    if LockFree(s) {
      StoppingKeeps(s, limits);
      var t := s.(stopping := true);
      if cancelPending {
        var u := StopOf(s, true);
        assert forall k :: k in t.order ==> k in t.queues;
        MoveOn(t, u, limits);
        HandKept(t, u, limits);
        HandOutcomesKept(t, u, limits);
        RaisesKept(t, u, limits);
        OnwardTrans(s, t, u);
      }
    }
  }

  lemma StepKeeps(s: State, e: Event, limits: Limits)
    requires Inv(s, limits) && Open(s)
    ensures Inv(Apply(s, e, limits), limits) && Onward(s, Apply(s, e, limits))
  {
    SameOnward(s);
    match e
    case Arrive(request) => if LockFree(s) { SubmitKeeps(s, request, limits); }
    case Withdraw(id) => CancelKeeps(s, id, limits);
    case Turn(now) => TurnOfKeeps(s, now, limits);
    case Work => AdvanceKeeps(s, limits);
    case Enter => if LockFree(s) && s.worker.Holding? { AdmitKeeps(s, limits); }
    case Leave(result) => if s.worker.Running? { ReturnKeeps(s, result, limits); }
    case Stop(cancelPending) => StopOfKeeps(s, cancelPending, limits);
    case Flush => if s.closer.Flushing? { FlushStepKeeps(s, limits); }
  }

  ghost function Run(s: State, events: seq<Event>, limits: Limits): State
    requires Inv(s, limits)
    decreases |events|
  {
    HandIndexed(s, limits);
    if events == [] then s
    else
      StepKeeps(s, events[0], limits);
      Run(Apply(s, events[0], limits), events[1..], limits)
  }

  /** The state every history starts from. */
  ghost function After(events: seq<Event>, limits: Limits): State {
    InitialInv(limits);
    Run(Initial(), events, limits)
  }

  lemma InitialInv(limits: Limits)
    ensures Inv(Initial(), limits)
  {
  }

  /** Along every interleaving, lost races included, the counter equals the queued
      total and stays in its bound, what is undecided waits or is in the worker's
      hand, and what is decided stays decided. */
  lemma {:induction false} RunKeeps(s: State, events: seq<Event>, limits: Limits)
    requires Inv(s, limits)
    ensures Inv(Run(s, events, limits), limits) && Onward(s, Run(s, events, limits))
    decreases |events|
  {
    HandIndexed(s, limits);
    SameOnward(s);
    if events != [] {
      var t := Apply(s, events[0], limits);
      StepKeeps(s, events[0], limits);
      RunKeeps(t, events[1..], limits);
      OnwardTrans(s, t, Run(s, events, limits));
    }
  }

  ghost predicate Waiting(s: State, i: nat)
    requires i < |s.requests| && i < |s.outcomes|
  {
    s.outcomes[i].Pending? && Waits(s, i) && i !in InHand(s.worker)
  }

  ghost predicate Carried(s: State, i: nat)
    requires i < |s.requests| && i < |s.outcomes|
  {
    s.outcomes[i].Pending? && i in InHand(s.worker) && !Waits(s, i)
  }

  ghost predicate Decided(s: State, i: nat)
    requires i < |s.outcomes|
  {
    !s.outcomes[i].Pending?
  }

  lemma HandIsOut(s: State, limits: Limits)
    requires Sound(s, limits)
    ensures forall i :: i in InHand(s.worker) ==> i < |s.requests| && Accepted(s, i) && !Waits(s, i)
    ensures Rising(InHand(s.worker))
  {
    if s.worker.Running? || s.worker.Answering? {
      assert BatchGood(s, s.runs[|s.runs| - 1], limits);
      if s.worker.Answering? { SuffixGood(s, s.worker.batch, s.worker.next, limits); }
    }
  }

  /** At every moment of every history a request is in exactly one of its queue,
      the worker's hand and one final outcome; in the first two exactly once. */
  lemma EachInOnePlace(events: seq<Event>, limits: Limits, i: nat)
    requires i < |After(events, limits).requests|
    ensures var s := After(events, limits);
            && i < |s.outcomes| && Counted(s) && s.queued == Total(s.order, s.queues) <= limits.maxQueue
            && (Waiting(s, i) || Carried(s, i) || Decided(s, i))
            && !(Waiting(s, i) && Carried(s, i)) && !(Decided(s, i) && (Waiting(s, i) || Carried(s, i)))
    ensures var s := After(events, limits);
            && (forall k :: k in s.queues ==> NoDuplicates(s.queues[k])) && NoDuplicates(InHand(s.worker))
            && forall k :: k in s.queues && i in s.queues[k] ==> k == KeyOf(s, i)
  {
    InitialInv(limits);
    RunKeeps(Initial(), events, limits);
    var s := After(events, limits);
    HandIsOut(s, limits);
    if s.outcomes[i].Pending? { assert Waits(s, i) || i in InHand(s.worker); }
    forall k | k in s.queues
      ensures NoDuplicates(s.queues[k]) && (i in s.queues[k] ==> k == KeyOf(s, i))
    {
      assert QueueGood(s, k);
    }
  }

  /** A final outcome never changes, whatever happens later. */
  lemma OutcomeIsFinal(s: State, events: seq<Event>, limits: Limits, i: nat)
    requires Inv(s, limits) && i < |s.outcomes| && Decided(s, i)
    ensures var t := Run(s, events, limits); i < |t.outcomes| && t.outcomes[i] == s.outcomes[i]
  {
    RunKeeps(s, events, limits);
  }

  /** Every call of `run_batch`: non-empty, within the batch limit, one key, in
      submission order, and no request of a key runs after a later one or twice. */
  lemma BatchesInOrder(events: seq<Event>, limits: Limits)
    ensures var s := After(events, limits);
            forall a :: 0 <= a < |s.runs| ==>
              && 1 <= |s.runs[a]| <= limits.maxBatch && Rising(s.runs[a])
              && forall i, j :: i in s.runs[a] && j in s.runs[a] ==> i < |s.requests| && j < |s.requests| && KeyOf(s, i) == KeyOf(s, j)
    ensures var s := After(events, limits);
            forall a, b, i, j :: 0 <= a < b < |s.runs| && i in s.runs[a] && j in s.runs[b] ==>
              i < |s.requests| && j < |s.requests| && i != j && (KeyOf(s, i) == KeyOf(s, j) ==> i < j)
  {
    InitialInv(limits);
    RunKeeps(Initial(), events, limits);
    var s := After(events, limits);
    forall a | 0 <= a < |s.runs|
      ensures s.runs[a] != [] && BatchGood(s, s.runs[a], limits)
    {
    }
    forall a, b, i, j | 0 <= a < b < |s.runs| && i in s.runs[a] && j in s.runs[b]
      ensures i < |s.requests| && j < |s.requests| && i != j && (KeyOf(s, i) == KeyOf(s, j) ==> i < j)
    {
      assert BatchGood(s, s.runs[a], limits) && BatchGood(s, s.runs[b], limits);
      assert RunsBefore(s, s.runs[a], s.runs[b]);
    }
  }

  /** When the worker has left by itself, every request that was ever made is decided. */
  lemma ExitDecidesAll(events: seq<Event>, limits: Limits, i: nat)
    requires After(events, limits).worker.Exited? && i < |After(events, limits).outcomes|
    ensures Decided(After(events, limits), i)
  {
    InitialInv(limits);
    RunKeeps(Initial(), events, limits);
    var s := After(events, limits);
    ExitedIsEmpty(s, limits);
    assert !Waits(s, i);
  }
}
