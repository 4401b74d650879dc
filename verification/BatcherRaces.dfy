/** Cancellations that fall between looking at a future and setting it: what they
    do, and that without them every promise of the micro-batching queue holds. */
module BatchingRaces {
  import opened Prelude
  import opened Batching
  import opened BatchingSteps
  import opened BatchingSections
  import opened BatchingHistory

  /** The future the worker found undecided and is about to set. */
  function WorkerChecked(s: State): Option<nat> {
    match s.worker
    case Scanning(_, todo, _, checked) =>
      if checked && todo != [] && todo[0] in s.queues && s.queues[todo[0]] != [] then Some(s.queues[todo[0]][0]) else None
    case Answering(batch, _, next, checked, _) => if checked && next < |batch| then Some(batch[next]) else None
    case _ => None
  }

  /** The future a closing call found undecided and is about to set. */
  function CloserChecked(s: State): Option<nat> {
    match s.closer
    case NoCloser => None
    case Flushing(todo, checked) =>
      if checked && todo != [] && todo[0] in s.queues && s.queues[todo[0]] != [] then Some(s.queues[todo[0]][0]) else None
  }

  predicate IsChecked(s: State, i: nat) {
    WorkerChecked(s) == Some(i) || CloserChecked(s) == Some(i)
  }

  /** Setting it will raise. */
  predicate Doomed(s: State, i: nat) {
    IsChecked(s, i) && i < |s.outcomes| && !s.outcomes[i].Pending?
  }

  ghost predicate HasRaised(s: State, i: nat) {
    exists r :: r in s.raised && r.id == i
  }

  ghost predicate Lost(s: State, i: nat) {
    HasRaised(s, i) || Doomed(s, i)
  }

  /** Somewhere in the history the caller cancels between the look and the setting. */
  ghost predicate Races(s: State, events: seq<Event>, i: nat, limits: Limits)
    requires Inv(s, limits)
    decreases |events|
  {
    HandIndexed(s, limits);
    events != [] &&
    ((events[0] == Withdraw(i) && IsChecked(s, i)) ||
     (StepKeeps(s, events[0], limits);
      Races(Apply(s, events[0], limits), events[1..], i, limits)))
  }

  // ---------------------------------------------------------------- one step

  /** The checked futures differ, and both are out of the other's reach. */
  lemma CheckedApart(s: State, limits: Limits)
    requires Sound(s, limits)
    ensures WorkerChecked(s).Some? && s.worker.Answering? ==>
              WorkerChecked(s).value < |s.requests| && !Waits(s, WorkerChecked(s).value)
    ensures CloserChecked(s).Some? ==>
              CloserChecked(s).value < |s.requests| && Waits(s, CloserChecked(s).value) && !s.worker.Scanning? && !s.worker.Filling?
    ensures forall i: nat :: IsChecked(s, i) ==> i < |s.outcomes|
  {
    HandIndexed(s, limits);
    if s.worker.Answering? && s.worker.next < |s.worker.batch| {
      assert BatchGood(s, s.worker.batch, limits) && s.worker.batch[s.worker.next] in s.worker.batch;
    }
    if CloserChecked(s).Some? { HeadFacts(s, s.closer.todo[0]); }
    if s.worker.Scanning? && WorkerChecked(s).Some? { HeadFacts(s, s.worker.todo[0]); }
  }

  /** Nothing raised, and no check of a decided future was begun or ended. */
  ghost predicate SameChecks(s: State, t: State) {
    t.raised == s.raised && forall i :: Doomed(t, i) <==> Doomed(s, i)
  }

  lemma SameChecksSameLost(s: State, t: State)
    requires SameChecks(s, t)
    ensures forall i :: Lost(t, i) <==> Lost(s, i)
  {
  }

  /** What raises was doomed, and what was doomed raises. */
  ghost predicate OneRaised(s: State, t: State, id: nat, site: Site) {
    && t.raised == s.raised + [Raise(id, site)] && Doomed(s, id)
    && forall i :: Doomed(t, i) <==> Doomed(s, i) && i != id
  }

  lemma OneRaisedSameLost(s: State, t: State, id: nat, site: Site)
    requires OneRaised(s, t, id, site)
    ensures forall i :: Lost(t, i) <==> Lost(s, i)
  {
    forall i
      ensures HasRaised(t, i) <==> HasRaised(s, i) || i == id
    {
      if HasRaised(s, i) {
        var r :| r in s.raised && r.id == i;
        assert r in t.raised;
      }
      assert Raise(id, site) in t.raised;
    }
  }

  lemma ScanRaces(s: State, limits: Limits)
    requires Sound(s, limits) && Open(s) && s.worker.Scanning?
    ensures forall i :: Lost(ScanStep(s, limits), i) <==> Lost(s, i)
  {
    var w, t := s.worker, ScanStep(s, limits);
    assert s.closer.NoCloser? && t.closer.NoCloser?;
    if w.todo != [] && s.queues[w.todo[0]] != [] && w.checked {
      var k := w.todo[0];
      assert k in w.todo;
      HeadFacts(s, k);
      var head := s.queues[k][0];
      if s.outcomes[head].Pending? {
        assert SameChecks(s, t);
        SameChecksSameLost(s, t);
      } else {
        assert OneRaised(s, t, head, AtScan);
        OneRaisedSameLost(s, t, head, AtScan);
      }
    } else {
      UncheckedScan(s, limits);
      SameChecksSameLost(s, t);
    }
  }

  lemma UncheckedScan(s: State, limits: Limits)
    requires Sound(s, limits) && Open(s) && s.worker.Scanning? && !(s.worker.todo != [] && s.queues[s.worker.todo[0]] != [] && s.worker.checked)
    ensures SameChecks(s, ScanStep(s, limits))
  {
    var w, t := s.worker, ScanStep(s, limits);
    assert forall i :: !Doomed(s, i);
    if w.todo != [] {
      var k := w.todo[0];
      assert k in w.todo;
      if s.queues[k] != [] { HeadFacts(s, k); }
    }
  }

  /** A flush looks at a queued future, the answering worker at another one. */
  lemma FlushApart(s: State, limits: Limits)
    requires Sound(s, limits) && Open(s) && s.closer.Flushing? && s.closer.todo != [] && s.closer.todo[0] in s.queues && s.queues[s.closer.todo[0]] != []
    ensures var head := s.queues[s.closer.todo[0]][0];
            && head < |s.outcomes| && WorkerChecked(FlushStep(s)) == WorkerChecked(s) && WorkerChecked(s) != Some(head)
            && forall i: nat :: WorkerChecked(s) == Some(i) ==> i < |s.outcomes| && FlushStep(s).outcomes[i] == s.outcomes[i]
  {
    CheckedApart(s, limits);
    HeadFacts(s, s.closer.todo[0]);
  }

  lemma FlushRaces(s: State, limits: Limits)
    requires Sound(s, limits) && Open(s) && s.closer.Flushing?
    ensures forall i :: Lost(FlushStep(s), i) <==> Lost(s, i)
  {
    var todo, t := s.closer.todo, FlushStep(s);
    CheckedApart(s, limits);
    if todo == [] || s.queues[todo[0]] == [] {
      assert WorkerChecked(t) == WorkerChecked(s);
      assert SameChecks(s, t);
      SameChecksSameLost(s, t);
    } else {
      assert todo[0] in todo;
      FlushApart(s, limits);
      var head := s.queues[todo[0]][0];
      if s.closer.checked && !s.outcomes[head].Pending? {
        assert OneRaised(s, t, head, AtClose);
        OneRaisedSameLost(s, t, head, AtClose);
      } else {
        assert SameChecks(s, t);
        SameChecksSameLost(s, t);
      }
    }
  }

  lemma AnswerRaces(s: State, limits: Limits)
    requires Sound(s, limits) && Open(s) && s.worker.Answering?
    ensures forall i :: Lost(Advance(s, limits), i) <==> Lost(s, i)
  {
    var w, t := s.worker, Advance(s, limits);
    CheckedApart(s, limits);
    assert w.next < |w.batch| ==> w.batch[w.next] in w.batch;
    assert CloserChecked(t) == CloserChecked(s);
    if w.next < |w.batch| && w.checked {
      var i := w.batch[w.next];
      assert CloserChecked(s) != Some(i);
      if s.outcomes[i].Pending? {
        assert SameChecks(s, t);
        SameChecksSameLost(s, t);
      } else {
        var site := if w.mode.Setting? then AtAnswer(|s.runs| - 1, w.next) else AtFailing;
        assert OneRaised(s, t, i, site);
        OneRaisedSameLost(s, t, i, site);
      }
    } else {
      assert SameChecks(s, t);
      SameChecksSameLost(s, t);
    }
  }

  lemma WithdrawRaces(s: State, id: nat, i: nat, limits: Limits)
    requires Sound(s, limits)
    ensures Lost(Cancel(s, id), i) <==> Lost(s, i) || (i == id && IsChecked(s, i))
  {
    var t := Cancel(s, id);
    CheckedApart(s, limits);
    assert WorkerChecked(t) == WorkerChecked(s) && CloserChecked(t) == CloserChecked(s);
    assert Doomed(t, i) <==> Doomed(s, i) || (i == id && IsChecked(s, i));
    assert HasRaised(t, i) <==> HasRaised(s, i);
  }

  /** Waking up, admitting, returning from `run_batch` and starting to close check nothing. */
  lemma QuietRaces(s: State, e: Event, limits: Limits)
    requires Inv(s, limits) && Open(s) && (e.Turn? || e.Enter? || e.Leave? || e.Stop?)
    ensures forall i :: Lost(Apply(s, e, limits), i) <==> Lost(s, i)
  {
    var t := Apply(s, e, limits);
    match e
    case Turn(_) => assert SameChecks(s, t);
    case Enter => assert SameChecks(s, t);
    case Leave(_) => assert SameChecks(s, t);
    case Stop(_) => assert SameChecks(s, t);
    case _ =>
    SameChecksSameLost(s, t);
  }

  /** A step loses a future exactly when it cancels one that is about to be set. */
  lemma StepRaces(s: State, e: Event, i: nat, limits: Limits)
    requires Inv(s, limits) && Open(s)
    ensures Lost(Apply(s, e, limits), i) <==> Lost(s, i) || (e == Withdraw(i) && IsChecked(s, i))
  {
    match e
    case Work =>
      if s.worker.Scanning? {
        ScanRaces(s, limits);
      } else if s.worker.Answering? {
        AnswerRaces(s, limits);
      } else {
        FillRaces(s, limits);
      }
    case Flush => if s.closer.Flushing? { FlushRaces(s, limits); }
    case Withdraw(id) => WithdrawRaces(s, id, i, limits);
    case Arrive(request) => if LockFree(s) { ArriveRaces(s, request, limits); }
    case _ => QuietRaces(s, e, limits);
  }

  lemma FillRaces(s: State, limits: Limits)
    requires Sound(s, limits) && Open(s) && !s.worker.Scanning? && !s.worker.Answering?
    ensures forall i :: Lost(Advance(s, limits), i) <==> Lost(s, i)
  {
    if s.worker.Filling? {
      var t := FillStep(s, limits);
      assert SameChecks(s, t);
      SameChecksSameLost(s, t);
    }
  }

  lemma ArriveRaces(s: State, request: Request, limits: Limits)
    requires Sound(s, limits) && LockFree(s)
    ensures forall i :: Lost(Submit(s, request, limits), i) <==> Lost(s, i)
  {
    var t := Submit(s, request, limits);
    CheckedApart(s, limits);
    assert WorkerChecked(t) == WorkerChecked(s);
    assert SameChecks(s, t);
    SameChecksSameLost(s, t);
  }

  // ------------------------------------------------------------ whole histories

  /** Over any history: the futures whose setting raised or is bound to raise are
      exactly those that were cancelled between the look and the setting. */
  lemma {:induction false} LostIffRaced(s: State, events: seq<Event>, i: nat, limits: Limits)
    requires Inv(s, limits)
    ensures Lost(Run(s, events, limits), i) <==> Lost(s, i) || Races(s, events, i, limits)
    decreases |events|
  {
    HandIndexed(s, limits);
    if events != [] {
      StepKeeps(s, events[0], limits);
      StepRaces(s, events[0], i, limits);
      LostIffRaced(Apply(s, events[0], limits), events[1..], i, limits);
    }
  }

  /** The same from the start: nothing is lost unless it was cancelled in between. */
  lemma LostFromStart(events: seq<Event>, i: nat, limits: Limits)
    requires Inv(Initial(), limits)
    ensures Lost(After(events, limits), i) <==> Races(Initial(), events, i, limits)
  {
    LostIffRaced(Initial(), events, i, limits);
  }

  /** The worker is gone without having left exactly when setting a late future in
      the scan, or an error after `run_batch`, has raised. */
  lemma CrashedIff(events: seq<Event>, limits: Limits)
    ensures var s := After(events, limits);
            s.worker.Crashed? <==> exists r :: r in s.raised && Fatal(r)
  {
    InitialInv(limits);
    RunKeeps(Initial(), events, limits);
    var s := After(events, limits);
    if r :| r in s.raised && Fatal(r) { assert RaiseGood(s, r); }
  }

  /** The future stays checked, step after step. */
  ghost predicate Throughout(s: State, events: seq<Event>, i: nat, limits: Limits)
    requires Inv(s, limits)
    decreases |events|
  {
    HandIndexed(s, limits);
    IsChecked(s, i) &&
    (events != [] ==>
       (StepKeeps(s, events[0], limits);
        Throughout(Apply(s, events[0], limits), events[1..], i, limits)))
  }

  /** From the look to the setting: the future is still undecided exactly when its
      caller did not cancel it in between. */
  lemma {:induction false} UndecidedIffNotWithdrawn(s: State, events: seq<Event>, i: nat, limits: Limits)
    requires Inv(s, limits) && Throughout(s, events, i, limits)
    ensures var t := Run(s, events, limits);
            i < |s.outcomes| && i < |t.outcomes| && (t.outcomes[i].Pending? <==> s.outcomes[i].Pending? && Withdraw(i) !in events)
    decreases |events|
  {
    HandIndexed(s, limits);
    CheckedApart(s, limits);
    if events != [] {
      var t := Apply(s, events[0], limits);
      StepKeeps(s, events[0], limits);
      StepRaces(s, events[0], i, limits);
      if HasRaised(s, i) { RaisedIsDecided(s, i); }
      if HasRaised(t, i) { RaisedIsDecided(t, i); }
      assert IsChecked(t, i);
      UndecidedIffNotWithdrawn(t, events[1..], i, limits);
      assert Doomed(t, i) <==> Doomed(s, i) || events[0] == Withdraw(i);
      assert events == [events[0]] + events[1..];
    }
  }

  lemma RaisedIsDecided(s: State, i: nat)
    requires RaisesGood(s) && HasRaised(s, i)
    ensures i < |s.outcomes| && !s.outcomes[i].Pending?
  {
    var r :| r in s.raised && r.id == i;
    assert RaiseGood(s, r);
  }

  // --------------------------------------------------------- what a race does

  /** What the worker is about to set the checked future to. */
  function Intended(s: State): Outcome {
    if s.worker.Answering? && s.worker.next < |s.worker.answers| then s.worker.answers[s.worker.next] else Failed(Expired)
  }

  /** Setting takes effect exactly when the future is still undecided. Otherwise it
      raises: while results are set the batch is gone through again with the error,
      and in the scan or while an error is set the worker is gone. */
  lemma SettingIff(s: State, i: nat, limits: Limits)
    requires Inv(s, limits) && Open(s) && WorkerChecked(s) == Some(i)
    ensures var t := Advance(s, limits);
            && i < |s.outcomes| && i < |t.outcomes|
            && (t.raised == s.raised <==> s.outcomes[i].Pending?)
            && (s.outcomes[i].Pending? ==> t.outcomes[i] == Intended(s))
            && (!s.outcomes[i].Pending? ==>
                  if s.worker.Answering? && s.worker.mode.Setting? then t.worker.Answering? && t.worker.mode == Recovering(s.worker.next)
                  else t.worker.Crashed?)
  {
    CheckedApart(s, limits);
    var t := Advance(s, limits);
    if s.worker.Scanning? {
      HeadFacts(s, s.worker.todo[0]);
      assert s.worker.todo[0] in s.worker.todo;
    } else {
      assert s.worker.batch[s.worker.next] in s.worker.batch;
    }
    assert |t.raised| == |s.raised| || |t.raised| == |s.raised| + 1;
  }

  /** The same for a closing call, which ends with the rest still queued. */
  lemma ClosingIff(s: State, i: nat, limits: Limits)
    requires Inv(s, limits) && Open(s) && CloserChecked(s) == Some(i)
    ensures var t := FlushStep(s);
            && i < |s.outcomes| && i < |t.outcomes|
            && (t.raised == s.raised <==> s.outcomes[i].Pending?)
            && (s.outcomes[i].Pending? ==> t.outcomes[i] == Failed(Closed) && t.closer.Flushing?)
            && (!s.outcomes[i].Pending? ==> t.closer.NoCloser? && t.queued == s.queued - 1)
  {
    CheckedApart(s, limits);
    assert s.closer.todo[0] in s.closer.todo;
    HeadFacts(s, s.closer.todo[0]);
    var t := FlushStep(s);
    assert |t.raised| == |s.raised| || |t.raised| == |s.raised| + 1;
  }

  lemma OneRun(s: State, i: nat, a: int, q: int, limits: Limits)
    requires Core(s, limits) && 0 <= a < |s.runs| && 0 <= q < |s.runs[a]| && s.runs[a][q] == i
    ensures forall b, p :: 0 <= b < |s.runs| && 0 <= p < |s.runs[b]| && s.runs[b][p] == i ==> b == a && p == q
  {
    forall b, p | 0 <= b < |s.runs| && 0 <= p < |s.runs[b]| && s.runs[b][p] == i
      ensures b == a && p == q
    {
      assert i in s.runs[a] && i in s.runs[b];
      RunsDisjoint(s, a, b, i, limits);
      assert BatchGood(s, s.runs[a], limits);
    }
  }

  ghost predicate RaisedEarlier(s: State, a: int, q: int)
    requires 0 <= a < |s.runs| && 0 <= q < |s.runs[a]|
  {
    exists p :: 0 <= p < q && Raise(s.runs[a][p], AtAnswer(a, p)) in s.raised
  }

  /** A request that was not cancelled and is decided has what `run_batch` gave at
      its own position of its own batch, exactly when no setting raised at an
      earlier position; else it has the error of that setting. */
  lemma ResultsMatchPositions(events: seq<Event>, limits: Limits, a: int, q: int)
    requires var s := After(events, limits);
             0 <= a < |s.runs| && 0 <= q < |s.runs[a]| && s.runs[a][q] < |s.outcomes| && !Untouched(s.outcomes[s.runs[a][q]])
    ensures var s := After(events, limits);
            var o := s.outcomes[s.runs[a][q]];
            && a < |s.answered| && q < |s.answered[a]|
            && (o == s.answered[a][q] <==> !RaisedEarlier(s, a, q)) && (o == Failed(SetRaised) <==> RaisedEarlier(s, a, q))
  {
    InitialInv(limits);
    RunKeeps(Initial(), events, limits);
    var s := After(events, limits);
    var i := s.runs[a][q];
    assert i in s.runs[a];
    OneRun(s, i, a, q, limits);
    var o := s.outcomes[i];
    assert RunOutcome(o);
    if FromRun(o) {
      assert AnsweredWith(s, i, o);
      EarlierRaiseLeavesOut(s, a, q);
    } else {
      assert RaisedBefore(s, i);
      EarlierRaiseIsAnswered(s, a, q);
      assert s.answered[a][q] in s.answered[a];
    }
  }

  lemma EarlierRaiseLeavesOut(s: State, a: int, q: int)
    requires RaisesGood(s) && 0 <= a < |s.runs| && 0 <= q < |s.runs[a]| && s.runs[a][q] < |s.outcomes| && FromRun(s.outcomes[s.runs[a][q]])
    ensures !RaisedEarlier(s, a, q)
  {
    forall p | 0 <= p < q
      ensures Raise(s.runs[a][p], AtAnswer(a, p)) !in s.raised
    {
      assert !LeftOut(s, s.runs[a][q]);
      assert !RaiseGood(s, Raise(s.runs[a][p], AtAnswer(a, p)));
    }
  }

  lemma EarlierRaiseIsAnswered(s: State, a: int, q: int)
    requires RaisesGood(s) && AnswersGood(s.runs, s.answered) && 0 <= a < |s.runs| && 0 <= q < |s.runs[a]| && RaisedBefore(s, s.runs[a][q])
    requires forall b, p :: 0 <= b < |s.runs| && 0 <= p < |s.runs[b]| && s.runs[b][p] == s.runs[a][q] ==> b == a && p == q
    ensures RaisedEarlier(s, a, q) && a < |s.answered| && |s.answered[a]| == |s.runs[a]|
  {
    var b, p, n :| 0 <= b < |s.runs| && 0 <= p < n < |s.runs[b]| && s.runs[b][n] == s.runs[a][q] && Raise(s.runs[b][p], AtAnswer(b, p)) in s.raised;
    assert RaiseGood(s, Raise(s.runs[b][p], AtAnswer(b, p)));
  }

  /** Without a cancellation between a look and its setting nothing ever raises:
      the worker is never lost, no closing call breaks off, and every decided
      request that was not cancelled has the answer of its own position. */
  lemma UnracedIsClean(events: seq<Event>, limits: Limits)
    requires forall i: nat :: Inv(Initial(), limits) && !Races(Initial(), events, i, limits)
    ensures var s := After(events, limits);
            && s.raised == [] && !s.worker.Crashed?
            && forall a, q :: 0 <= a < |s.runs| && 0 <= q < |s.runs[a]| && s.runs[a][q] < |s.outcomes| && !Untouched(s.outcomes[s.runs[a][q]]) ==>
                 a < |s.answered| && q < |s.answered[a]| && s.outcomes[s.runs[a][q]] == s.answered[a][q]
  {
    InitialInv(limits);
    var s := After(events, limits);
    CrashedIff(events, limits);
    forall i: nat
      ensures !HasRaised(s, i)
    {
      LostFromStart(events, i, limits);
    }
    assert |s.raised| > 0 ==> s.raised[0] in s.raised && HasRaised(s, s.raised[0].id);
    forall a, q | 0 <= a < |s.runs| && 0 <= q < |s.runs[a]| && s.runs[a][q] < |s.outcomes| && !Untouched(s.outcomes[s.runs[a][q]])
      ensures a < |s.answered| && q < |s.answered[a]| && s.outcomes[s.runs[a][q]] == s.answered[a][q]
    {
      ResultsMatchPositions(events, limits, a, q);
    }
  }

  // ------------------------------------------------------------- a lost worker

  /** What nobody but its own caller, or a closing call for what is queued, decides any more. */
  ghost predicate Stranded(s: State, i: nat) {
    s.worker.Crashed? && i < |s.requests| && i < |s.outcomes| && s.outcomes[i].Pending?
  }

  lemma StrandedStep(s: State, e: Event, i: nat, limits: Limits)
    requires Inv(s, limits) && Open(s) && Stranded(s, i) && e != Withdraw(i) && (i in s.worker.batch || !e.Flush?)
    ensures Stranded(Apply(s, e, limits), i) && Apply(s, e, limits).worker == s.worker
  {
    HandIsOut(s, limits);
    if e.Flush? && s.closer.Flushing? && s.closer.todo != [] && s.queues[s.closer.todo[0]] != [] {
      assert s.closer.todo[0] in s.closer.todo;
      HeadFacts(s, s.closer.todo[0]);
    }
  }

  /** After a crash an undecided request stays undecided, whatever happens, until
      its caller cancels it or, if it is still queued, a closing call reaches it. */
  lemma {:induction false} StrandedForever(s: State, events: seq<Event>, i: nat, limits: Limits)
    requires Inv(s, limits) && Stranded(s, i) && Withdraw(i) !in events && (i in s.worker.batch || Flush !in events)
    ensures Stranded(Run(s, events, limits), i)
    decreases |events|
  {
    HandIndexed(s, limits);
    if events != [] {
      StepKeeps(s, events[0], limits);
      StrandedStep(s, events[0], i, limits);
      assert forall e :: e in events[1..] ==> e in events;
      StrandedForever(Apply(s, events[0], limits), events[1..], i, limits);
    }
  }
}
