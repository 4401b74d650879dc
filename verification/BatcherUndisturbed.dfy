/** The critical sections are what their steps add up to when nobody cancels in
    between. */
module BatchingUndisturbed {
  import opened Prelude
  import opened Batching
  import opened BatchingSteps
  import opened BatchingSections
  import opened BatchingHistory

  /** What is queued was set by nobody but its caller. */
  ghost predicate HeadsUntouched(s: State)
    requires Indexed(s)
  {
    forall k {:trigger s.queues[k]} :: k in s.queues && s.queues[k] != [] ==> Untouched(s.outcomes[s.queues[k][0]])
  }

  ghost predicate Holds(good: State -> bool, s: State) {
    good(s)
  }

  /** A property of states that the event keeps. */
  ghost predicate Inductive(good: State -> bool, e: Event, limits: Limits) {
    forall x {:trigger Holds(good, x)} :: Holds(good, x) ==> Open(x) && HeadsUntouched(x) && good(Apply(x, e, limits))
  }

  lemma OneStep(good: State -> bool, s: State, e: Event, limits: Limits)
    requires good(s) && Inductive(good, e, limits)
    ensures Open(s) && HeadsUntouched(s) && good(Apply(s, e, limits))
  {
    assert Holds(good, s);
  }

  /** The same event a number of times. */
  ghost function Repeat(good: State -> bool, s: State, e: Event, n: nat, limits: Limits): (t: State)
    requires good(s) && Inductive(good, e, limits)
    ensures good(t)
    decreases n
  {
    if n == 0 then s
    else
      OneStep(good, s, e, limits);
      Repeat(good, Apply(s, e, limits), e, n - 1, limits)
  }

  lemma {:induction false} RepeatAdds(good: State -> bool, s: State, e: Event, a: nat, b: nat, limits: Limits)
    requires good(s) && Inductive(good, e, limits)
    ensures Repeat(good, s, e, a + b, limits) == Repeat(good, Repeat(good, s, e, a, limits), e, b, limits)
    decreases a
  {
    if a > 0 {
      OneStep(good, s, e, limits);
      RepeatAdds(good, Apply(s, e, limits), e, a - 1, b, limits);
    }
  }

  lemma RepeatOnce(good: State -> bool, s: State, e: Event, limits: Limits)
    requires good(s) && Inductive(good, e, limits)
    ensures Open(s) && good(Apply(s, e, limits)) && HeadsUntouched(s)
    ensures Repeat(good, s, e, 1, limits) == Apply(s, e, limits)
  {
    OneStep(good, s, e, limits);
    assert Repeat(good, Apply(s, e, limits), e, 0, limits) == Apply(s, e, limits);
  }

  // -------------------------------------------------------------- selection

  /** Where a scan stands after its last key. */
  ghost function Scanned(s: State, now: real, todo: seq<string>, best: Option<string>): State
    requires Indexed(s) && NoDuplicates(todo) && forall k :: k in todo ==> k in s.queues
    requires best.Some? ==> best.value in s.queues && s.queues[best.value] != [] && best.value !in todo
  {
    var (d, c) := Scan(s, todo, best, now);
    d.(worker := Scanning(now, [], c, false))
  }

  lemma ScanPasses(s: State, limits: Limits)
    requires Open(s) && s.worker.Scanning? && !s.worker.checked && s.worker.todo != []
    requires s.worker.todo[0] in s.queues
    requires s.queues[s.worker.todo[0]] == [] || !Droppable(s, s.queues[s.worker.todo[0]][0], s.worker.now)
    ensures var w, t := s.worker, ScanStep(s, limits);
            && t == s.(worker := t.worker) && t.worker.Scanning? && !t.worker.checked && t.worker.now == w.now && t.worker.todo == w.todo[1..]
            && ScanGood(t, t.worker.todo, t.worker.best, false)
            && Scanned(s.(worker := Idle), w.now, w.todo, w.best) == Scanned(t.(worker := Idle), w.now, t.worker.todo, t.worker.best)
  {
    ScanTail(s.(worker := Idle), s.worker.todo, s.worker.best, s.worker.now);
  }

  lemma ScanDrops(s: State, limits: Limits)
    requires Open(s) && s.worker.Scanning? && !s.worker.checked && s.worker.todo != []
    requires s.worker.todo[0] in s.queues && s.queues[s.worker.todo[0]] != [] && Droppable(s, s.queues[s.worker.todo[0]][0], s.worker.now)
    ensures var w, t := s.worker, Discard(s, s.worker.todo[0], Expired);
            && ScanGood(t, w.todo, w.best, false)
            && Scanned(s.(worker := Idle), w.now, w.todo, w.best) == Scanned(t.(worker := Idle), w.now, w.todo, w.best)
  {
    var idle, k := s.(worker := Idle), s.worker.todo[0];
    assert Discard(idle, k, Expired) == Discard(s, k, Expired).(worker := Idle);
    assert DropHeads(idle, k, s.worker.now) == DropHeads(Discard(idle, k, Expired), k, s.worker.now);
  }

  lemma {:induction false} ScanSteps(good: State -> bool, s: State, limits: Limits) returns (n: nat)
    requires good(s) && Inductive(good, Work, limits) && Open(s) && s.worker.Scanning? && !s.worker.checked
    ensures var w := s.worker; Repeat(good, s, Work, n, limits) == Scanned(s.(worker := Idle), w.now, w.todo, w.best)
    decreases |s.worker.todo|, if s.worker.todo != [] && s.worker.todo[0] in s.queues then |s.queues[s.worker.todo[0]]| else 0
  {
    var w := s.worker;
    if w.todo == [] {
      n := 0;
    } else {
      var k := w.todo[0];
      assert k in w.todo;
      var first, t := ScanMoves(good, s, limits);
      var m := ScanSteps(good, t, limits);
      RepeatAdds(good, s, Work, first, m, limits);
      n := first + m;
    }
  }

  /** Whether a scan has come closer to its end, without changing where it ends. */
  ghost predicate ScanCloser(s: State, t: State) {
    && Open(s) && Open(t) && s.worker.Scanning? && t.worker.Scanning? && !s.worker.checked && !t.worker.checked && t.worker.now == s.worker.now
    && s.worker.todo != [] && s.worker.todo[0] in s.queues && s.worker.todo[0] in t.queues
    && (if t.worker.todo == s.worker.todo then |t.queues[s.worker.todo[0]]| < |s.queues[s.worker.todo[0]]| else |t.worker.todo| < |s.worker.todo|)
    && var w := s.worker;
       Scanned(s.(worker := Idle), w.now, w.todo, w.best) == Scanned(t.(worker := Idle), w.now, t.worker.todo, t.worker.best)
  }

  /** A late head is gone after one step, or after the look and the setting. */
  lemma ScanDropStep(s: State, limits: Limits)
    requires Open(s) && HeadsUntouched(s) && s.worker.Scanning? && !s.worker.checked && s.worker.todo != []
    requires s.worker.todo[0] in s.queues && s.queues[s.worker.todo[0]] != [] && Droppable(s, s.queues[s.worker.todo[0]][0], s.worker.now)
    ensures var k, t := s.worker.todo[0], ScanStep(s, limits);
            if s.outcomes[s.queues[k][0]].Cancelled? then t == Discard(s, k, Expired)
            else t.worker.Scanning? && (Open(t) ==> ScanStep(t, limits) == Discard(s, k, Expired))
  {
  }

  lemma DropIsCloser(s: State, limits: Limits)
    requires Open(s) && s.worker.Scanning? && !s.worker.checked && s.worker.todo != []
    requires s.worker.todo[0] in s.queues && s.queues[s.worker.todo[0]] != [] && Droppable(s, s.queues[s.worker.todo[0]][0], s.worker.now)
    requires Open(Discard(s, s.worker.todo[0], Expired))
    ensures ScanCloser(s, Discard(s, s.worker.todo[0], Expired))
  {
    ScanDrops(s, limits);
  }

  lemma PassIsCloser(s: State, limits: Limits)
    requires Open(s) && s.worker.Scanning? && !s.worker.checked && s.worker.todo != [] && s.worker.todo[0] in s.queues
    requires s.queues[s.worker.todo[0]] == [] || !Droppable(s, s.queues[s.worker.todo[0]][0], s.worker.now)
    requires Open(ScanStep(s, limits))
    ensures ScanCloser(s, ScanStep(s, limits))
  {
    ScanPasses(s, limits);
  }

  /** One look, or a look and a setting, without a cancellation in between. */
  lemma ScanMoves(good: State -> bool, s: State, limits: Limits) returns (first: nat, t: State)
    requires good(s) && Inductive(good, Work, limits) && Open(s) && s.worker.Scanning? && !s.worker.checked && s.worker.todo != []
    requires s.worker.todo[0] in s.queues
    ensures good(t) && ScanCloser(s, t) && Repeat(good, s, Work, first, limits) == t
  {
    RepeatOnce(good, s, Work, limits);
    var k := s.worker.todo[0];
    var next := ScanStep(s, limits);
    RepeatOnce(good, next, Work, limits);
    if s.queues[k] == [] || !Droppable(s, s.queues[k][0], s.worker.now) {
      PassIsCloser(s, limits);
      first, t := 1, next;
    } else {
      ScanDropStep(s, limits);
      first, t := TwoSteps(good, s, next, s.outcomes[s.queues[k][0]].Cancelled?, limits);
      DropIsCloser(s, limits);
    }
  }

  lemma TwoSteps(good: State -> bool, s: State, next: State, once: bool, limits: Limits) returns (first: nat, t: State)
    requires good(s) && Inductive(good, Work, limits) && Open(s) && next == Apply(s, Work, limits) && good(next) && Open(next)
    ensures good(t) && Open(t) && t == (if once then next else Apply(next, Work, limits))
    ensures Repeat(good, s, Work, first, limits) == t
  {
    RepeatOnce(good, s, Work, limits);
    first, t := 1, next;
    if !once {
      RepeatOnce(good, next, Work, limits);
      RepeatAdds(good, s, Work, 1, 1, limits);
      first, t := 2, Apply(next, Work, limits);
      OneStep(good, t, Work, limits);
    }
  }

  lemma FillUnfolds(s: State, limits: Limits)
    requires Open(s) && s.worker.Filling?
    ensures var k, t := s.worker.key, FillStep(s, limits);
            var full := Release(Fill(s, k, limits.maxBatch));
            if s.queues[k] == [] || |s.worker.batch| >= limits.maxBatch then full == t
            else t.worker.Filling? && t.worker.key == k && k in t.queues && Indexed(t) && |t.queues[k]| < |s.queues[k]|
                 && full == Release(Fill(t, k, limits.maxBatch))
  {
  }

  lemma {:induction false} FillSteps(good: State -> bool, s: State, limits: Limits) returns (n: nat)
    requires good(s) && Inductive(good, Work, limits) && Open(s) && s.worker.Filling?
    ensures Repeat(good, s, Work, n, limits) == Release(Fill(s, s.worker.key, limits.maxBatch))
    decreases |s.queues[s.worker.key]|
  {
    RepeatOnce(good, s, Work, limits);
    FillUnfolds(s, limits);
    var t := FillStep(s, limits);
    n := 1;
    if s.queues[s.worker.key] != [] && |s.worker.batch| < limits.maxBatch {
      OneStep(good, t, Work, limits);
      var m := FillSteps(good, t, limits);
      RepeatAdds(good, s, Work, 1, m, limits);
      n := 1 + m;
    }
  }

  /** The choice after a scan, and the filling if there is one. */
  lemma DecideSteps(good: State -> bool, d: State, now: real, c: Option<string>, limits: Limits) returns (n: nat)
    requires d.worker.Idle? && Indexed(d) && (c.Some? ==> c.value in d.queues && d.queues[c.value] != [])
    requires var u := d.(worker := Scanning(now, [], c, false)); good(u) && Open(u)
    requires Inductive(good, Work, limits)
    ensures Repeat(good, d.(worker := Scanning(now, [], c, false)), Work, n, limits) ==
            if c.None? || !Ready(d, c.value, now, limits) then d else Dispatch(d, c.value, limits)
  {
    var u := d.(worker := Scanning(now, [], c, false));
    RepeatOnce(good, u, Work, limits);
    n := 1;
    if c.Some? && Ready(d, c.value, now, limits) {
      var v := d.(worker := Filling(c.value, []));
      assert ScanStep(u, limits) == v;
      OneStep(good, v, Work, limits);
      var b := FillSteps(good, v, limits);
      RepeatAdds(good, u, Work, 1, b, limits);
      n := 1 + b;
    }
  }

  /** A scan and what follows it. */
  lemma SelectSteps(good: State -> bool, s: State, now: real, limits: Limits) returns (n: nat)
    requires Indexed(s) && NoDuplicates(s.order) && s.worker.Idle? && s.closer.NoCloser?
    requires var t := s.(worker := Scanning(now, s.order, None, false)); good(t) && Open(t)
    requires Inductive(good, Work, limits)
    ensures Repeat(good, s.(worker := Scanning(now, s.order, None, false)), Work, n, limits) == Select(s, now, limits)
  {
    var t := s.(worker := Scanning(now, s.order, None, false));
    var a := ScanSteps(good, t, limits);
    assert t.(worker := Idle) == s;
    var (d, c) := Scan(s, s.order, None, now);
    ScanWorker(s, s.order, None, now);
    OneStep(good, d.(worker := Scanning(now, [], c, false)), Work, limits);
    var b := DecideSteps(good, d, now, c, limits);
    RepeatAdds(good, t, Work, a, b, limits);
    n := a + b;
  }

  lemma {:induction false} DropWorker(s: State, k: string, now: real)
    requires Indexed(s) && k in s.queues
    ensures DropHeads(s, k, now).worker == s.worker
    decreases |s.queues[k]|
  {
    if s.queues[k] != [] && Droppable(s, s.queues[k][0], now) { DropWorker(Discard(s, k, Expired), k, now); }
  }

  lemma {:induction false} ScanWorker(s: State, keys: seq<string>, best: Option<string>, now: real)
    requires Indexed(s) && NoDuplicates(keys) && forall k :: k in keys ==> k in s.queues
    requires best.Some? ==> best.value in s.queues && s.queues[best.value] != [] && best.value !in keys
    ensures Scan(s, keys, best, now).0.worker == s.worker
    decreases |keys|
  {
    if keys != [] {
      var d := DropHeads(s, keys[0], now);
      ScanTail(s, keys, best, now);
      DropWorker(s, keys[0], now);
      ScanWorker(d, keys[1..], Earlier(d, best, keys[0]), now);
    }
  }

  // ------------------------------------------------------------------ closing

  /** Whether a closing call has come closer to its end, without changing where it ends. */
  ghost predicate FlushCloser(s: State, t: State) {
    && Open(s) && Open(t) && s.closer.Flushing? && t.closer.Flushing? && !s.closer.checked && !t.closer.checked
    && s.closer.todo != [] && s.closer.todo[0] in s.queues && s.closer.todo[0] in t.queues
    && (if t.closer.todo == s.closer.todo then |t.queues[s.closer.todo[0]]| < |s.queues[s.closer.todo[0]]| else |t.closer.todo| < |s.closer.todo|)
    && FailQueues(s.(closer := NoCloser), s.closer.todo) == FailQueues(t.(closer := NoCloser), t.closer.todo)
  }

  lemma FlushPass(s: State, limits: Limits)
    requires Open(s) && s.closer.Flushing? && !s.closer.checked && s.closer.todo != [] && s.closer.todo[0] in s.queues
    requires s.queues[s.closer.todo[0]] == [] && Open(FlushStep(s))
    ensures FlushCloser(s, FlushStep(s))
  {
    assert FailQueue(s.(closer := NoCloser), s.closer.todo[0]) == s.(closer := NoCloser);
  }

  lemma FlushDrop(s: State, limits: Limits)
    requires Open(s) && s.closer.Flushing? && !s.closer.checked && s.closer.todo != [] && s.closer.todo[0] in s.queues
    requires s.queues[s.closer.todo[0]] != [] && Open(Discard(s, s.closer.todo[0], Closed))
    ensures FlushCloser(s, Discard(s, s.closer.todo[0], Closed))
  {
    var bare, k := s.(closer := NoCloser), s.closer.todo[0];
    assert Discard(bare, k, Closed) == Discard(s, k, Closed).(closer := NoCloser);
    assert FailQueue(bare, k) == FailQueue(Discard(bare, k, Closed), k);
  }

  lemma FlushDropStep(s: State)
    requires Open(s) && s.closer.Flushing? && !s.closer.checked && s.closer.todo != [] && s.closer.todo[0] in s.queues
    requires s.queues[s.closer.todo[0]] != []
    ensures var k, t := s.closer.todo[0], FlushStep(s);
            if !s.outcomes[s.queues[k][0]].Pending? then t == Discard(s, k, Closed)
            else t.closer.Flushing? && (Open(t) ==> FlushStep(t) == Discard(s, k, Closed))
  {
  }

  lemma FlushMoves(good: State -> bool, s: State, limits: Limits) returns (first: nat, t: State)
    requires good(s) && Inductive(good, Flush, limits) && Open(s) && s.closer.Flushing? && !s.closer.checked && s.closer.todo != []
    requires s.closer.todo[0] in s.queues
    ensures good(t) && FlushCloser(s, t) && Repeat(good, s, Flush, first, limits) == t
  {
    RepeatOnce(good, s, Flush, limits);
    var k := s.closer.todo[0];
    var next := FlushStep(s);
    RepeatOnce(good, next, Flush, limits);
    first, t := 1, next;
    if s.queues[k] == [] {
      FlushPass(s, limits);
    } else {
      FlushDropStep(s);
      if s.outcomes[s.queues[k][0]].Pending? {
        RepeatAdds(good, s, Flush, 1, 1, limits);
        first, t := 2, FlushStep(next);
        OneStep(good, t, Flush, limits);
      }
      FlushDrop(s, limits);
    }
  }

  /** The flush is over once no key is left. */
  lemma FlushEnds(good: State -> bool, s: State, limits: Limits)
    requires good(s) && Inductive(good, Flush, limits) && Open(s) && s.closer.Flushing? && s.closer.todo == []
    ensures Repeat(good, s, Flush, 1, limits) == FailQueues(s.(closer := NoCloser), s.closer.todo)
  {
    RepeatOnce(good, s, Flush, limits);
  }

  function FlushLength(s: State): nat
    requires s.closer.Flushing?
  {
    if s.closer.todo != [] && s.closer.todo[0] in s.queues then |s.queues[s.closer.todo[0]]| else 0
  }

  lemma FlushIsShorter(s: State, t: State)
    requires FlushCloser(s, t)
    ensures |t.closer.todo| < |s.closer.todo| || (|t.closer.todo| == |s.closer.todo| && FlushLength(t) < FlushLength(s))
  {
  }

  lemma {:induction false} FlushSteps(good: State -> bool, s: State, limits: Limits) returns (n: nat)
    requires good(s) && Inductive(good, Flush, limits) && Open(s) && s.closer.Flushing? && !s.closer.checked
    ensures Repeat(good, s, Flush, n, limits) == FailQueues(s.(closer := NoCloser), s.closer.todo)
    decreases |s.closer.todo|, FlushLength(s)
  {
    if s.closer.todo == [] {
      FlushEnds(good, s, limits);
      n := 1;
    } else {
      assert s.closer.todo[0] in s.closer.todo;
      var first, t := FlushMoves(good, s, limits);
      FlushIsShorter(s, t);
      var m := FlushSteps(good, t, limits);
      RepeatAdds(good, s, Flush, first, m, limits);
      n := first + m;
    }
  }

  // ---------------------------------------------------------------- histories

  lemma InvIsInductive(e: Event, limits: Limits)
    ensures Inductive(x => Inv(x, limits), e, limits)
  {
    forall x | Inv(x, limits)
      ensures Open(x) && HeadsUntouched(x) && Inv(Apply(x, e, limits), limits)
    {
      HandIndexed(x, limits);
      StepKeeps(x, e, limits);
      forall k | k in x.queues && x.queues[k] != []
        ensures Untouched(x.outcomes[x.queues[k][0]])
      {
        HeadFacts(x, k);
      }
    }
  }

  lemma {:induction false} RepeatIsRun(s: State, e: Event, n: nat, limits: Limits)
    requires Inv(s, limits) && Inductive(x => Inv(x, limits), e, limits)
    ensures Run(s, seq(n, _ => e), limits) == Repeat(x => Inv(x, limits), s, e, n, limits)
    decreases n
  {
    var good := x => Inv(x, limits);
    if n > 0 {
      OneStep(good, s, e, limits);
      RunUnfolds(s, e, n, limits);
      RepeatIsRun(Apply(s, e, limits), e, n - 1, limits);
    }
  }

  lemma RunUnfolds(s: State, e: Event, n: nat, limits: Limits)
    requires Inv(s, limits) && Open(s) && Inv(Apply(s, e, limits), limits) && n > 0
    ensures Run(s, seq(n, _ => e), limits) == Run(Apply(s, e, limits), seq(n - 1, _ => e), limits)
  {
    assert seq(n, _ => e)[0] == e && seq(n, _ => e)[1..] == seq(n - 1, _ => e);
  }

  /** A turn of the worker in which nobody cancels is the selection as a whole. */
  lemma TurnIsWake(s: State, now: real, limits: Limits) returns (n: nat)
    requires Inv(s, limits) && Open(s) && s.worker.Idle? && LockFree(s)
    ensures Run(s, [Turn(now)] + seq(n, _ => Work), limits) == Wake(s, now, limits)
  {
    StepKeeps(s, Turn(now), limits);
    var t := Apply(s, Turn(now), limits);
    if s.queued == 0 {
      n := 0;
      assert Run(t, seq(0, _ => Work), limits) == t;
    } else {
      InvIsInductive(Work, limits);
      HandIndexed(t, limits);
      n := SelectSteps(x => Inv(x, limits), s, now, limits);
      RepeatIsRun(t, Work, n, limits);
    }
    assert ([Turn(now)] + seq(n, _ => Work))[1..] == seq(n, _ => Work);
  }

  /** A closing call during which nobody cancels is the closing as a whole. */
  lemma FlushesAreClose(s: State, limits: Limits) returns (n: nat)
    requires Inv(s, limits) && Open(s) && LockFree(s)
    ensures Run(s, [Stop(true)] + seq(n, _ => Flush), limits) == Close(s, true)
  {
    StepKeeps(s, Stop(true), limits);
    var t := Apply(s, Stop(true), limits);
    InvIsInductive(Flush, limits);
    HandIndexed(t, limits);
    n := FlushSteps(x => Inv(x, limits), t, limits);
    RepeatIsRun(t, Flush, n, limits);
    assert t.(closer := NoCloser) == s.(stopping := true);
    assert ([Stop(true)] + seq(n, _ => Flush))[1..] == seq(n, _ => Flush);
  }
}
