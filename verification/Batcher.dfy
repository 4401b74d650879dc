/** The micro-batching queue as a value: the steps of callers and of the worker,
    the critical sections they make up, and the invariant of all of them.

    A caller may cancel a future at any moment, without the lock. Everyone else
    looks whether a future is done and sets it afterwards, and setting a future
    that was cancelled in between raises. */
module Batching {
  import opened Prelude

  datatype Request = Request(key: string, payload: string, deadline: Option<real>, submitted: real)

  /** `SetRaised` is the error of setting a future that is done already. */
  datatype Reason = Stopped | QueueFull | Closed | Expired | RunFailed(what: string) | SetRaised

  /** The state of a request's future. */
  datatype Outcome = Pending | Cancelled | Failed(why: Reason) | Done(value: string)

  /** Why futures of a batch are being set: to its results, to the error of
      `run_batch`, or to the error of setting the future at a position. */
  datatype Mode = Setting | Failing | Recovering(at: nat)

  /** Where the worker is: waiting, scanning the queues for the oldest live head,
      filling a batch, holding a selected one, inside `run_batch`, or setting the
      futures of the batch one by one. `checked` says that the future at hand was
      found undecided and is about to be set. An error outside all handlers ends
      the worker with part of a batch unanswered. */
  datatype Worker =
    | Idle
    | Scanning(now: real, todo: seq<string>, best: Option<string>, checked: bool)
    | Filling(key: string, batch: seq<nat>)
    | Holding(batch: seq<nat>)
    | Running(batch: seq<nat>)
    | Answering(batch: seq<nat>, answers: seq<Outcome>, next: nat, checked: bool, mode: Mode)
    | Crashed(batch: seq<nat>)
    | Exited

  /** A call of `close` that is failing what is queued; it holds the lock. */
  datatype Closer = NoCloser | Flushing(todo: seq<string>, checked: bool)

  /** Where setting a future raised: in the scan, in `close`, at a position of a
      batch being answered, or while the error of a batch was being set. */
  datatype Site = AtScan | AtClose | AtAnswer(run: int, pos: int) | AtFailing

  datatype Raise = Raise(id: nat, site: Site)

  datatype Limits = Limits(maxBatch: nat, maxQueue: nat, maxWait: real, target: real)

  /** `order` lists the keys of `queues` as the dictionary does. `runs` logs every
      call of `run_batch`, `answered` what each call that has returned gave, and
      `raised` every future whose setting raised. A future that was checked in a
      queue is popped when it is set: the lock hides the queue in between. */
  datatype State = State(
    requests: seq<Request>,
    outcomes: seq<Outcome>,
    order: seq<string>,
    queues: map<string, seq<nat>>,
    queued: int,
    stopping: bool,
    worker: Worker,
    closer: Closer,
    runs: seq<seq<nat>>,
    answered: seq<seq<Outcome>>,
    raised: seq<Raise>)

  function Initial(): State {
    State([], [], [], map[], 0, false, Idle, NoCloser, [], [], [])
  }

  /** Nobody is inside a critical section. */
  predicate LockFree(s: State) {
    !s.worker.Scanning? && !s.worker.Filling? && s.closer.NoCloser?
  }

  predicate Indexed(s: State) {
    && |s.outcomes| == |s.requests|
    && (forall k, n :: k in s.queues && 0 <= n < |s.queues[k]| ==> s.queues[k][n] < |s.requests|)
    && forall k :: k in s.order ==> k in s.queues
  }

  // ------------------------------------------------------------- small steps

  /** Sets a future unless it is done already. */
  function Settle(outcomes: seq<Outcome>, i: nat, o: Outcome): seq<Outcome>
    requires i < |outcomes|
  {
    if outcomes[i].Pending? then outcomes[i := o] else outcomes
  }

  /** Pops the head of a queue and fails it unless it is done already. */
  function Discard(s: State, k: string, why: Reason): (r: State)
    requires Indexed(s) && k in s.queues && s.queues[k] != []
    ensures Indexed(r)
  {
    s.(queues := s.queues[k := s.queues[k][1..]], queued := s.queued - 1,
       outcomes := Settle(s.outcomes, s.queues[k][0], Failed(why)))
  }

  /** Moves the head of a queue to the batch in hand. */
  function Take(s: State, k: string): (r: State)
    requires Indexed(s) && k in s.queues && s.queues[k] != [] && s.worker.Filling?
    ensures Indexed(r) && r.worker.Filling? && r.worker.key == s.worker.key
  {
    s.(queues := s.queues[k := s.queues[k][1..]], queued := s.queued - 1,
       worker := Filling(s.worker.key, s.worker.batch + [s.queues[k][0]]))
  }

  /** A head that selection throws away: cancelled, or past its deadline. */
  predicate Droppable(s: State, i: nat, now: real)
    requires Indexed(s) && i < |s.requests|
  {
    s.outcomes[i].Cancelled? || (s.requests[i].deadline.Some? && s.requests[i].deadline.value <= now)
  }

  function DropHeads(s: State, k: string, now: real): (r: State)
    requires Indexed(s) && k in s.queues
    ensures Indexed(r) && r.queues.Keys == s.queues.Keys && r.order == s.order && r.requests == s.requests
    decreases |s.queues[k]|
  {
    if s.queues[k] == [] || !Droppable(s, s.queues[k][0], now) then s
    else DropHeads(Discard(s, k, Expired), k, now)
  }

  /** The key whose head was submitted first so far, given the next key. */
  function Earlier(s: State, best: Option<string>, k: string): (r: Option<string>)
    requires Indexed(s) && k in s.queues && (best.Some? ==> best.value in s.queues && s.queues[best.value] != [])
    ensures r.Some? ==> r.value in s.queues && s.queues[r.value] != []
  {
    if s.queues[k] == [] then best
    else if best.None? || s.requests[s.queues[k][0]].submitted < s.requests[s.queues[best.value][0]].submitted then Some(k)
    else best
  }

  /** Drops the dead heads of the given keys and picks the oldest live one. */
  function Scan(s: State, keys: seq<string>, best: Option<string>, now: real): (r: (State, Option<string>))
    requires Indexed(s) && forall k :: k in keys ==> k in s.queues
    requires best.Some? ==> best.value in s.queues && s.queues[best.value] != [] && best.value !in keys
    requires NoDuplicates(keys)
    ensures Indexed(r.0) && r.0.queues.Keys == s.queues.Keys && r.0.order == s.order
    ensures r.1.Some? ==> r.1.value in r.0.queues && r.0.queues[r.1.value] != []
    decreases |keys|
  {
    if keys == [] then (s, best)
    else
      assert forall k :: k in keys[1..] ==> k in keys;
      DropTouchesOne(s, keys[0], now);
      var t := DropHeads(s, keys[0], now);
      assert best.Some? ==> best.value != keys[0];
      assert keys[0] !in keys[1..];
      Scan(t, keys[1..], Earlier(t, best, keys[0]), now)
  }

  lemma {:induction false} DropTouchesOne(s: State, k: string, now: real)
    requires Indexed(s) && k in s.queues
    ensures forall j :: j in s.queues && j != k ==> DropHeads(s, k, now).queues[j] == s.queues[j]
    decreases |s.queues[k]|
  {
    if s.queues[k] != [] && Droppable(s, s.queues[k][0], now) {
      DropTouchesOne(Discard(s, k, Expired), k, now);
    }
  }

  /** Fills the batch in hand from a queue, throwing cancelled requests away. */
  function Fill(s: State, k: string, maxBatch: nat): (r: State)
    requires Indexed(s) && k in s.queues && s.worker.Filling?
    ensures Indexed(r) && r.worker.Filling? && r.queues.Keys == s.queues.Keys && r.worker.key == s.worker.key
    decreases |s.queues[k]|
  {
    if s.queues[k] == [] || |s.worker.batch| >= maxBatch then s
    else if s.outcomes[s.queues[k][0]].Cancelled? then Fill(Discard(s, k, Expired), k, maxBatch)
    else Fill(Take(s, k), k, maxBatch)
  }

  function Without(order: seq<string>, k: string): (r: seq<string>)
    ensures forall x :: x in r <==> x in order && x != k
  {
    if order == [] then []
    else (if order[0] == k then [] else [order[0]]) + Without(order[1..], k)
  }

  function ForgetKey(s: State, k: string): State {
    s.(queues := s.queues - {k}, order := Without(s.order, k))
  }

  // ------------------------------------------------------- critical sections

  /** A refused request gets its exception at once; an accepted one is queued. */
  function Submit(s: State, r: Request, limits: Limits): State {
    var id := |s.requests|;
    var known := s.(requests := s.requests + [r]);
    if s.stopping then known.(outcomes := s.outcomes + [Failed(Stopped)])
    else if s.queued >= limits.maxQueue then known.(outcomes := s.outcomes + [Failed(QueueFull)])
    else
      known.(outcomes := s.outcomes + [Pending], queued := s.queued + 1,
             order := if r.key in s.queues then s.order else s.order + [r.key],
             queues := s.queues[r.key := (if r.key in s.queues then s.queues[r.key] else []) + [id]])
  }

  function Cancel(s: State, id: nat): State {
    if id < |s.outcomes| then s.(outcomes := Settle(s.outcomes, id, Cancelled)) else s
  }

  predicate Ready(s: State, k: string, now: real, limits: Limits)
    requires Indexed(s) && k in s.queues && s.queues[k] != []
  {
    var first := s.requests[s.queues[k][0]];
    || |s.queues[k]| >= limits.maxBatch
    || (first.deadline.Some? && first.deadline.value - now <= limits.target)
    || now - first.submitted >= limits.maxWait
  }

  /** Takes what a queue offers; an exhausted queue leaves the dictionary. */
  function Dispatch(s: State, k: string, limits: Limits): State
    requires Indexed(s) && k in s.queues
  {
    Release(Fill(s.(worker := Filling(k, [])), k, limits.maxBatch))
  }

  /** The end of a selection: an exhausted queue is forgotten and the lock given back. */
  function Release(s: State): State
    requires s.worker.Filling? && s.worker.key in s.queues
  {
    var kept := if s.queues[s.worker.key] == [] then ForgetKey(s, s.worker.key) else s;
    kept.(worker := if s.worker.batch == [] then Idle else Holding(s.worker.batch))
  }

  function Select(s: State, now: real, limits: Limits): State
    requires Indexed(s) && NoDuplicates(s.order)
  {
    var (t, chosen) := Scan(s, s.order, None, now);
    if chosen.None? || !Ready(t, chosen.value, now, limits) then t else Dispatch(t, chosen.value, limits)
  }

  /** One turn of an idle worker. */
  function Wake(s: State, now: real, limits: Limits): State
    requires Indexed(s) && NoDuplicates(s.order)
  {
    if !s.worker.Idle? then s
    else if s.queued == 0 then (if s.stopping then s.(worker := Exited) else s)
    else Select(s, now, limits)
  }

  /** The requests of a batch that have not been cancelled. */
  function Active(outcomes: seq<Outcome>, batch: seq<nat>): (r: seq<nat>)
    requires forall i :: i in batch ==> i < |outcomes|
    ensures forall i :: i in r ==> i in batch
    ensures |r| <= |batch|
  {
    if batch == [] then []
    else
      var front := batch[..|batch| - 1];
      assert forall i :: i in front ==> i in batch;
      assert batch[|batch| - 1] in batch;
      Active(outcomes, front) + if outcomes[batch[|batch| - 1]].Cancelled? then [] else [batch[|batch| - 1]]
  }

  /** Hands the active part of the batch to `run_batch`. */
  function Admit(s: State): State
    requires s.worker.Holding? ==> forall i :: i in s.worker.batch ==> i < |s.outcomes|
  {
    if !s.worker.Holding? then s
    else
      var active := Active(s.outcomes, s.worker.batch);
      if active == [] then s.(worker := Idle) else s.(worker := Running(active), runs := s.runs + [active])
  }

  /** What each future of a batch is to be set to when `run_batch` ends. */
  function AnswersFor(batch: seq<nat>, result: Result<seq<string>, string>): (r: seq<Outcome>)
    ensures |r| == |batch| && forall o :: o in r ==> o.Done? || (o.Failed? && o.why.RunFailed?)
  {
    match result
    case Err(what) => seq(|batch|, _ => Failed(RunFailed(what)))
    case Ok(values) =>
      if |values| == |batch| then seq(|batch|, i requires 0 <= i < |batch| => Done(values[i]))
      else seq(|batch|, _ => Failed(RunFailed("run_batch must return one result per request")))
  }

  function Return(s: State, result: Result<seq<string>, string>): State {
    if !s.worker.Running? then s
    else
      var answers := AnswersFor(s.worker.batch, result);
      s.(worker := Answering(s.worker.batch, answers, 0, false, if Matches(s.worker.batch, result) then Setting else Failing),
         answered := s.answered + [answers])
  }

  predicate Matches(batch: seq<nat>, result: Result<seq<string>, string>) {
    result.Ok? && |result.value| == |batch|
  }

  /** Looks whether the next future of the batch is done: a decided one is passed
      over; after the last one the worker is idle. */
  function CheckNext(s: State): State
    requires s.worker.Answering? && (s.worker.next < |s.worker.batch| ==> s.worker.batch[s.worker.next] < |s.outcomes|)
  {
    var w := s.worker;
    if w.next >= |w.batch| then s.(worker := Idle)
    else if s.outcomes[w.batch[w.next]].Pending? then s.(worker := w.(checked := true))
    else s.(worker := w.(next := w.next + 1))
  }

  /** Sets the future that was found undecided. If it was cancelled meanwhile the
      call raises: while results are set, the error goes to the batch from the
      start; while an error is set, it ends the worker. */
  function SetNext(s: State): State
    requires s.worker.Answering? && s.worker.next < |s.worker.batch| && s.worker.next < |s.worker.answers|
    requires s.worker.batch[s.worker.next] < |s.outcomes|
  {
    var w := s.worker;
    var i := w.batch[w.next];
    if s.outcomes[i].Pending? then s.(outcomes := s.outcomes[i := w.answers[w.next]], worker := w.(next := w.next + 1, checked := false))
    else if w.mode.Setting? then
      s.(worker := Answering(w.batch, seq(|w.batch|, _ => Failed(SetRaised)), 0, false, Recovering(w.next)),
         raised := s.raised + [Raise(i, AtAnswer(|s.runs| - 1, w.next))])
    else s.(worker := Crashed(w.batch[w.next + 1..]), raised := s.raised + [Raise(i, AtFailing)])
  }

  function FailQueue(s: State, k: string): (r: State)
    requires Indexed(s) && k in s.queues
    ensures Indexed(r) && r.queues.Keys == s.queues.Keys && r.order == s.order && r.queues[k] == []
    decreases |s.queues[k]|
  {
    if s.queues[k] == [] then s else FailQueue(Discard(s, k, Closed), k)
  }

  function FailQueues(s: State, keys: seq<string>): (r: State)
    requires Indexed(s) && forall k :: k in keys ==> k in s.queues
    ensures Indexed(r) && r.queues.Keys == s.queues.Keys && r.order == s.order
    decreases |keys|
  {
    if keys == [] then s
    else
      assert forall k :: k in keys[1..] ==> k in keys;
      FailQueues(FailQueue(s, keys[0]), keys[1..])
  }

  function Close(s: State, cancelPending: bool): State
    requires Indexed(s)
  {
    var t := s.(stopping := true);
    if cancelPending then FailQueues(t, t.order) else t
  }

  // ------------------------------------------- steps of the critical sections

  /** What a scan or a closing call relies on while it holds the lock. */
  ghost predicate Open(s: State) {
    && Indexed(s)
    && (s.worker.Scanning? ==> ScanGood(s, s.worker.todo, s.worker.best, s.worker.checked))
    && (s.worker.Filling? ==> s.worker.key in s.queues)
    && (s.closer.Flushing? ==>
          && (forall k :: k in s.closer.todo ==> k in s.queues)
          && (s.closer.checked ==> s.closer.todo != [] && s.queues[s.closer.todo[0]] != []))
    && (s.worker.Answering? ==> |s.worker.answers| == |s.worker.batch| && forall i :: i in s.worker.batch ==> i < |s.outcomes|)
    && (s.worker.Holding? ==> forall i :: i in s.worker.batch ==> i < |s.outcomes|)
  }

  /** One look at the head of the next queue, or one setting of a late future. */
  function ScanStep(s: State, limits: Limits): State
    requires Open(s) && s.worker.Scanning?
  {
    var w := s.worker;
    if w.todo == [] then
      s.(worker := if w.best.None? || !Ready(s, w.best.value, w.now, limits) then Idle else Filling(w.best.value, []))
    else
      var k := w.todo[0];
      assert k in w.todo;
      if s.queues[k] == [] || (!w.checked && !Droppable(s, s.queues[k][0], w.now)) then
        s.(worker := Scanning(w.now, w.todo[1..], Earlier(s, w.best, k), false))
      else
        var head := s.queues[k][0];
        if w.checked && !s.outcomes[head].Pending? then
          Discard(s, k, Expired).(worker := Crashed([]), raised := s.raised + [Raise(head, AtScan)])
        else if w.checked || s.outcomes[head].Cancelled? then
          Discard(s, k, Expired).(worker := Scanning(w.now, w.todo, w.best, false))
        else s.(worker := Scanning(w.now, w.todo, w.best, true))
  }

  /** One request of the chosen queue, or the end of the selection. */
  function FillStep(s: State, limits: Limits): State
    requires Open(s) && s.worker.Filling?
  {
    var k := s.worker.key;
    if s.queues[k] == [] || |s.worker.batch| >= limits.maxBatch then Release(s)
    else if s.outcomes[s.queues[k][0]].Cancelled? then Discard(s, k, Expired)
    else Take(s, k)
  }

  /** One look at a queued future, one setting, or the end of the closing call;
      a setting that raises ends the call with the rest still queued. */
  function FlushStep(s: State): State
    requires Open(s) && s.closer.Flushing?
  {
    var todo := s.closer.todo;
    if todo == [] then s.(closer := NoCloser)
    else
      var k := todo[0];
      assert k in todo;
      if s.queues[k] == [] then s.(closer := Flushing(todo[1..], false))
      else
        var head := s.queues[k][0];
        if s.closer.checked && !s.outcomes[head].Pending? then
          Discard(s, k, Closed).(closer := NoCloser, raised := s.raised + [Raise(head, AtClose)])
        else if s.closer.checked || !s.outcomes[head].Pending? then
          Discard(s, k, Closed).(closer := Flushing(todo, false))
        else s.(closer := Flushing(todo, true))
  }

  /** The next step of a worker that is scanning, filling or answering. */
  function Advance(s: State, limits: Limits): State
    requires Open(s)
  {
    match s.worker
    case Scanning(_, _, _, _) => ScanStep(s, limits)
    case Filling(_, _) => FillStep(s, limits)
    case Answering(batch, _, next, checked, _) =>
      assert next < |batch| ==> batch[next] in batch;
      if next < |batch| && checked then SetNext(s)
      else CheckNext(s)
    case _ => s
  }

  // --------------------------------------------------------------- invariant

  ghost predicate Accepted(s: State, i: nat) {
    && i < |s.requests| && i < |s.outcomes|
    && s.outcomes[i] != Failed(Stopped) && s.outcomes[i] != Failed(QueueFull)
  }

  function KeyOf(s: State, i: nat): string
    requires i < |s.requests|
  {
    s.requests[i].key
  }

  /** Requests the worker still has to answer, or left unanswered when it crashed. */
  function InHand(w: Worker): seq<nat> {
    match w
    case Filling(_, batch) => batch
    case Holding(batch) => batch
    case Running(batch) => batch
    case Answering(batch, _, next, _, _) => if next <= |batch| then batch[next..] else []
    case Crashed(batch) => batch
    case _ => []
  }

  ghost predicate Rising(ids: seq<nat>) {
    forall a, b :: 0 <= a < b < |ids| ==> ids[a] < ids[b]
  }

  ghost predicate MayWait(s: State, i: nat, k: string) {
    && i < |s.requests| && i < |s.outcomes| && KeyOf(s, i) == k
    && (s.outcomes[i].Pending? || s.outcomes[i].Cancelled?)
  }

  /** Every queue lists requests of its own key in submission order, undecided or cancelled. */
  ghost predicate QueueGood(s: State, k: string)
    requires k in s.queues
  {
    Rising(s.queues[k]) && forall i :: i in s.queues[k] ==> MayWait(s, i, k)
  }

  ghost predicate Waits(s: State, i: nat)
    requires i < |s.requests|
  {
    KeyOf(s, i) in s.queues && i in s.queues[KeyOf(s, i)]
  }

  /** An accepted request that left its queue was submitted before all that are still in it. */
  ghost predicate LeftFirst(s: State) {
    forall i, j {:trigger Accepted(s, i), Waits(s, j)} ::
      0 <= i < |s.requests| && 0 <= j < |s.requests| && Accepted(s, i) && !Waits(s, i) && Waits(s, j) && KeyOf(s, i) == KeyOf(s, j) ==> i < j
  }

  /** A batch: some requests of one key in submission order, out of the queues. */
  ghost predicate BatchGood(s: State, batch: seq<nat>, limits: Limits) {
    && |batch| <= limits.maxBatch && Rising(batch)
    && (forall i :: i in batch ==> i < |s.requests| && Accepted(s, i) && !Waits(s, i))
    && forall i, j :: i in batch && j in batch && i < |s.requests| && j < |s.requests| ==> KeyOf(s, i) == KeyOf(s, j)
  }

  ghost predicate RunsBefore(s: State, earlier: seq<nat>, later: seq<nat>) {
    forall i, j :: i in earlier && j in later && i < |s.requests| && j < |s.requests| && KeyOf(s, i) == KeyOf(s, j) ==> i < j
  }

  ghost predicate RunsGood(s: State, limits: Limits) {
    && (forall a :: 0 <= a < |s.runs| ==> s.runs[a] != [] && BatchGood(s, s.runs[a], limits))
    && forall a, b :: 0 <= a < b < |s.runs| ==> RunsBefore(s, s.runs[a], s.runs[b])
  }

  ghost predicate FromRun(o: Outcome) {
    o.Done? || (o.Failed? && o.why.RunFailed?)
  }

  /** The batch in hand is the last one logged, or comes after every logged one. */
  ghost predicate HandGood(s: State, limits: Limits) {
    match s.worker
    case Idle => |s.answered| == |s.runs|
    case Exited => |s.answered| == |s.runs| && s.stopping && s.queued == 0
    case Scanning(_, todo, best, checked) => |s.answered| == |s.runs| && ScanGood(s, todo, best, checked)
    case Filling(key, batch) =>
      && |s.answered| == |s.runs| && BatchGood(s, batch, limits) && key in s.queues
      && (forall i :: i in batch ==> i < |s.requests| && KeyOf(s, i) == key)
      && forall a :: 0 <= a < |s.runs| ==> RunsBefore(s, s.runs[a], batch)
    case Holding(batch) =>
      && |s.answered| == |s.runs| && BatchGood(s, batch, limits)
      && forall a :: 0 <= a < |s.runs| ==> RunsBefore(s, s.runs[a], batch)
    case Running(batch) => s.runs != [] && |s.answered| == |s.runs| - 1 && batch == s.runs[|s.runs| - 1]
    case Answering(batch, answers, next, checked, mode) =>
      && s.runs != [] && |s.answered| == |s.runs| && batch == s.runs[|s.runs| - 1]
      && |answers| == |batch| == |s.answered[|s.answered| - 1]| && next <= |batch| && (checked ==> next < |batch|)
      && (forall o :: o in s.answered[|s.answered| - 1] ==> FromRun(o))
      && if mode.Recovering? then forall o :: o in answers ==> o == Failed(SetRaised) else answers == s.answered[|s.answered| - 1]
    case Crashed(batch) => |s.answered| == |s.runs| && BatchGood(s, batch, limits)
  }

  /** The rest of a scan: known queues, and the oldest head seen so far. */
  ghost predicate ScanGood(s: State, todo: seq<string>, best: Option<string>, checked: bool) {
    && NoDuplicates(todo) && (forall k :: k in todo ==> k in s.queues)
    && (best.Some? ==> best.value in s.queues && s.queues[best.value] != [] && best.value !in todo)
    && (checked ==> todo != [] && s.queues[todo[0]] != [])
  }

  /** A closing call excludes selection. */
  ghost predicate CloserGood(s: State) {
    s.closer.Flushing? ==>
      && s.stopping && !s.worker.Scanning? && !s.worker.Filling?
      && NoDuplicates(s.closer.todo) && (forall k :: k in s.closer.todo ==> k in s.queues)
      && (s.closer.checked ==> s.closer.todo != [] && s.queues[s.closer.todo[0]] != [])
  }

  // ----------------------------------------------------------- lost races

  /** Not set by anyone but its caller. */
  predicate Untouched(o: Outcome) {
    o.Pending? || o.Cancelled?
  }

  predicate RunOutcome(o: Outcome) {
    Untouched(o) || o.Done? || (o.Failed? && (o.why.RunFailed? || o.why.SetRaised?))
  }

  ghost predicate RunOutcomes(s: State) {
    forall a, i {:trigger i in s.runs[a]} :: 0 <= a < |s.runs| && i in s.runs[a] ==> i < |s.outcomes| && RunOutcome(s.outcomes[i])
  }

  /** After a raise at a position no later request of the batch gets its result. */
  ghost predicate LeftOut(s: State, i: nat) {
    i < |s.outcomes| && (Untouched(s.outcomes[i]) || s.outcomes[i] == Failed(SetRaised))
  }

  predicate Fatal(r: Raise) {
    r.site.AtScan? || r.site.AtFailing?
  }

  ghost predicate RaiseGood(s: State, r: Raise) {
    && r.id < |s.outcomes| && s.outcomes[r.id].Cancelled?
    && (Fatal(r) ==> s.worker.Crashed?)
    && (r.site.AtAnswer? ==>
          && 0 <= r.site.run < |s.runs| && r.site.run < |s.answered| && 0 <= r.site.pos < |s.runs[r.site.run]|
          && s.runs[r.site.run][r.site.pos] == r.id
          && forall q :: r.site.pos < q < |s.runs[r.site.run]| ==> LeftOut(s, s.runs[r.site.run][q]))
  }

  ghost predicate RaisesGood(s: State) {
    && (forall r :: r in s.raised ==> RaiseGood(s, r))
    && (s.worker.Crashed? ==> exists r :: r in s.raised && Fatal(r))
  }

  /** Setting an earlier future of the same batch raised. */
  ghost predicate RaisedBefore(s: State, i: nat) {
    exists a, p, q :: 0 <= a < |s.runs| && 0 <= p < q < |s.runs[a]| && s.runs[a][q] == i && Raise(s.runs[a][p], AtAnswer(a, p)) in s.raised
  }

  ghost predicate RaiseExplained(s: State) {
    forall i :: 0 <= i < |s.outcomes| && s.outcomes[i] == Failed(SetRaised) ==> RaisedBefore(s, i)
  }

  ghost predicate UntouchedFrom(s: State, batch: seq<nat>, n: int) {
    forall q :: 0 <= q < |batch| && n <= q ==> batch[q] < |s.outcomes| && Untouched(s.outcomes[batch[q]])
  }

  ghost predicate RaisesBefore(s: State, run: int) {
    forall r :: r in s.raised && r.site.AtAnswer? ==> r.site.run < run
  }

  /** What has been set of the batch in hand. */
  ghost predicate HandOutcomes(s: State) {
    match s.worker
    case Filling(_, batch) => UntouchedFrom(s, batch, 0)
    case Holding(batch) => UntouchedFrom(s, batch, 0)
    case Running(batch) => UntouchedFrom(s, batch, 0)
    case Answering(batch, _, next, checked, mode) =>
      if mode.Recovering? then
        && mode.at < |batch| && (checked ==> mode.at < next) && UntouchedFrom(s, batch, if next <= mode.at then mode.at + 1 else next)
        && (forall q :: 0 <= q <= mode.at ==> batch[q] < |s.outcomes| && !s.outcomes[batch[q]].Pending?)
        && Raise(batch[mode.at], AtAnswer(|s.runs| - 1, mode.at)) in s.raised
      else UntouchedFrom(s, batch, next) && RaisesBefore(s, |s.runs| - 1)
    case _ => true
  }

  /** Nothing undecided is lost: it waits in its queue or the worker has it. */
  ghost predicate NoneLost(s: State) {
    forall i {:trigger Waits(s, i)} :: 0 <= i < |s.requests| && i < |s.outcomes| && s.outcomes[i].Pending? ==> Waits(s, i) || i in InHand(s.worker)
  }

  /** What `run_batch` gave at the request's own position in its batch. */
  ghost predicate AnsweredWith(s: State, i: nat, o: Outcome) {
    exists a, p :: 0 <= a < |s.runs| && a < |s.answered| && 0 <= p < |s.runs[a]| && p < |s.answered[a]|
                   && s.runs[a][p] == i && s.answered[a][p] == o
  }

  /** Every call that returned gave one answer per request. */
  ghost predicate AnswersGood(runs: seq<seq<nat>>, answered: seq<seq<Outcome>>) {
    forall a {:trigger answered[a]} :: 0 <= a < |answered| ==>
      a < |runs| && |answered[a]| == |runs[a]| && forall o :: o in answered[a] ==> FromRun(o)
  }

  ghost predicate Explained(s: State) {
    forall i :: 0 <= i < |s.outcomes| && FromRun(s.outcomes[i]) ==> AnsweredWith(s, i, s.outcomes[i])
  }

  function Total(order: seq<string>, queues: map<string, seq<nat>>): nat
    requires forall k :: k in order ==> k in queues
  {
    if order == [] then 0
    else
      assert forall k :: k in order[1..] ==> k in order;
      |queues[order[0]]| + Total(order[1..], queues)
  }

  ghost predicate Counted(s: State) {
    && NoDuplicates(s.order) && Elems(s.order) == s.queues.Keys
    && (forall k :: k in s.order ==> k in s.queues)
    && s.queued == Total(s.order, s.queues)
  }

  ghost predicate QueuesGood(s: State) {
    && |s.outcomes| == |s.requests|
    && forall k :: k in s.queues ==> QueueGood(s, k)
  }

  /** What does not depend on how far the worker and a closing call are. */
  ghost predicate Core(s: State, limits: Limits) {
    && QueuesGood(s) && Counted(s) && LeftFirst(s) && RunsGood(s, limits) && NoneLost(s)
    && Explained(s) && RunOutcomes(s) && RaiseExplained(s) && AnswersGood(s.runs, s.answered)
  }

  /** Everything but the limit on the queue. */
  ghost predicate Sound(s: State, limits: Limits) {
    Core(s, limits) && HandGood(s, limits) && HandOutcomes(s) && CloserGood(s) && RaisesGood(s)
  }

  ghost predicate Inv(s: State, limits: Limits) {
    Sound(s, limits) && s.queued <= limits.maxQueue
  }

  lemma SoundIsIndexed(s: State)
    requires QueuesGood(s) && Counted(s)
    ensures Indexed(s)
  {
    forall k, n | k in s.queues && 0 <= n < |s.queues[k]|
      ensures s.queues[k][n] < |s.requests|
    {
      assert QueueGood(s, k) && s.queues[k][n] in s.queues[k];
    }
  }
}
