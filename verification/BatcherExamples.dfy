/** Reachable runs of the micro-batching queue in which a promise of its
    documentation fails, one step at a time. */
module BatchingExamples {
  import opened Prelude
  import opened Batching
  import opened BatchingSteps
  import opened BatchingSections
  import opened BatchingHistory
  import opened BatchingRaces
  import opened BatchingDeadlines

  const TWO := Limits(2, 10, 0.0, 0.0)

  /** One more event at the end of a history. */
  lemma {:induction false} RunOneMore(s: State, events: seq<Event>, e: Event, limits: Limits)
    requires Inv(s, limits)
    ensures Open(Run(s, events, limits)) && Run(s, events + [e], limits) == Apply(Run(s, events, limits), e, limits)
    decreases |events|
  {
    HandIndexed(s, limits);
    if events == [] {
      assert [e][1..] == [] && events + [e] == [e];
      StepKeeps(s, e, limits);
    } else {
      assert (events + [e])[0] == events[0] && (events + [e])[1..] == events[1..] + [e];
      StepKeeps(s, events[0], limits);
      RunOneMore(Apply(s, events[0], limits), events[1..], e, limits);
    }
  }

  /** The event leads from one state to the other. */
  ghost predicate Leads(s: State, e: Event, t: State) {
    Open(s) ==> Apply(s, e, TWO) == t
  }

  lemma Next(events: seq<Event>, e: Event, s: State, t: State)
    requires After(events, TWO) == s && Leads(s, e, t)
    ensures After(events + [e], TWO) == t
  {
    InitialInv(TWO);
    RunOneMore(Initial(), events, e, TWO);
  }

  /** Requests of one key, the first with the given deadline. */
  function Asked(due: Option<real>): seq<Request> {
    [Request("k", "", due, 0.0), Request("k", "", None, 0.0)]
  }

  /** Two requests with the queue of their key, if any, and the worker as given. */
  function Two(due: Option<real>, outcomes: seq<Outcome>, queue: Option<seq<nat>>, worker: Worker): State {
    State(Asked(due), outcomes, if queue.None? then [] else ["k"], if queue.None? then map[] else map["k" := queue.value],
          if queue.None? then 0 else |queue.value|, false, worker, NoCloser, [], [], [])
  }

  const UNDECIDED: seq<Outcome> := [Pending, Pending]

  function One(due: Option<real>): State {
    State([Asked(due)[0]], [Pending], ["k"], map["k" := [0]], 1, false, Idle, NoCloser, [], [], [])
  }

  lemma FirstArrives(due: Option<real>)
    ensures Leads(Initial(), Arrive(Asked(due)[0]), One(due))
  {
    var none: seq<nat> := [];
    assert none + [0] == [0];
  }

  lemma SecondArrives(due: Option<real>)
    ensures Leads(One(due), Arrive(Asked(due)[1]), Two(due, UNDECIDED, Some([0, 1]), Idle))
  {
    assert [0] + [1] == [0, 1];
    assert map["k" := [0]]["k" := [0, 1]] == map["k" := [0, 1]];
  }

  lemma Arrived(due: Option<real>) returns (events: seq<Event>)
    ensures After(events, TWO) == Two(due, UNDECIDED, Some([0, 1]), Idle)
  {
    InitialInv(TWO);
    FirstArrives(due);
    Next([], Arrive(Asked(due)[0]), Initial(), One(due));
    SecondArrives(due);
    events := [] + [Arrive(Asked(due)[0])] + [Arrive(Asked(due)[1])];
    Next([] + [Arrive(Asked(due)[0])], Arrive(Asked(due)[1]), One(due), Two(due, UNDECIDED, Some([0, 1]), Idle));
  }

  // ------------------------------------------- a selection without interruption

  lemma Wakes(due: Option<real>, now: real)
    ensures Leads(Two(due, UNDECIDED, Some([0, 1]), Idle), Turn(now), Two(due, UNDECIDED, Some([0, 1]), Scanning(now, ["k"], None, false)))
  {
  }

  lemma Looks()
    ensures Leads(Two(None, UNDECIDED, Some([0, 1]), Scanning(0.0, ["k"], None, false)), Work,
                  Two(None, UNDECIDED, Some([0, 1]), Scanning(0.0, [], Some("k"), false)))
  {
    assert ["k"][1..] == [];
  }

  lemma Chooses()
    ensures Leads(Two(None, UNDECIDED, Some([0, 1]), Scanning(0.0, [], Some("k"), false)), Work,
                  Two(None, UNDECIDED, Some([0, 1]), Filling("k", [])))
  {
  }

  lemma TakesFirst()
    ensures Leads(Two(None, UNDECIDED, Some([0, 1]), Filling("k", [])), Work, Two(None, UNDECIDED, Some([1]), Filling("k", [0])))
  {
    var none: seq<nat> := [];
    assert none + [0] == [0] && [0, 1][1..] == [1];
    assert map["k" := [0, 1]]["k" := [1]] == map["k" := [1]];
  }

  lemma TakesSecond()
    ensures Leads(Two(None, UNDECIDED, Some([1]), Filling("k", [0])), Work, Two(None, UNDECIDED, Some([]), Filling("k", [0, 1])))
  {
    var none: seq<nat> := [];
    assert [0] + [1] == [0, 1] && [1][1..] == none;
    assert map["k" := [1]]["k" := none] == map["k" := none];
  }

  lemma Releases()
    ensures Leads(Two(None, UNDECIDED, Some([]), Filling("k", [0, 1])), Work, Two(None, UNDECIDED, None, Holding([0, 1])))
  {
    var none: seq<nat> := [];
    assert ["k"][1..] == [];
    assert Without(["k"], "k") == [];
    assert map["k" := none] - {"k"} == map[];
  }

  lemma Held() returns (events: seq<Event>)
    ensures After(events, TWO) == Two(None, UNDECIDED, None, Holding([0, 1]))
  {
    var e0 := Arrived(None);
    Wakes(None, 0.0);
    Next(e0, Turn(0.0), Two(None, UNDECIDED, Some([0, 1]), Idle), Two(None, UNDECIDED, Some([0, 1]), Scanning(0.0, ["k"], None, false)));
    var e1 := e0 + [Turn(0.0)];
    Looks();
    Next(e1, Work, Two(None, UNDECIDED, Some([0, 1]), Scanning(0.0, ["k"], None, false)), Two(None, UNDECIDED, Some([0, 1]), Scanning(0.0, [], Some("k"), false)));
    var e2 := e1 + [Work];
    Chooses();
    Next(e2, Work, Two(None, UNDECIDED, Some([0, 1]), Scanning(0.0, [], Some("k"), false)), Two(None, UNDECIDED, Some([0, 1]), Filling("k", [])));
    var e3 := e2 + [Work];
    TakesFirst();
    Next(e3, Work, Two(None, UNDECIDED, Some([0, 1]), Filling("k", [])), Two(None, UNDECIDED, Some([1]), Filling("k", [0])));
    var e4 := e3 + [Work];
    TakesSecond();
    Next(e4, Work, Two(None, UNDECIDED, Some([1]), Filling("k", [0])), Two(None, UNDECIDED, Some([]), Filling("k", [0, 1])));
    var e5 := e4 + [Work];
    Releases();
    Next(e5, Work, Two(None, UNDECIDED, Some([]), Filling("k", [0, 1])), Two(None, UNDECIDED, None, Holding([0, 1])));
    events := e5 + [Work];
  }

  const BATCH: seq<nat> := [0, 1]

  /** The two requests are with `run_batch` or being answered. */
  function Ran(outcomes: seq<Outcome>, worker: Worker, answered: seq<seq<Outcome>>, raised: seq<Raise>): State {
    State(Asked(None), outcomes, [], map[], 0, false, worker, NoCloser, [BATCH], answered, raised)
  }

  lemma Enters()
    ensures Leads(Two(None, UNDECIDED, None, Holding(BATCH)), Enter, Ran(UNDECIDED, Running(BATCH), [], []))
  {
    assert BATCH[..1] == [0] && [0][..0] == [];
    var none: seq<nat> := [];
    assert none + [0] == [0] && [0] + [1] == BATCH;
    assert Active(UNDECIDED, []) == [];
    assert Active(UNDECIDED, [0]) == [0];
    assert Active(UNDECIDED, BATCH) == BATCH;
    var runs: seq<seq<nat>> := [];
    assert runs + [BATCH] == [BATCH];
  }

  /** Both requests are with `run_batch`. */
  lemma Started() returns (events: seq<Event>)
    ensures After(events, TWO) == Ran(UNDECIDED, Running(BATCH), [], [])
  {
    var e := Held();
    Enters();
    Next(e, Enter, Two(None, UNDECIDED, None, Holding(BATCH)), Ran(UNDECIDED, Running(BATCH), [], []));
    events := e + [Enter];
  }

  /** A request whose batch is already with `run_batch` can still be cancelled. */
  lemma RunningIsCancelled() returns (events: seq<Event>)
    ensures After(events, TWO) == Ran(UNDECIDED, Running(BATCH), [], [])
    ensures After(events + [Withdraw(0)], TWO) == Ran([Cancelled, Pending], Running(BATCH), [], [])
  {
    events := Started();
    assert UNDECIDED[0 := Cancelled] == [Cancelled, Pending];
    Next(events, Withdraw(0), Ran(UNDECIDED, Running(BATCH), [], []), Ran([Cancelled, Pending], Running(BATCH), [], []));
  }

  // --------------------------------------------------- a race while answering

  const GIVEN: seq<Outcome> := [Done("a"), Done("b")]

  const ERRORS: seq<Outcome> := [Failed(SetRaised), Failed(SetRaised)]

  const LOST := Raise(0, AtAnswer(0, 0))

  lemma Returns()
    ensures Leads(Ran(UNDECIDED, Running(BATCH), [], []), Leave(Ok(["a", "b"])), Ran(UNDECIDED, Answering(BATCH, GIVEN, 0, false, Setting), [GIVEN], []))
  {
    assert AnswersFor(BATCH, Ok(["a", "b"])) == GIVEN;
    var none: seq<seq<Outcome>> := [];
    assert none + [GIVEN] == [GIVEN];
  }

  lemma Checks()
    ensures Leads(Ran(UNDECIDED, Answering(BATCH, GIVEN, 0, false, Setting), [GIVEN], []), Work, Ran(UNDECIDED, Answering(BATCH, GIVEN, 0, true, Setting), [GIVEN], []))
  {
  }

  lemma Withdraws()
    ensures Leads(Ran(UNDECIDED, Answering(BATCH, GIVEN, 0, true, Setting), [GIVEN], []), Withdraw(0),
                  Ran([Cancelled, Pending], Answering(BATCH, GIVEN, 0, true, Setting), [GIVEN], []))
  {
    assert UNDECIDED[0 := Cancelled] == [Cancelled, Pending];
  }

  lemma Recovers()
    ensures Leads(Ran([Cancelled, Pending], Answering(BATCH, GIVEN, 0, true, Setting), [GIVEN], []), Work,
                  Ran([Cancelled, Pending], Answering(BATCH, ERRORS, 0, false, Recovering(0)), [GIVEN], [LOST]))
  {
    assert seq(|BATCH|, _ => Failed(SetRaised)) == ERRORS;
    var none: seq<Raise> := [];
    assert none + [LOST] == [LOST];
  }

  lemma Passes()
    ensures Leads(Ran([Cancelled, Pending], Answering(BATCH, ERRORS, 0, false, Recovering(0)), [GIVEN], [LOST]), Work,
                  Ran([Cancelled, Pending], Answering(BATCH, ERRORS, 1, false, Recovering(0)), [GIVEN], [LOST]))
  {
  }

  lemma ChecksNext()
    ensures Leads(Ran([Cancelled, Pending], Answering(BATCH, ERRORS, 1, false, Recovering(0)), [GIVEN], [LOST]), Work,
                  Ran([Cancelled, Pending], Answering(BATCH, ERRORS, 1, true, Recovering(0)), [GIVEN], [LOST]))
  {
  }

  lemma SetsError()
    ensures Leads(Ran([Cancelled, Pending], Answering(BATCH, ERRORS, 1, true, Recovering(0)), [GIVEN], [LOST]), Work,
                  Ran([Cancelled, Failed(SetRaised)], Answering(BATCH, ERRORS, 2, false, Recovering(0)), [GIVEN], [LOST]))
  {
    assert [Cancelled, Pending][1 := Failed(SetRaised)] == [Cancelled, Failed(SetRaised)];
  }

  lemma Answers() returns (events: seq<Event>)
    ensures After(events, TWO) == Ran(UNDECIDED, Answering(BATCH, GIVEN, 0, true, Setting), [GIVEN], [])
  {
    var e0 := Started();
    Returns();
    Next(e0, Leave(Ok(["a", "b"])), Ran(UNDECIDED, Running(BATCH), [], []), Ran(UNDECIDED, Answering(BATCH, GIVEN, 0, false, Setting), [GIVEN], []));
    Checks();
    events := e0 + [Leave(Ok(["a", "b"]))] + [Work];
    Next(e0 + [Leave(Ok(["a", "b"]))], Work, Ran(UNDECIDED, Answering(BATCH, GIVEN, 0, false, Setting), [GIVEN], []),
         Ran(UNDECIDED, Answering(BATCH, GIVEN, 0, true, Setting), [GIVEN], []));
  }

  /** The first caller cancels between the look and the setting: the second request
      fails, although `run_batch` had a result for it. */
  lemma RaceSpoilsBatch() returns (events: seq<Event>)
    ensures After(events, TWO) == Ran([Cancelled, Failed(SetRaised)], Answering(BATCH, ERRORS, 2, false, Recovering(0)), [GIVEN], [LOST])
    ensures After(events, TWO).answered[0][1] == Done("b")
  {
    var e0 := Answers();
    Withdraws();
    Next(e0, Withdraw(0), Ran(UNDECIDED, Answering(BATCH, GIVEN, 0, true, Setting), [GIVEN], []), Ran([Cancelled, Pending], Answering(BATCH, GIVEN, 0, true, Setting), [GIVEN], []));
    var e1 := e0 + [Withdraw(0)];
    Recovers();
    Next(e1, Work, Ran([Cancelled, Pending], Answering(BATCH, GIVEN, 0, true, Setting), [GIVEN], []),
         Ran([Cancelled, Pending], Answering(BATCH, ERRORS, 0, false, Recovering(0)), [GIVEN], [LOST]));
    var e2 := e1 + [Work];
    Passes();
    Next(e2, Work, Ran([Cancelled, Pending], Answering(BATCH, ERRORS, 0, false, Recovering(0)), [GIVEN], [LOST]),
         Ran([Cancelled, Pending], Answering(BATCH, ERRORS, 1, false, Recovering(0)), [GIVEN], [LOST]));
    var e3 := e2 + [Work];
    ChecksNext();
    Next(e3, Work, Ran([Cancelled, Pending], Answering(BATCH, ERRORS, 1, false, Recovering(0)), [GIVEN], [LOST]),
         Ran([Cancelled, Pending], Answering(BATCH, ERRORS, 1, true, Recovering(0)), [GIVEN], [LOST]));
    var e4 := e3 + [Work];
    SetsError();
    Next(e4, Work, Ran([Cancelled, Pending], Answering(BATCH, ERRORS, 1, true, Recovering(0)), [GIVEN], [LOST]),
         Ran([Cancelled, Failed(SetRaised)], Answering(BATCH, ERRORS, 2, false, Recovering(0)), [GIVEN], [LOST]));
    events := e4 + [Work];
  }

  // -------------------------------------------------------- a race in the scan

  const DUE: Option<real> := Some(1.0)

  /** After the crash: the first request popped, the second still queued. */
  function Gone(): State {
    Two(DUE, [Cancelled, Pending], Some([1]), Crashed([])).(raised := [Raise(0, AtScan)])
  }

  lemma ChecksHead()
    ensures Leads(Two(DUE, UNDECIDED, Some([0, 1]), Scanning(2.0, ["k"], None, false)), Work,
                  Two(DUE, UNDECIDED, Some([0, 1]), Scanning(2.0, ["k"], None, true)))
  {
  }

  lemma WithdrawsHead()
    ensures Leads(Two(DUE, UNDECIDED, Some([0, 1]), Scanning(2.0, ["k"], None, true)), Withdraw(0),
                  Two(DUE, [Cancelled, Pending], Some([0, 1]), Scanning(2.0, ["k"], None, true)))
  {
    assert UNDECIDED[0 := Cancelled] == [Cancelled, Pending];
  }

  lemma Crashes()
    ensures Leads(Two(DUE, [Cancelled, Pending], Some([0, 1]), Scanning(2.0, ["k"], None, true)), Work, Gone())
  {
    assert [0, 1][1..] == [1];
    assert map["k" := [0, 1]]["k" := [1]] == map["k" := [1]];
    var none: seq<Raise> := [];
    assert none + [Raise(0, AtScan)] == [Raise(0, AtScan)];
  }

  /** The caller of a late request cancels between the look and the setting: the
      worker is gone, and the other request is never decided by anyone else. */
  lemma RaceKillsWorker() returns (events: seq<Event>)
    ensures After(events, TWO) == Gone() && Inv(Gone(), TWO) && Stranded(Gone(), 1)
    ensures forall later :: Withdraw(1) !in later && Flush !in later ==> Stranded(Run(Gone(), later, TWO), 1)
  {
    var e0 := Arrived(DUE);
    Wakes(DUE, 2.0);
    Next(e0, Turn(2.0), Two(DUE, UNDECIDED, Some([0, 1]), Idle), Two(DUE, UNDECIDED, Some([0, 1]), Scanning(2.0, ["k"], None, false)));
    var e1 := e0 + [Turn(2.0)];
    ChecksHead();
    Next(e1, Work, Two(DUE, UNDECIDED, Some([0, 1]), Scanning(2.0, ["k"], None, false)), Two(DUE, UNDECIDED, Some([0, 1]), Scanning(2.0, ["k"], None, true)));
    var e2 := e1 + [Work];
    WithdrawsHead();
    Next(e2, Withdraw(0), Two(DUE, UNDECIDED, Some([0, 1]), Scanning(2.0, ["k"], None, true)), Two(DUE, [Cancelled, Pending], Some([0, 1]), Scanning(2.0, ["k"], None, true)));
    var e3 := e2 + [Withdraw(0)];
    Crashes();
    Next(e3, Work, Two(DUE, [Cancelled, Pending], Some([0, 1]), Scanning(2.0, ["k"], None, true)), Gone());
    events := e3 + [Work];
    InitialInv(TWO);
    RunKeeps(Initial(), events, TWO);
    forall later | Withdraw(1) !in later && Flush !in later
      ensures Stranded(Run(Gone(), later, TWO), 1)
    {
      StrandedForever(Gone(), later, 1, TWO);
    }
  }

  // ------------------------------------------------------------ a late request

  /** Behind a live head a request is dispatched although its deadline has passed. */
  function LateBehind(): State {
    Two(None, UNDECIDED, Some([0, 1]), Idle).(requests := [Request("k", "", None, 0.0), Request("k", "", Some(1.0), 0.0)])
  }

  lemma LateReachable() returns (events: seq<Event>)
    ensures After(events, TWO) == LateBehind() && Inv(LateBehind(), TWO) && Indexed(LateBehind())
  {
    InitialInv(TWO);
    FirstArrives(None);
    Next([], Arrive(Asked(None)[0]), Initial(), One(None));
    LateArrives();
    events := [] + [Arrive(Asked(None)[0])] + [Arrive(Request("k", "", Some(1.0), 0.0))];
    Next([] + [Arrive(Asked(None)[0])], Arrive(Request("k", "", Some(1.0), 0.0)), One(None), LateBehind());
    RunKeeps(Initial(), events, TWO);
    HandIndexed(LateBehind(), TWO);
  }

  lemma LateArrives()
    ensures Leads(One(None), Arrive(Request("k", "", Some(1.0), 0.0)), LateBehind())
  {
    assert [0] + [1] == [0, 1];
    assert map["k" := [0]]["k" := [0, 1]] == map["k" := [0, 1]];
  }

  lemma LateBehindHead() returns (events: seq<Event>)
    ensures var s := After(events, TWO);
            && "k" in s.queues && InRange(s, s.queues["k"])
            && Overtaken(s, Standing(s, s.queues["k"]), 0, 1, 2) && TakenAt(s, "k", 2.0, 2) == [0, 1] && Late(s, 1, 2.0)
            && DispatchesLate(s, "k", 2.0, 2)
            && Indexed(s) && NoDuplicates(s.order) && Wake(s, 2.0, TWO).worker == Holding([0, 1])
  {
    events := LateReachable();
    var s := LateBehind();
    LateTaken(s);
    LateHeld();
    WakeTakes(s, 2.0, TWO);
  }

  lemma LateHeld()
    requires Inv(LateBehind(), TWO) && Indexed(LateBehind())
    ensures Wake(LateBehind(), 2.0, TWO).worker.Holding? && Wake(LateBehind(), 2.0, TWO).worker.batch != []
    ensures Wake(LateBehind(), 2.0, TWO).worker.batch[0] == 0
  {
    var s := LateBehind();
    assert s.order[1..] == [];
    assert DropHeads(s, "k", 2.0) == s;
    assert Scan(s, [], Some("k"), 2.0) == (s, Some("k"));
    assert Scan(s, s.order, None, 2.0) == (s, Some("k"));
    DispatchKeeps(s, "k", TWO);
  }

  lemma LateTaken(s: State)
    requires s == LateBehind()
    ensures "k" in s.queues && InRange(s, s.queues["k"])
    ensures Overtaken(s, Standing(s, s.queues["k"]), 0, 1, 2) && TakenAt(s, "k", 2.0, 2) == [0, 1] && Late(s, 1, 2.0)
    ensures DispatchesLate(s, "k", 2.0, 2)
  {
    assert [0, 1][1..] == [1] && [1][1..] == [];
    assert Standing(s, []) == [];
    assert Standing(s, [1]) == [1];
    assert Standing(s, [0, 1]) == [0, 1];
    assert DropLate(s, [0, 1], 2.0) == [0, 1];
    assert 1 in TakenAt(s, "k", 2.0, 2);
  }
}
