/** Running an accepted task graph on a pool of workers.

    Workers take nodes from a first-in-first-out queue; a worker that has taken
    a node blocks until the node's dependencies are done, runs the handler once
    and publishes the output. A run is any interleaving of these steps. */
module TaskRun {
  import opened Prelude
  import opened Graphs
  import opened TaskGraphs

  /** What a node's handler makes of the outputs of its dependencies. None
      stands for a handler that raised, whose recorded output is None. */
  type Handler<!V> = (string, map<string, Option<V>>) -> Option<V>

  /** Where a taken node is. */
  datatype Phase = Waiting | Running | Done

  datatype State<V> = State(
    submitted: nat, taken: nat, phase: map<string, Phase>, runs: map<string, nat>,
    inputs: map<string, map<string, Option<V>>>, outputs: map<string, Option<V>>,
    started: map<string, real>, finished: map<string, real>, clock: real)

  datatype Step =
    | Submit(now: real)
    | Take(now: real)
    | Begin(id: string, now: real)
    | Finish(id: string, now: real)

  function Initial<V>(clock: real): State<V> {
    State(0, 0, map[], map[], map[], map[], map[], map[], clock)
  }

  /** The nodes occupying a worker. */
  function Busy<V>(s: State<V>): set<string> {
    set id | id in s.phase && s.phase[id] != Done
  }

  function DoneSet<V>(s: State<V>): set<string> {
    set id | id in s.phase && s.phase[id] == Done
  }

  predicate DependenciesDone<V>(g: Graph, s: State<V>, id: string)
    requires id in g.deps
  {
    forall d | d in g.deps[id] :: d in s.phase && s.phase[d] == Done
  }

  predicate Enabled<V>(g: Graph, workers: nat, s: State<V>, step: Step) {
    s.clock <= step.now &&
    match step
    case Submit(_) => s.submitted < |g.order|
    case Take(_) => s.taken < s.submitted <= |g.order| && |Busy(s)| < workers
    case Begin(id, _) => id in s.phase && s.phase[id] == Waiting && id in g.deps && DependenciesDone(g, s, id)
    case Finish(id, _) => id in s.phase && s.phase[id] == Running && id in s.inputs
  }

  /** What a handler is given: the outputs of its dependencies. */
  function InputsOf<V>(g: Graph, outputs: map<string, Option<V>>, id: string): map<string, Option<V>>
    requires id in g.deps
  {
    map d | d in g.deps[id] :: if d in outputs then outputs[d] else None
  }

  function Next<V>(g: Graph, handler: Handler<V>, workers: nat, s: State<V>, step: Step): State<V>
    requires Enabled(g, workers, s, step)
  {
    match step
    case Submit(now) => s.(submitted := s.submitted + 1, clock := now)
    case Take(now) => s.(taken := s.taken + 1, phase := s.phase[g.order[s.taken] := Waiting], clock := now)
    case Begin(id, now) =>
      s.(phase := s.phase[id := Running],
         runs := s.runs[id := 1 + if id in s.runs then s.runs[id] else 0],
         inputs := s.inputs[id := InputsOf(g, s.outputs, id)],
         started := s.started[id := now], clock := now)
    case Finish(id, now) =>
      s.(phase := s.phase[id := Done], outputs := s.outputs[id := handler(id, s.inputs[id])],
         finished := s.finished[id := now], clock := now)
  }

  predicate Final<V>(g: Graph, s: State<V>) {
    forall id | id in g.order :: id in s.phase && s.phase[id] == Done
  }

  // ---------------------------------------------------------------- meaning

  ghost function RankOf(g: Graph): map<string, nat>
    requires Acceptable(g)
    ensures Ranked(Edges(g), RankOf(g))
  {
    var rank: map<string, nat> :| Ranked(Edges(g), rank);
    rank
  }

  ghost function Height(g: Graph, id: string): nat
    requires Acceptable(g)
  {
    if id in RankOf(g) then RankOf(g)[id] else 0
  }

  lemma HeightDecreases(g: Graph, id: string, d: string)
    requires Acceptable(g) && id in g.deps && d in g.deps[id]
    ensures Height(g, d) < Height(g, id)
  {
    assert (id, d) in Edges(g);
  }

  /** The output a node has when each handler is a function of its inputs. */
  ghost function Meaning<V>(g: Graph, handler: Handler<V>, id: string): Option<V>
    requires Acceptable(g) && id in g.deps
    decreases Height(g, id)
  {
    handler(id, map d | d in g.deps[id] :: (HeightDecreases(g, id, d); Meaning(g, handler, d)))
  }

  // -------------------------------------------------------------- invariant

  ghost predicate QueueWell<V>(g: Graph, workers: nat, s: State<V>) {
    && s.taken <= s.submitted <= |g.order|
    && s.phase.Keys == Elems(g.order[..s.taken])
    && |Busy(s)| <= workers
  }

  /** A node that has begun has all its dependencies done. */
  ghost predicate OrderWell<V>(g: Graph, s: State<V>) {
    forall id, d :: id in s.phase && s.phase[id] != Waiting && id in g.deps && d in g.deps[id] ==>
      d in s.phase && s.phase[d] == Done
  }

  function Begun<V>(s: State<V>): set<string> {
    set id | id in s.phase && s.phase[id] != Waiting
  }

  /** Handlers were called for the begun nodes, once each; outputs exist for the done ones. */
  ghost predicate CountsWell<V>(s: State<V>) {
    && s.runs.Keys == Begun(s) && s.inputs.Keys == Begun(s) && s.started.Keys == Begun(s)
    && s.outputs.Keys == DoneSet(s) && s.finished.Keys == DoneSet(s)
    && forall id :: id in s.runs ==> s.runs[id] == 1
  }

  ghost predicate ValuesWell<V>(g: Graph, handler: Handler<V>, s: State<V>)
    requires Acceptable(g)
  {
    && (forall id :: id in s.outputs && id in g.deps ==> s.outputs[id] == Meaning(g, handler, id))
    && (forall id :: id in s.inputs && id in g.deps ==> handler(id, s.inputs[id]) == Meaning(g, handler, id))
  }

  ghost predicate TimesWell<V>(g: Graph, t0: real, s: State<V>) {
    && (forall id :: id in s.started ==> t0 <= s.started[id] <= s.clock)
    && (forall id :: id in s.finished ==> id in s.started && s.started[id] <= s.finished[id] <= s.clock)
    && (forall id, d :: id in s.started && id in g.deps && d in g.deps[id] ==>
          d in s.finished && s.finished[d] <= s.started[id])
    && t0 <= s.clock
  }

  ghost predicate RunInv<V>(g: Graph, handler: Handler<V>, workers: nat, t0: real, s: State<V>)
    requires Acceptable(g)
  {
    && QueueWell(g, workers, s) && OrderWell(g, s) && CountsWell(s)
    && ValuesWell(g, handler, s) && TimesWell(g, t0, s)
  }

  lemma InitialInv<V>(g: Graph, handler: Handler<V>, workers: nat, t0: real)
    requires Acceptable(g)
    ensures RunInv(g, handler, workers, t0, Initial(t0))
  {
    assert g.order[..0] == [];
    assert Busy<V>(Initial(t0)) == {};
  }

  /** A node taken from the queue was not taken before. */
  lemma TakenIsNew<V>(g: Graph, workers: nat, s: State<V>)
    requires WellFormed(g) && QueueWell(g, workers, s) && s.taken < |g.order|
    ensures g.order[s.taken] !in s.phase
  {
    assert g.order[s.taken] !in g.order[..s.taken];
  }

  lemma TakeSets<V>(s: State<V>, after: State<V>, id: string)
    requires id !in s.phase && after.phase == s.phase[id := Waiting]
    ensures Busy(after) == Busy(s) + {id} && Begun(after) == Begun(s) && DoneSet(after) == DoneSet(s)
  {
  }

  lemma BeginSets<V>(s: State<V>, after: State<V>, id: string)
    requires id in s.phase && s.phase[id] == Waiting && after.phase == s.phase[id := Running]
    ensures Busy(after) == Busy(s) && Begun(after) == Begun(s) + {id} && DoneSet(after) == DoneSet(s)
  {
  }

  lemma FinishSets<V>(s: State<V>, after: State<V>, id: string)
    requires id in s.phase && s.phase[id] == Running && after.phase == s.phase[id := Done]
    ensures Busy(after) == Busy(s) - {id} && Begun(after) == Begun(s) && DoneSet(after) == DoneSet(s) + {id}
  {
  }

  /** Which sets of nodes each step moves. */
  lemma NextSets<V>(g: Graph, handler: Handler<V>, workers: nat, s: State<V>, step: Step)
    requires Enabled(g, workers, s, step)
    requires step.Take? ==> g.order[s.taken] !in s.phase
    ensures var after := Next(g, handler, workers, s, step);
            && Busy(after) == (if step.Take? then Busy(s) + {g.order[s.taken]} else if step.Finish? then Busy(s) - {step.id} else Busy(s))
            && Begun(after) == (if step.Begin? then Begun(s) + {step.id} else Begun(s))
            && DoneSet(after) == (if step.Finish? then DoneSet(s) + {step.id} else DoneSet(s))
  {
    var after := Next(g, handler, workers, s, step);
    if step.Take? {
      TakeSets(s, after, g.order[s.taken]);
    } else if step.Begin? {
      BeginSets(s, after, step.id);
    } else if step.Finish? {
      FinishSets(s, after, step.id);
    }
  }

  lemma QueueKeeps<V>(g: Graph, handler: Handler<V>, workers: nat, s: State<V>, step: Step)
    requires WellFormed(g) && QueueWell(g, workers, s) && Enabled(g, workers, s, step)
    ensures QueueWell(g, workers, Next(g, handler, workers, s, step))
  {
    if step.Take? {
      TakenIsNew(g, workers, s);
      NextSets(g, handler, workers, s, step);
      TakeKeepsQueue(g, workers, s, Next(g, handler, workers, s, step));
    } else {
      NextSets(g, handler, workers, s, step);
      SubsetCount(Busy(Next(g, handler, workers, s, step)), Busy(s));
      assert Next(g, handler, workers, s, step).phase.Keys == s.phase.Keys;
    }
  }

  lemma TakeKeepsQueue<V>(g: Graph, workers: nat, s: State<V>, after: State<V>)
    requires WellFormed(g) && QueueWell(g, workers, s) && s.taken < s.submitted && |Busy(s)| < workers
    requires after.taken == s.taken + 1 && after.submitted == s.submitted
    requires after.phase == s.phase[g.order[s.taken] := Waiting]
    requires Busy(after) == Busy(s) + {g.order[s.taken]}
    ensures QueueWell(g, workers, after)
  {
    ElemsOfOneMore(g.order, s.taken);
    assert after.phase.Keys == s.phase.Keys + {g.order[s.taken]};
  }

  lemma OrderKeeps<V>(g: Graph, handler: Handler<V>, workers: nat, s: State<V>, step: Step)
    requires OrderWell(g, s) && Enabled(g, workers, s, step)
    requires step.Take? ==> g.order[s.taken] !in s.phase
    ensures OrderWell(g, Next(g, handler, workers, s, step))
  {
    var after := Next(g, handler, workers, s, step);
    forall id, d | id in after.phase && after.phase[id] != Waiting && id in g.deps && d in g.deps[id]
      ensures d in after.phase && after.phase[d] == Done
    {
      assert d in s.phase && s.phase[d] == Done;
    }
  }

  lemma CountsKeep<V>(g: Graph, handler: Handler<V>, workers: nat, s: State<V>, step: Step)
    requires CountsWell(s) && Enabled(g, workers, s, step)
    requires step.Take? ==> g.order[s.taken] !in s.phase
    ensures CountsWell(Next(g, handler, workers, s, step))
  {
    NextSets(g, handler, workers, s, step);
    var after := Next(g, handler, workers, s, step);
    if step.Begin? {
      assert step.id !in Begun(s) && step.id !in s.runs;
      BeginCounted(s, after, step.id);
    } else if step.Finish? {
      FinishCounted(s, after, step.id);
    }
  }

  lemma BeginCounted<V>(s: State<V>, after: State<V>, id: string)
    requires CountsWell(s) && id !in Begun(s) && Begun(after) == Begun(s) + {id} && DoneSet(after) == DoneSet(s)
    requires after.runs == s.runs[id := 1]
    requires after.inputs.Keys == s.inputs.Keys + {id} && after.started.Keys == s.started.Keys + {id}
    requires after.outputs == s.outputs && after.finished == s.finished
    ensures CountsWell(after)
  {
    assert after.runs.Keys == s.runs.Keys + {id};
  }

  lemma FinishCounted<V>(s: State<V>, after: State<V>, id: string)
    requires CountsWell(s) && Begun(after) == Begun(s) && DoneSet(after) == DoneSet(s) + {id}
    requires after.runs == s.runs && after.inputs == s.inputs && after.started == s.started
    requires after.outputs.Keys == s.outputs.Keys + {id} && after.finished.Keys == s.finished.Keys + {id}
    ensures CountsWell(after)
  {
  }

  lemma ValuesKeep<V>(g: Graph, handler: Handler<V>, workers: nat, s: State<V>, step: Step)
    requires Acceptable(g) && CountsWell(s) && ValuesWell(g, handler, s) && Enabled(g, workers, s, step)
    ensures ValuesWell(g, handler, Next(g, handler, workers, s, step))
  {
    if step.Begin? {
      forall d | d in g.deps[step.id]
        ensures d in s.outputs && s.outputs[d] == Meaning(g, handler, d)
      {
        assert d in DoneSet(s) && d in g.deps;
      }
      InputsMean(g, handler, step.id, s.outputs);
    }
  }

  /** A handler fed with the meanings of its dependencies produces its node's meaning. */
  lemma InputsMean<V>(g: Graph, handler: Handler<V>, id: string, outputs: map<string, Option<V>>)
    requires Acceptable(g) && id in g.deps
    requires forall d :: d in g.deps[id] ==> d in g.deps && d in outputs && outputs[d] == Meaning(g, handler, d)
    ensures handler(id, InputsOf(g, outputs, id)) == Meaning(g, handler, id)
  {
    var meant := map d | d in g.deps[id] :: (HeightDecreases(g, id, d); Meaning(g, handler, d));
    assert InputsOf(g, outputs, id).Keys == meant.Keys;
    assert InputsOf(g, outputs, id) == meant;
  }

  lemma TimesKeep<V>(g: Graph, handler: Handler<V>, workers: nat, t0: real, s: State<V>, step: Step)
    requires CountsWell(s) && TimesWell(g, t0, s) && Enabled(g, workers, s, step)
    ensures TimesWell(g, t0, Next(g, handler, workers, s, step))
  {
    var after := Next(g, handler, workers, s, step);
    if step.Begin? {
      TimesBegin(g, t0, s, step.id, step.now, after);
    } else if step.Finish? {
      TimesFinish(g, t0, s, step.id, step.now, after);
    }
  }

  lemma TimesBegin<V>(g: Graph, t0: real, s: State<V>, id: string, now: real, after: State<V>)
    requires CountsWell(s) && TimesWell(g, t0, s) && s.clock <= now
    requires id in g.deps && DependenciesDone(g, s, id) && id !in Begun(s)
    requires after.started == s.started[id := now] && after.finished == s.finished && after.clock == now
    ensures TimesWell(g, t0, after)
  {
    assert id !in s.finished && id !in s.started;
    forall d | d in g.deps[id]
      ensures d in s.finished && s.finished[d] <= now
    {
      assert d in DoneSet(s);
    }
  }

  lemma TimesFinish<V>(g: Graph, t0: real, s: State<V>, id: string, now: real, after: State<V>)
    requires CountsWell(s) && TimesWell(g, t0, s) && s.clock <= now
    requires id in Begun(s) && id !in DoneSet(s)
    requires after.started == s.started && after.finished == s.finished[id := now] && after.clock == now
    ensures TimesWell(g, t0, after)
  {
    forall m, d | m in after.started && m in g.deps && d in g.deps[m]
      ensures d in after.finished && after.finished[d] <= after.started[m]
    {
      assert d in s.finished && d != id;
    }
  }

  lemma NextKeeps<V>(g: Graph, handler: Handler<V>, workers: nat, t0: real, s: State<V>, step: Step)
    requires Acceptable(g) && RunInv(g, handler, workers, t0, s) && Enabled(g, workers, s, step)
    ensures RunInv(g, handler, workers, t0, Next(g, handler, workers, s, step))
  {
    if step.Take? { TakenIsNew(g, workers, s); }
    QueueKeeps(g, handler, workers, s, step);
    OrderKeeps(g, handler, workers, s, step);
    CountsKeep(g, handler, workers, s, step);
    ValuesKeep(g, handler, workers, s, step);
    TimesKeep(g, handler, workers, t0, s, step);
  }

  // ------------------------------------------------------------------- runs

  /** The states a sequence of steps goes through, if each step is enabled. */
  ghost predicate IsRun<V>(g: Graph, handler: Handler<V>, workers: nat, s: State<V>, steps: seq<Step>, end: State<V>)
    decreases |steps|
  {
    if steps == [] then s == end
    else Enabled(g, workers, s, steps[0])
         && IsRun(g, handler, workers, Next(g, handler, workers, s, steps[0]), steps[1..], end)
  }

  /** How many steps are still possible from a state. */
  ghost function Remaining<V>(g: Graph, s: State<V>): int {
    4 * |g.order| - s.submitted - s.taken - |s.runs| - |s.outputs|
  }

  /** A handler is never called again, and an output never written again. */
  lemma NotYetRun<V>(g: Graph, workers: nat, s: State<V>, step: Step)
    requires CountsWell(s) && Enabled(g, workers, s, step)
    ensures step.Begin? ==> step.id !in s.runs
    ensures step.Finish? ==> step.id !in s.outputs
  {
    if step.Begin? { assert step.id !in Begun(s); }
    if step.Finish? { assert step.id !in DoneSet(s); }
  }

  lemma QueueUsesOne<V>(g: Graph, handler: Handler<V>, workers: nat, s: State<V>, step: Step)
    requires Enabled(g, workers, s, step) && (step.Submit? || step.Take?)
    ensures Remaining(g, Next(g, handler, workers, s, step)) == Remaining(g, s) - 1
  {
  }

  lemma BeginUsesOne<V>(g: Graph, handler: Handler<V>, workers: nat, s: State<V>, step: Step)
    requires Enabled(g, workers, s, step) && step.Begin? && step.id !in s.runs
    ensures Remaining(g, Next(g, handler, workers, s, step)) == Remaining(g, s) - 1
  {
    assert Next(g, handler, workers, s, step).runs == s.runs[step.id := 1];
  }

  lemma FinishUsesOne<V>(g: Graph, handler: Handler<V>, workers: nat, s: State<V>, step: Step)
    requires Enabled(g, workers, s, step) && step.Finish? && step.id !in s.outputs
    ensures Remaining(g, Next(g, handler, workers, s, step)) == Remaining(g, s) - 1
  {
    assert Next(g, handler, workers, s, step).outputs == s.outputs[step.id := handler(step.id, s.inputs[step.id])];
  }

  lemma NextUsesOne<V>(g: Graph, handler: Handler<V>, workers: nat, s: State<V>, step: Step)
    requires CountsWell(s) && Enabled(g, workers, s, step)
    ensures Remaining(g, Next(g, handler, workers, s, step)) == Remaining(g, s) - 1
  {
    NotYetRun(g, workers, s, step);
    if step.Begin? {
      BeginUsesOne(g, handler, workers, s, step);
    } else if step.Finish? {
      FinishUsesOne(g, handler, workers, s, step);
    } else {
      QueueUsesOne(g, handler, workers, s, step);
    }
  }

  lemma RemainingNonNegative<V>(g: Graph, handler: Handler<V>, workers: nat, t0: real, s: State<V>)
    requires Acceptable(g) && RunInv(g, handler, workers, t0, s)
    ensures 0 <= Remaining(g, s)
  {
    var prefix := g.order[..s.taken];
    DuplicatesShrink(prefix);
    assert s.runs.Keys <= s.phase.Keys && s.outputs.Keys <= s.phase.Keys;
    SubsetCount(s.runs.Keys, s.phase.Keys);
    SubsetCount(s.outputs.Keys, s.phase.Keys);
    assert |s.runs| == |s.runs.Keys| && |s.outputs| == |s.outputs.Keys|;
  }

  /** The invariant holds along every run, and no run takes more than four steps per node. */
  lemma {:induction false} RunKeeps<V>(g: Graph, handler: Handler<V>, workers: nat, t0: real, s: State<V>,
                                       steps: seq<Step>, end: State<V>)
    requires Acceptable(g) && RunInv(g, handler, workers, t0, s) && IsRun(g, handler, workers, s, steps, end)
    ensures RunInv(g, handler, workers, t0, end)
    ensures |steps| + Remaining(g, end) == Remaining(g, s) && 0 <= Remaining(g, end)
    decreases |steps|
  {
    if steps == [] {
      RemainingNonNegative(g, handler, workers, t0, s);
    } else {
      NextKeeps(g, handler, workers, t0, s, steps[0]);
      NextUsesOne(g, handler, workers, s, steps[0]);
      RunKeeps(g, handler, workers, t0, Next(g, handler, workers, s, steps[0]), steps[1..], end);
    }
  }

  // --------------------------------------------------- when the pool suffices

  /** Among the first k queued nodes, those that need a node queued later. */
  ghost function Stuck(g: Graph, k: nat): set<string>
    requires k <= |g.order|
  {
    set u | u in g.order[..k] && exists a :: a !in g.order[..k] && Reach(Edges(g), u, a)
  }

  /** At every cut of the queue fewer nodes are stuck than there are workers. */
  ghost predicate Roomy(g: Graph, workers: nat) {
    forall k {:trigger Stuck(g, k)} :: 0 <= k < |g.order| ==> |Stuck(g, k)| < workers
  }

  ghost predicate InDependencyOrder(g: Graph) {
    forall i, d :: 0 <= i < |g.order| && g.order[i] in g.deps && d in g.deps[g.order[i]] ==> d in g.order[..i]
  }

  /** A list in dependency order needs one worker only. */
  lemma DependencyOrderIsRoomy(g: Graph, workers: nat)
    requires Acceptable(g) && InDependencyOrder(g) && workers >= 1
    ensures Roomy(g, workers)
  {
    forall k | 0 <= k < |g.order|
      ensures |Stuck(g, k)| < workers
    {
      var prefix := Elems(g.order[..k]);
      assert Closed(Edges(g), prefix) by {
        forall edge | edge in Edges(g) && edge.0 in prefix
          ensures edge.1 in prefix
        {
          var i :| 0 <= i < k && g.order[..k][i] == edge.0;
          assert g.order[i] == edge.0 && edge.1 in g.order[..i];
        }
      }
      assert Stuck(g, k) == {} by {
        forall u, a | u in g.order[..k] && Reach(Edges(g), u, a)
          ensures a in g.order[..k]
        {
          ReachClosed(Edges(g), prefix, u, a);
        }
      }
    }
  }

  /** As many workers as nodes always suffice. */
  lemma EnoughWorkersIsRoomy(g: Graph, workers: nat)
    requires Acceptable(g) && workers >= |g.order|
    ensures Roomy(g, workers)
  {
    forall k | 0 <= k < |g.order|
      ensures |Stuck(g, k)| < workers
    {
      DuplicatesShrink(g.order[..k]);
      SubsetCount(Stuck(g, k), Elems(g.order[..k]));
    }
  }

  /** Two nodes, the one that waits before the one it waits for. */
  const LATE_FIRST := Graph(["late", "early"], map["late" := ["early"], "early" := []])

  lemma LateFirstNeedsTwo()
    ensures Acceptable(LATE_FIRST) && !InDependencyOrder(LATE_FIRST) && !Roomy(LATE_FIRST, 1) && Roomy(LATE_FIRST, 2)
  {
    var g := LATE_FIRST;
    assert Ranked(Edges(g), map["late" := 1, "early" := 0]);
    assert ("late", "early") in Edges(g);
    ReachEdge(Edges(g), "late", "early");
    assert g.order[..1] == ["late"] && g.order[..0] == [];
    assert "late" in Stuck(g, 1);
    assert Stuck(g, 1) == {"late"};
    assert |Stuck(g, 1)| >= 1;
    assert g.order[0] == "late" && "early" in g.deps["late"] && "early" !in g.order[..0];
    EnoughWorkersIsRoomy(g, 2);
  }

  /** A blocked node of minimal height, if one could exist, would be runnable. */
  lemma {:induction false} BlockedIsStuck<V>(g: Graph, handler: Handler<V>, workers: nat, t0: real, s: State<V>, u: string)
    requires Acceptable(g) && RunInv(g, handler, workers, t0, s) && u in Busy(s)
    requires forall id :: id in s.phase ==> s.phase[id] != Running
    requires forall id :: id in s.phase && s.phase[id] == Waiting && id in g.deps ==> !DependenciesDone(g, s, id)
    ensures u in Stuck(g, s.taken)
    decreases Height(g, u)
  {
    assert u in Elems(g.order[..s.taken]) && u in Elems(g.order);
    var d :| d in g.deps[u] && !(d in s.phase && s.phase[d] == Done);
    assert (u, d) in Edges(g);
    if d in s.phase {
      HeightDecreases(g, u, d);
      BlockedIsStuck(g, handler, workers, t0, s, d);
      var a :| a !in g.order[..s.taken] && Reach(Edges(g), d, a);
      ReachCons(Edges(g), u, d, a);
    } else {
      assert d !in Elems(g.order[..s.taken]);
      ReachEdge(Edges(g), u, d);
    }
  }

  /** No worker can begin, run or finish anything. */
  ghost predicate AllBlocked<V>(g: Graph, s: State<V>) {
    && (forall id :: id in s.phase ==> s.phase[id] != Running)
    && (forall id :: id in s.phase && s.phase[id] == Waiting && id in g.deps ==> !DependenciesDone(g, s, id))
  }

  lemma AllBlockedAreStuck<V>(g: Graph, handler: Handler<V>, workers: nat, t0: real, s: State<V>)
    requires Acceptable(g) && RunInv(g, handler, workers, t0, s) && AllBlocked(g, s)
    ensures |Busy(s)| <= |Stuck(g, s.taken)|
  {
    forall u | u in Busy(s)
      ensures u in Stuck(g, s.taken)
    {
      BlockedIsStuck(g, handler, workers, t0, s, u);
    }
    SubsetCount(Busy(s), Stuck(g, s.taken));
  }

  /** A busy worker that is not blocked has a step to take. */
  lemma UnblockedStep<V>(g: Graph, workers: nat, s: State<V>) returns (step: Step)
    requires CountsWell(s) && !AllBlocked(g, s)
    ensures Enabled(g, workers, s, step)
  {
    if id :| id in s.phase && s.phase[id] == Running {
      assert id in Begun(s);
      step := Finish(id, s.clock);
    } else {
      var id :| id in s.phase && s.phase[id] == Waiting && id in g.deps && DependenciesDone(g, s, id);
      step := Begin(id, s.clock);
    }
  }

  /** With room, a run that is not over can always go on. */
  lemma Progress<V>(g: Graph, handler: Handler<V>, workers: nat, t0: real, s: State<V>)
    requires Acceptable(g) && RunInv(g, handler, workers, t0, s) && Roomy(g, workers) && !Final(g, s)
    ensures exists step :: Enabled(g, workers, s, step)
  {
    if s.submitted < |g.order| {
      assert Enabled(g, workers, s, Submit(s.clock));
    } else if !AllBlocked(g, s) {
      var step := UnblockedStep(g, workers, s);
    } else {
      AllBlockedAreStuck(g, handler, workers, t0, s);
      if s.taken < |g.order| {
        assert Enabled(g, workers, s, Take(s.clock));
      } else {
        NothingStuckAtEnd(g);
        NoneBusyIsFinal(g, workers, s);
      }
    }
  }

  lemma NoneBusyIsFinal<V>(g: Graph, workers: nat, s: State<V>)
    requires QueueWell(g, workers, s) && s.taken == |g.order| && |Busy(s)| == 0
    ensures Final(g, s)
  {
    assert g.order[..s.taken] == g.order;
    forall id | id in g.order
      ensures id in s.phase && s.phase[id] == Done
    {
      assert id in Elems(g.order) && id !in Busy(s);
    }
  }

  lemma NothingStuckAtEnd(g: Graph)
    requires Acceptable(g)
    ensures Stuck(g, |g.order|) == {}
  {
    assert g.order[..|g.order|] == g.order;
    assert Closed(Edges(g), g.deps.Keys);
    forall u, a | u in g.order && Reach(Edges(g), u, a)
      ensures a in g.order
    {
      assert u in Elems(g.order);
      ReachClosed(Edges(g), g.deps.Keys, u, a);
      assert a in Elems(g.order);
    }
  }

  /** Stuck nodes hold their workers until the queue moves past the cut. */
  lemma StuckAreBusy<V>(g: Graph, handler: Handler<V>, workers: nat, t0: real, s: State<V>)
    requires Acceptable(g) && RunInv(g, handler, workers, t0, s)
    ensures Stuck(g, s.taken) <= Busy(s)
  {
    forall u | u in Stuck(g, s.taken)
      ensures u in Busy(s)
    {
      assert u in Elems(g.order[..s.taken]);
      var a :| a !in g.order[..s.taken] && Reach(Edges(g), u, a);
      DoneReach(g, workers, s, u, a);
    }
  }

  lemma DoneReach<V>(g: Graph, workers: nat, s: State<V>, u: string, a: string)
    requires QueueWell(g, workers, s) && OrderWell(g, s) && Reach(Edges(g), u, a)
    ensures u in DoneSet(s) ==> a in g.order[..s.taken]
  {
    if u in DoneSet(s) {
      DoneIsClosed(g, s);
      ReachClosed(Edges(g), DoneSet(s), u, a);
      assert a in Elems(g.order[..s.taken]);
    }
  }

  lemma DoneIsClosed<V>(g: Graph, s: State<V>)
    requires OrderWell(g, s)
    ensures Closed(Edges(g), DoneSet(s))
  {
    forall edge | edge in Edges(g) && edge.0 in DoneSet(s)
      ensures edge.1 in DoneSet(s)
    {
    }
  }

  /** Where as many nodes are stuck as there are workers, no run gets past. */
  lemma {:induction false} NeverPastTheCut<V>(g: Graph, handler: Handler<V>, workers: nat, t0: real, s: State<V>,
                                              steps: seq<Step>, end: State<V>, k: nat)
    requires Acceptable(g) && RunInv(g, handler, workers, t0, s) && IsRun(g, handler, workers, s, steps, end)
    requires k < |g.order| && |Stuck(g, k)| >= workers && s.taken <= k
    ensures end.taken <= k && !Final(g, end)
    decreases |steps|
  {
    if steps == [] {
      NotFinalAtCut(g, handler, workers, t0, s, k);
    } else {
      if s.taken == k {
        StuckAreBusy(g, handler, workers, t0, s);
        SubsetCount(Stuck(g, k), Busy(s));
      }
      NextKeeps(g, handler, workers, t0, s, steps[0]);
      NeverPastTheCut(g, handler, workers, t0, Next(g, handler, workers, s, steps[0]), steps[1..], end, k);
    }
  }

  lemma NotFinalAtCut<V>(g: Graph, handler: Handler<V>, workers: nat, t0: real, s: State<V>, k: nat)
    requires Acceptable(g) && RunInv(g, handler, workers, t0, s) && s.taken <= k < |g.order|
    ensures !Final(g, s)
  {
    TakenIsNew(g, workers, s);
    assert g.order[s.taken] in g.order;
  }

  /** A run that cannot be continued. */
  ghost predicate IsMaximalRun<V>(g: Graph, handler: Handler<V>, workers: nat, t0: real, steps: seq<Step>, end: State<V>) {
    IsRun(g, handler, workers, Initial(t0), steps, end) && forall step :: !Enabled(g, workers, end, step)
  }

  /** Every run ends; it ends with every node done exactly when the pool is
      roomy for this queue. Otherwise every schedule deadlocks. */
  lemma MaximalRunFinishesIff<V>(g: Graph, handler: Handler<V>, workers: nat, t0: real, steps: seq<Step>, end: State<V>)
    requires Acceptable(g) && IsMaximalRun(g, handler, workers, t0, steps, end)
    ensures |steps| <= 4 * |g.order|
    ensures Final(g, end) <==> Roomy(g, workers)
  {
    InitialInv(g, handler, workers, t0);
    RunKeeps(g, handler, workers, t0, Initial(t0), steps, end);
    if Roomy(g, workers) {
      if !Final(g, end) { Progress(g, handler, workers, t0, end); }
    } else {
      var k :| 0 <= k < |g.order| && |Stuck(g, k)| >= workers;
      NeverPastTheCut(g, handler, workers, t0, Initial(t0), steps, end, k);
    }
  }

  /** That list is accepted, and yet every run of it on one worker stops for ever
      with a node undone; on two workers every run finishes. */
  lemma WaitingNodeFirst<V>(handler: Handler<V>, workers: nat, t0: real, steps: seq<Step>, end: State<V>)
    requires 1 <= workers <= 2
    ensures Acceptable(LATE_FIRST)
    ensures IsMaximalRun(LATE_FIRST, handler, workers, t0, steps, end) ==> (Final(LATE_FIRST, end) <==> workers == 2)
  {
    LateFirstNeedsTwo();
    if IsMaximalRun(LATE_FIRST, handler, workers, t0, steps, end) {
      MaximalRunFinishesIff(LATE_FIRST, handler, workers, t0, steps, end);
    }
  }

  lemma FinalSets<V>(g: Graph, workers: nat, s: State<V>)
    requires WellFormed(g) && QueueWell(g, workers, s) && Final(g, s)
    ensures DoneSet(s) == g.deps.Keys && Begun(s) == g.deps.Keys
  {
    forall id
      ensures id in g.deps <==> id in DoneSet(s)
      ensures id in g.deps <==> id in Begun(s)
    {
      if id in g.deps { assert id in Elems(g.order); }
      if id in s.phase {
        assert id in Elems(g.order[..s.taken]);
        assert id in Elems(g.order);
      }
    }
  }

  /** A finished run called every handler exactly once, after all its
      dependencies, and produced the outputs the graph means, whatever the
      interleaving was. */
  lemma FinishedRun<V>(g: Graph, handler: Handler<V>, workers: nat, t0: real, steps: seq<Step>, end: State<V>)
    requires Acceptable(g) && IsRun(g, handler, workers, Initial(t0), steps, end) && Final(g, end)
    ensures end.outputs.Keys == g.deps.Keys && end.runs.Keys == g.deps.Keys
    ensures forall id :: id in g.deps ==> end.runs[id] == 1 && end.outputs[id] == Meaning(g, handler, id)
    ensures TimesWell(g, t0, end) && end.started.Keys == g.deps.Keys && end.finished.Keys == g.deps.Keys
  {
    InitialInv(g, handler, workers, t0);
    RunKeeps(g, handler, workers, t0, Initial(t0), steps, end);
    FinalSets(g, workers, end);
  }

  // ------------------------------------------------- sequential evaluation

  /** Evaluating the nodes of a list one after the other. */
  ghost function Sequential<V>(g: Graph, handler: Handler<V>, list: seq<string>): map<string, Option<V>>
    requires forall id :: id in list ==> id in g.deps
  {
    if list == [] then map[]
    else
      var before := Sequential(g, handler, list[..|list| - 1]);
      var id := list[|list| - 1];
      before[id := handler(id, map d | d in g.deps[id] :: if d in before then before[d] else None)]
  }

  /** Every listed node comes after its dependencies. */
  ghost predicate ListedInOrder(g: Graph, list: seq<string>) {
    && (forall id :: id in list ==> id in g.deps)
    && forall i, d {:trigger d in g.deps[list[i]]} :: 0 <= i < |list| && d in g.deps[list[i]] ==> d in list[..i]
  }

  lemma ListedFront(g: Graph, list: seq<string>)
    requires ListedInOrder(g, list) && list != []
    ensures ListedInOrder(g, list[..|list| - 1])
  {
    var front := list[..|list| - 1];
    forall i, d | 0 <= i < |front| && d in g.deps[front[i]]
      ensures d in front[..i]
    {
      assert front[i] == list[i] && front[..i] == list[..i];
      assert d in g.deps[list[i]];
    }
  }

  /** Any evaluation in dependency order gives each node its meaning. */
  lemma {:induction false} SequentialIsMeaning<V>(g: Graph, handler: Handler<V>, list: seq<string>)
    requires Acceptable(g) && ListedInOrder(g, list)
    ensures Sequential(g, handler, list).Keys == Elems(list)
    ensures forall id :: id in list ==> Sequential(g, handler, list)[id] == Meaning(g, handler, id)
    decreases |list|
  {
    if list != [] {
      var n := |list| - 1;
      var front, last := list[..n], list[n];
      assert list == front + [last];
      ListedFront(g, list);
      SequentialIsMeaning(g, handler, front);
      var before := Sequential(g, handler, front);
      forall d | d in g.deps[last]
        ensures d in g.deps && d in before && before[d] == Meaning(g, handler, d)
      {
        assert d in g.deps[list[n]];
        assert d in front;
      }
      InputsMean(g, handler, last, before);
    }
  }

  /** The outputs of any finished run are those of sequential evaluation in any dependency order. */
  lemma RunEqualsSequential<V>(g: Graph, handler: Handler<V>, workers: nat, t0: real, steps: seq<Step>, end: State<V>, list: seq<string>)
    requires Acceptable(g) && IsRun(g, handler, workers, Initial(t0), steps, end) && Final(g, end)
    requires Elems(list) == g.deps.Keys && ListedInOrder(g, list)
    ensures end.outputs == Sequential(g, handler, list)
  {
    FinishedRun(g, handler, workers, t0, steps, end);
    SequentialIsMeaning(g, handler, list);
    forall id | id in g.deps
      ensures end.outputs[id] == Sequential(g, handler, list)[id]
    {
      assert id in Elems(list);
    }
  }
}
