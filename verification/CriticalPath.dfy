/** The longest dependency chain of a finished run, by measured durations. */
module CriticalPath {
  import opened Prelude
  import opened Graphs
  import opened TaskGraphs
  import opened TaskRun

  type Durations = map<string, real>

  /** Durations come from a clock that does not run backwards. */
  ghost predicate Measured(g: Graph, dur: Durations) {
    dur.Keys == g.deps.Keys && forall id :: id in dur ==> 0.0 <= dur[id]
  }

  /** The summed duration of a chain of nodes, each waiting for the next. */
  ghost function ChainSum(dur: Durations, chain: seq<string>): real
    requires forall id :: id in chain ==> id in dur
    decreases |chain|
  {
    if chain == [] then 0.0 else dur[chain[0]] + ChainSum(dur, chain[1..])
  }

  ghost predicate IsChain(g: Graph, chain: seq<string>) {
    IsWalk(Edges(g), chain) && forall id :: id in chain ==> id in g.deps
  }

  /** x is the largest summed duration of any chain that starts at id. */
  ghost predicate LongestFrom(g: Graph, dur: Durations, id: string, x: real)
    requires Measured(g, dur)
  {
    && (forall c :: IsChain(g, c) && c[0] == id ==> ChainSum(dur, c) <= x)
    && (exists c :: IsChain(g, c) && c[0] == id && ChainSum(dur, c) == x)
  }

  /** x is the largest summed duration of any chain at all, or zero without nodes. */
  ghost predicate LongestOverall(g: Graph, dur: Durations, x: real)
    requires Measured(g, dur)
  {
    && (forall c :: IsChain(g, c) ==> ChainSum(dur, c) <= x)
    && (if g.order == [] then x == 0.0 else exists c :: IsChain(g, c) && ChainSum(dur, c) == x)
  }

  lemma SingleChain(g: Graph, dur: Durations, id: string)
    requires Measured(g, dur) && id in g.deps
    ensures IsChain(g, [id]) && ChainSum(dur, [id]) == dur[id]
  {
    assert [id][1..] == [];
  }

  lemma ConsChain(g: Graph, dur: Durations, id: string, c: seq<string>)
    requires Measured(g, dur) && IsChain(g, c) && id in g.deps && c[0] in g.deps[id]
    ensures IsChain(g, [id] + c) && ChainSum(dur, [id] + c) == dur[id] + ChainSum(dur, c)
  {
    assert ([id] + c)[1..] == c;
    assert (id, c[0]) in Edges(g);
  }

  /** The longest chain from a node extends the longest one of a best dependency. */
  lemma LongestStep(g: Graph, dur: Durations, id: string, start: real, best: map<string, real>)
    requires Measured(g, dur) && DependenciesKnown(g) && id in g.deps
    requires forall d :: d in g.deps[id] ==> d in best && LongestFrom(g, dur, d, best[d]) && best[d] <= start
    requires if g.deps[id] == [] then start == 0.0 else exists d :: d in g.deps[id] && best[d] == start
    ensures LongestFrom(g, dur, id, start + dur[id])
  {
    if g.deps[id] == [] {
      SingleChain(g, dur, id);
    } else {
      var d :| d in g.deps[id] && best[d] == start;
      assert LongestFrom(g, dur, d, best[d]);
      var c :| IsChain(g, c) && c[0] == d && ChainSum(dur, c) == start;
      ConsChain(g, dur, id, c);
      assert ([id] + c)[0] == id;
      StartIsNonNegative(g, dur, d, start);
    }
    forall c | IsChain(g, c) && c[0] == id
      ensures ChainSum(dur, c) <= start + dur[id]
    {
      if |c| > 1 {
        TailChain(g, dur, c);
        assert LongestFrom(g, dur, c[1], best[c[1]]);
      } else {
        assert c == [id];
        SingleChain(g, dur, id);
      }
    }
  }

  lemma StartIsNonNegative(g: Graph, dur: Durations, id: string, x: real)
    requires Measured(g, dur) && id in g.deps && LongestFrom(g, dur, id, x)
    ensures 0.0 <= x
  {
    SingleChain(g, dur, id);
    assert [id][0] == id;
  }

  lemma TailChain(g: Graph, dur: Durations, c: seq<string>)
    requires Measured(g, dur) && IsChain(g, c) && |c| > 1
    ensures c[1] in g.deps[c[0]] && IsChain(g, c[1..]) && c[1..][0] == c[1]
    ensures ChainSum(dur, c) == dur[c[0]] + ChainSum(dur, c[1..])
  {
    assert (c[0], c[1]) in Edges(g);
    forall id | id in c[1..]
      ensures id in g.deps
    {
      assert id in c;
    }
  }

  /** The memo of finish times filled by the nested `resolve`. */
  class Resolver {
    const g: Graph
    const dur: Durations
    var finish: map<string, real>

    constructor (g: Graph, dur: Durations)
      ensures this.g == g && this.dur == dur && finish == map[]
    {
      this.g, this.dur, finish := g, dur, map[];
    }

    ghost predicate Valid()
      reads this
    {
      && Acceptable(g) && Measured(g, dur)
      && forall id :: id in finish ==> id in g.deps && LongestFrom(g, dur, id, finish[id])
    }

    method Resolve(id: string) returns (x: real)
      requires Valid() && id in g.deps
      modifies this
      ensures Valid() && LongestFrom(g, dur, id, x)
      decreases Height(g, id), 1
    {
      if id !in finish {
        var start := LatestDependency(id);
        finish := finish[id := start + dur[id]];
      }
      return finish[id];
    }

    /** The largest finish time among the dependencies, or zero without any. */
    method LatestDependency(id: string) returns (start: real)
      requires Valid() && id in g.deps
      modifies this
      ensures Valid() && LongestFrom(g, dur, id, start + dur[id])
      decreases Height(g, id), 0
    {
      start := 0.0;
      ghost var best: map<string, real> := map[];
      for i := 0 to |g.deps[id]|
        invariant Valid() && BestSoFar(g, dur, g.deps[id][..i], best, start)
      {
        HeightDecreases(g, id, g.deps[id][i]);
        var y := Resolve(g.deps[id][i]);
        BestOneMore(g, dur, g.deps[id], i, best, start, y);
        best := best[g.deps[id][i] := y];
        if i == 0 || start < y { start := y; }
      }
      assert g.deps[id][..|g.deps[id]|] == g.deps[id];
      LongestStep(g, dur, id, start, best);
    }
  }

  /** start is the largest finish time of the listed nodes, best holds each of theirs. */
  ghost predicate BestSoFar(g: Graph, dur: Durations, list: seq<string>, best: map<string, real>, start: real)
    requires Measured(g, dur)
  {
    && (forall d :: d in list ==> d in best && LongestFrom(g, dur, d, best[d]) && best[d] <= start)
    && (if list == [] then start == 0.0 else exists d :: d in list && d in best && best[d] == start)
  }

  lemma BestOneMore(g: Graph, dur: Durations, list: seq<string>, i: nat, best: map<string, real>, start: real, y: real)
    requires Measured(g, dur) && i < |list| && BestSoFar(g, dur, list[..i], best, start)
    requires list[i] in g.deps && LongestFrom(g, dur, list[i], y)
    ensures BestSoFar(g, dur, list[..i + 1], best[list[i] := y], if i == 0 || start < y then y else start)
  {
    assert list[..i + 1] == list[..i] + [list[i]];
    if list[i] in list[..i] {
      LongestUnique(g, dur, list[i], y, best[list[i]]);
    }
    if i > 0 && !(start < y) {
      var d :| d in list[..i] && d in best && best[d] == start;
      assert d in list[..i + 1];
    } else {
      assert list[i] in list[..i + 1];
    }
  }

  lemma LongestUnique(g: Graph, dur: Durations, id: string, x: real, y: real)
    requires Measured(g, dur) && LongestFrom(g, dur, id, x) && LongestFrom(g, dur, id, y)
    ensures x == y
  {
    var c :| IsChain(g, c) && c[0] == id && ChainSum(dur, c) == x;
    var d :| IsChain(g, d) && d[0] == id && ChainSum(dur, d) == y;
  }

  /** The reported critical path is the largest summed duration over all dependency chains. */
  method CriticalPathSeconds(g: Graph, dur: Durations) returns (x: real)
    requires Acceptable(g) && Measured(g, dur)
    ensures LongestOverall(g, dur, x)
  {
    var resolver := new Resolver(g, dur);
    x := 0.0;
    for i := 0 to |g.order|
      invariant resolver.Valid() && resolver.g == g && resolver.dur == dur
      invariant forall c :: IsChain(g, c) && c[0] in g.order[..i] ==> ChainSum(dur, c) <= x
      invariant if i == 0 then x == 0.0 else exists c :: IsChain(g, c) && ChainSum(dur, c) == x
    {
      assert g.order[i] in Elems(g.order);
      var y := resolver.Resolve(g.order[i]);
      if i == 0 || x < y { x := y; }
    }
    forall c | IsChain(g, c)
      ensures ChainSum(dur, c) <= x
    {
      assert c[0] in Elems(g.order);
      assert g.order[..|g.order|] == g.order;
    }
  }

  /** What a finished run measured for each node. */
  ghost function MeasuredDurations<V>(s: State<V>): Durations
    requires s.started.Keys == s.finished.Keys
  {
    map id | id in s.finished :: s.finished[id] - s.started[id]
  }

  lemma {:induction false} ChainFitsInRun<V>(g: Graph, t0: real, s: State<V>, c: seq<string>)
    requires TimesWell(g, t0, s) && s.started.Keys == s.finished.Keys == g.deps.Keys && IsChain(g, c)
    ensures ChainSum(MeasuredDurations(s), c) <= s.finished[c[0]] - t0
    decreases |c|
  {
    var dur := MeasuredDurations(s);
    if |c| > 1 {
      TailChain(g, dur, c);
      ChainFitsInRun(g, t0, s, c[1..]);
      assert s.finished[c[1]] <= s.started[c[0]];
    } else {
      assert c == [c[0]];
      SingleChain(g, dur, c[0]);
    }
  }

  /** The critical path of a finished run never exceeds the time the run took. */
  lemma CriticalPathWithinWall<V>(g: Graph, handler: Handler<V>, workers: nat, t0: real, steps: seq<Step>, end: State<V>, x: real)
    requires Acceptable(g) && IsRun(g, handler, workers, Initial(t0), steps, end) && Final(g, end)
    ensures end.started.Keys == end.finished.Keys && Measured(g, MeasuredDurations(end))
    ensures LongestOverall(g, MeasuredDurations(end), x) ==> x <= end.clock - t0
  {
    FinishedRun(g, handler, workers, t0, steps, end);
    var dur := MeasuredDurations(end);
    if LongestOverall(g, dur, x) && g.order != [] {
      var c :| IsChain(g, c) && ChainSum(dur, c) == x;
      ChainFitsInRun(g, t0, end, c);
    }
  }
}
