/** Task graphs: which node lists are accepted. */
module TaskGraphs {
  import opened Prelude
  import opened Graphs

  datatype Task = Task(id: string, dependsOn: seq<string>)

  /** The node dictionary: ids in insertion order, each with its dependencies. */
  datatype Graph = Graph(order: seq<string>, deps: map<string, seq<string>>)

  datatype Rejection = DuplicateIds | UnknownDependency | Cycle

  /** An edge leads from a node to each node it waits for. */
  function Edges(g: Graph): set<(string, string)> {
    set id, d | id in g.deps && d in g.deps[id] :: (id, d)
  }

  ghost predicate WellFormed(g: Graph) {
    NoDuplicates(g.order) && g.deps.Keys == Elems(g.order)
  }

  ghost predicate DependenciesKnown(g: Graph) {
    forall id, d :: id in g.deps && d in g.deps[id] ==> d in g.deps
  }

  /** Some node waits, directly or not, for itself. */
  ghost predicate Cyclic<T(!new)>(e: set<(T, T)>) {
    exists c, d :: (c, d) in e && Reach(e, d, c)
  }

  ghost predicate Acceptable(g: Graph) {
    WellFormed(g) && DependenciesKnown(g) && WellFounded(Edges(g))
  }

  /** Everything reachable from a over at least one edge. */
  ghost function Beyond<T(!new)>(e: set<(T, T)>, within: set<T>, a: T): set<T> {
    set x | x in within && exists d :: (a, d) in e && Reach(e, d, x)
  }

  ghost predicate HasSuccessorIn<T(!new)>(e: set<(T, T)>, s: set<T>, u: T) {
    exists d :: d in s && (u, d) in e
  }

  /** A finite set in which everything has a successor contains a cycle. */
  lemma {:induction false} StuckSetHasCycle<T(!new)>(e: set<(T, T)>, stuck: set<T>)
    requires stuck != {} && forall u {:trigger HasSuccessorIn(e, stuck, u)} :: u in stuck ==> HasSuccessorIn(e, stuck, u)
    ensures Cyclic(e)
    decreases stuck
  {
    var u :| u in stuck;
    var beyond := Beyond(e, stuck, u);
    if u !in beyond {
      assert HasSuccessorIn(e, stuck, u);
      var d :| d in stuck && (u, d) in e;
      ReachRefl(e, d);
      assert d in beyond;
      forall x | x in beyond
        ensures HasSuccessorIn(e, beyond, x)
      {
        BeyondHasSuccessor(e, stuck, u, x);
      }
      assert beyond <= stuck - {u};
      StuckSetHasCycle(e, beyond);
    }
  }

  lemma BeyondHasSuccessor<T(!new)>(e: set<(T, T)>, stuck: set<T>, u: T, x: T)
    requires x in Beyond(e, stuck, u) && HasSuccessorIn(e, stuck, x)
    ensures HasSuccessorIn(e, Beyond(e, stuck, u), x)
  {
    var m :| (u, m) in e && Reach(e, m, x);
    var y :| y in stuck && (x, y) in e;
    ReachEdge(e, x, y);
    ReachTrans(e, m, x, y);
    assert y in Beyond(e, stuck, u);
  }

  /** On a known graph, being well-founded and having no cycle are the same. */
  lemma WellFoundedIffAcyclic(g: Graph, rank: map<string, nat>)
    requires Ranked(Edges(g), rank)
    ensures !Cyclic(Edges(g))
  {
    if Cyclic(Edges(g)) {
      var c, d :| (c, d) in Edges(g) && Reach(Edges(g), d, c);
      NoCycle(Edges(g), c, d);
    }
  }

  method CheckDependencies(g: Graph) returns (known: bool)
    requires WellFormed(g)
    ensures known <==> DependenciesKnown(g)
  {
    for i := 0 to |g.order|
      invariant forall id, d :: id in g.order[..i] && d in g.deps[id] ==> d in g.deps
    {
      var id := g.order[i];
      assert id in Elems(g.order);
      for j := 0 to |g.deps[id]|
        invariant forall d :: d in g.deps[id][..j] ==> d in g.deps
      {
        if g.deps[id][j] !in g.deps { return false; }
      }
      assert g.deps[id][..|g.deps[id]|] == g.deps[id];
    }
    forall id, d | id in g.deps && d in g.deps[id]
      ensures d in g.deps
    {
      assert id in Elems(g.order);
      assert id in g.order[..|g.order|];
    }
    return true;
  }

  /** Every dependency of a resolved node was resolved before it. */
  ghost predicate ResolvedInOrder(g: Graph, resolved: set<string>, rank: map<string, nat>) {
    && resolved <= g.deps.Keys && rank.Keys == resolved
    && forall id, d :: id in resolved && d in g.deps[id] ==> d in resolved && rank[d] < rank[id]
  }

  ghost predicate Blocked(g: Graph, resolved: set<string>, id: string)
    requires id in g.deps
  {
    exists d :: d in g.deps[id] && d !in resolved
  }

  /** One pass over the nodes in order, resolving what has become possible. */
  method Sweep(g: Graph, resolved: set<string>, ghost rank: map<string, nat>)
      returns (resolved': set<string>, progress: bool, ghost rank': map<string, nat>)
    requires WellFormed(g) && ResolvedInOrder(g, resolved, rank)
    ensures ResolvedInOrder(g, resolved', rank') && resolved <= resolved'
    ensures progress <==> resolved' != resolved
    ensures !progress ==> forall id {:trigger Blocked(g, resolved, id)} :: id in g.deps && id !in resolved ==> Blocked(g, resolved, id)
  {
    resolved', progress, rank' := resolved, false, rank;
    for i := 0 to |g.order|
      invariant ResolvedInOrder(g, resolved', rank') && resolved <= resolved'
      invariant progress <==> resolved' != resolved
      invariant !progress ==> forall j {:trigger g.order[j]} :: 0 <= j < i && g.order[j] in g.deps && g.order[j] !in resolved ==> Blocked(g, resolved, g.order[j])
    {
      var id := g.order[i];
      assert id in Elems(g.order);
      if id !in resolved' && (forall d | d in g.deps[id] :: d in resolved') {
        var top := RankBound(rank');
        resolved', rank', progress := resolved' + {id}, rank'[id := top], true;
      }
    }
    if !progress {
      forall id | id in g.deps && id !in resolved
        ensures Blocked(g, resolved, id)
      {
        assert id in Elems(g.order);
      }
    }
  }

  /** Grows the set of resolved nodes until nothing changes. The verdict is
      positive exactly when every dependency is known and nothing waits for
      itself, which is the same as the graph being well-founded. */
  method ValidateDag(g: Graph) returns (r: Result<(), Rejection>)
    requires WellFormed(g)
    ensures r.Ok? <==> DependenciesKnown(g) && WellFounded(Edges(g))
    ensures r.Ok? <==> DependenciesKnown(g) && !Cyclic(Edges(g))
    ensures r.Err? ==> r.error == if DependenciesKnown(g) then Cycle else UnknownDependency
  {
    var known := CheckDependencies(g);
    if !known { return Err(UnknownDependency); }
    var resolved: set<string> := {};
    ghost var rank: map<string, nat> := map[];
    while |resolved| < |g.order|
      invariant ResolvedInOrder(g, resolved, rank)
      decreases g.deps.Keys - resolved
    {
      ghost var before := resolved;
      var progress;
      resolved, progress, rank := Sweep(g, resolved, rank);
      if !progress {
        Unresolved(g, resolved);
        return Err(Cycle);
      }
    }
    AllResolved(g, resolved);
    assert Ranked(Edges(g), rank);
    WellFoundedIffAcyclic(g, rank);
    return Ok(());
  }

  lemma AllResolved(g: Graph, resolved: set<string>)
    requires WellFormed(g) && resolved <= g.deps.Keys && |resolved| >= |g.order|
    ensures resolved == g.deps.Keys
  {
    DistinctCount(g.order);
    if resolved != g.deps.Keys {
      SmallerSubset(resolved, g.deps.Keys);
    }
  }

  /** A sweep without progress leaves a set in which every node waits for another of the set. */
  lemma Unresolved(g: Graph, resolved: set<string>)
    requires WellFormed(g) && DependenciesKnown(g) && resolved <= g.deps.Keys && |resolved| < |g.order|
    requires forall id {:trigger Blocked(g, resolved, id)} :: id in g.deps && id !in resolved ==> Blocked(g, resolved, id)
    ensures Cyclic(Edges(g)) && !WellFounded(Edges(g))
  {
    DistinctCount(g.order);
    var stuck := g.deps.Keys - resolved;
    assert g.deps.Keys == stuck + resolved;
    assert stuck != {};
    forall u | u in stuck
      ensures HasSuccessorIn(Edges(g), stuck, u)
    {
      assert Blocked(g, resolved, u);
      var d :| d in g.deps[u] && d !in resolved;
      assert (u, d) in Edges(g);
    }
    StuckSetHasCycle(Edges(g), stuck);
    if WellFounded(Edges(g)) {
      var c, d :| (c, d) in Edges(g) && Reach(Edges(g), d, c);
      NoCycle(Edges(g), c, d);
    }
  }

  function Ids(tasks: seq<Task>): seq<string> {
    seq(|tasks|, i requires 0 <= i < |tasks| => tasks[i].id)
  }

  /** The last dependencies given under an id; later tasks overwrite earlier ones. */
  function DepsOf(tasks: seq<Task>): map<string, seq<string>> {
    if tasks == [] then map[]
    else DepsOf(tasks[..|tasks| - 1])[tasks[|tasks| - 1].id := tasks[|tasks| - 1].dependsOn]
  }

  lemma IdsFront(tasks: seq<Task>)
    requires tasks != []
    ensures Ids(tasks) == Ids(tasks[..|tasks| - 1]) + [tasks[|tasks| - 1].id]
  {
  }

  lemma {:induction false} DepsOfKeys(tasks: seq<Task>)
    ensures DepsOf(tasks).Keys == Elems(Ids(tasks))
    decreases |tasks|
  {
    if tasks != [] {
      DepsOfKeys(tasks[..|tasks| - 1]);
      IdsFront(tasks);
    }
  }

  /** With distinct ids every task keeps its own dependencies. */
  lemma {:induction false} DepsOfEach(tasks: seq<Task>, i: nat)
    requires i < |tasks| && NoDuplicates(Ids(tasks))
    ensures tasks[i].id in DepsOf(tasks) && DepsOf(tasks)[tasks[i].id] == tasks[i].dependsOn
    decreases |tasks|
  {
    var n := |tasks| - 1;
    if i < n {
      assert forall j :: 0 <= j < n ==> Ids(tasks[..n])[j] == Ids(tasks)[j];
      DepsOfEach(tasks[..n], i);
      assert tasks[i].id == Ids(tasks)[i] && tasks[n].id == Ids(tasks)[n];
    }
  }

  /** Builds the node dictionary and accepts exactly the lists with distinct
      ids, known dependencies and no cycle. */
  method Create(tasks: seq<Task>) returns (r: Result<Graph, Rejection>)
    ensures r.Ok? <==> NoDuplicates(Ids(tasks)) && DependenciesKnown(Graph(Ids(tasks), DepsOf(tasks)))
                       && !Cyclic(Edges(Graph(Ids(tasks), DepsOf(tasks))))
    ensures r.Ok? ==> r.value == Graph(Ids(tasks), DepsOf(tasks)) && Acceptable(r.value)
    ensures r.Ok? ==> forall i :: 0 <= i < |tasks| ==> tasks[i].id in r.value.deps && r.value.deps[tasks[i].id] == tasks[i].dependsOn
    ensures r == Err(DuplicateIds) <==> !NoDuplicates(Ids(tasks))
    ensures r == Err(UnknownDependency) ==> !DependenciesKnown(Graph(Ids(tasks), DepsOf(tasks)))
  {
    var deps: map<string, seq<string>> := map[];
    for i := 0 to |tasks|
      invariant deps == DepsOf(tasks[..i])
    {
      assert tasks[..i + 1][..i] == tasks[..i];
      deps := deps[tasks[i].id := tasks[i].dependsOn];
    }
    assert tasks[..|tasks|] == tasks;
    DepsOfKeys(tasks);
    DuplicatesShrink(Ids(tasks));
    assert |deps| == |deps.Keys| == |Elems(Ids(tasks))|;
    if |deps| != |tasks| { return Err(DuplicateIds); }
    var g := Graph(Ids(tasks), deps);
    var verdict := ValidateDag(g);
    if verdict.Err? { return Err(verdict.error); }
    forall i | 0 <= i < |tasks|
      ensures tasks[i].id in deps && deps[tasks[i].id] == tasks[i].dependsOn
    {
      DepsOfEach(tasks, i);
    }
    return Ok(g);
  }

  /** A dictionary is as long as the list it was built from exactly when no key repeats. */
  lemma {:induction false} DuplicatesShrink(s: seq<string>)
    ensures |Elems(s)| <= |s|
    ensures |Elems(s)| == |s| <==> NoDuplicates(s)
    decreases |s|
  {
    if s != [] {
      var front, last := s[..|s| - 1], s[|s| - 1];
      DuplicatesShrink(front);
      assert s == front + [last];
      assert Elems(s) == Elems(front) + {last};
      if last in Elems(front) {
        assert Elems(s) == Elems(front);
        var i :| 0 <= i < |front| && front[i] == last;
        assert s[i] == s[|s| - 1];
      } else {
        forall i | 0 <= i < |front|
          ensures s[i] != last
        {
          assert s[i] == front[i];
        }
        assert NoDuplicates(s) <==> NoDuplicates(front) by {
          if NoDuplicates(s) { assert forall i, j :: 0 <= i < j < |front| ==> front[i] == s[i] && front[j] == s[j]; }
        }
      }
    }
  }
}
