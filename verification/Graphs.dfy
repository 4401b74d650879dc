/** Reachability in a finite directed graph given as a set of edges.

    The lineage registry, the adoption of a lineage and the task graph all
    argue about walks along edges; everything they need is stated here once. */
module Graphs {

  /** w is a non-empty walk: every element is followed along an edge of e. */
  ghost predicate IsWalk<T(!new)>(e: set<(T, T)>, w: seq<T>)
    decreases |w|
  {
    |w| > 0 && (|w| == 1 || ((w[0], w[1]) in e && IsWalk(e, w[1..])))
  }

  ghost predicate WalkFromTo<T(!new)>(e: set<(T, T)>, a: T, b: T, w: seq<T>) {
    IsWalk(e, w) && w[0] == a && w[|w| - 1] == b
  }

  /** b can be reached from a by following zero or more edges. */
  ghost predicate Reach<T(!new)>(e: set<(T, T)>, a: T, b: T) {
    exists w :: WalkFromTo(e, a, b, w)
  }

  ghost predicate Closed<T(!new)>(e: set<(T, T)>, s: set<T>) {
    forall edge :: edge in e && edge.0 in s ==> edge.1 in s
  }

  function Reversed<T(==, !new)>(e: set<(T, T)>): set<(T, T)> {
    set edge | edge in e :: (edge.1, edge.0)
  }

  function Successors<T(==, !new)>(e: set<(T, T)>, a: T): set<T> {
    set edge | edge in e && edge.0 == a :: edge.1
  }

  /** rank decreases along every edge. */
  ghost predicate Ranked<T(!new)>(e: set<(T, T)>, rank: map<T, nat>) {
    forall edge :: edge in e ==> edge.0 in rank && edge.1 in rank && rank[edge.1] < rank[edge.0]
  }

  /** No infinite walk exists: some rank decreases along every edge. */
  ghost predicate WellFounded<T(!new)>(e: set<(T, T)>) {
    exists rank: map<T, nat> :: Ranked(e, rank)
  }

  lemma ReachRefl<T(!new)>(e: set<(T, T)>, a: T)
    ensures Reach(e, a, a)
  {
    assert WalkFromTo(e, a, a, [a]);
  }

  lemma ReachCons<T(!new)>(e: set<(T, T)>, a: T, m: T, b: T)
    requires (a, m) in e && Reach(e, m, b)
    ensures Reach(e, a, b)
  {
    var w :| WalkFromTo(e, m, b, w);
    assert ([a] + w)[1..] == w;
    assert WalkFromTo(e, a, b, [a] + w);
  }

  lemma ReachEdge<T(!new)>(e: set<(T, T)>, a: T, b: T)
    requires (a, b) in e
    ensures Reach(e, a, b)
  {
    ReachRefl(e, b);
    ReachCons(e, a, b, b);
  }

  /** The first step of a walk between distinct nodes. */
  lemma FirstStep<T(!new)>(e: set<(T, T)>, a: T, b: T) returns (m: T)
    requires Reach(e, a, b) && a != b
    ensures (a, m) in e && Reach(e, m, b)
  {
    var w :| WalkFromTo(e, a, b, w);
    m := w[1];
    assert WalkFromTo(e, m, b, w[1..]);
  }

  lemma {:induction false} WalkClosed<T(!new)>(e: set<(T, T)>, s: set<T>, a: T, b: T, w: seq<T>)
    requires Closed(e, s) && a in s && WalkFromTo(e, a, b, w)
    ensures b in s
    decreases |w|
  {
    if |w| > 1 {
      assert (w[0], w[1]) in e;
      WalkClosed(e, s, w[1], b, w[1..]);
    }
  }

  /** A closed set holds everything reachable from its members. */
  lemma ReachClosed<T(!new)>(e: set<(T, T)>, s: set<T>, a: T, b: T)
    requires Closed(e, s) && a in s && Reach(e, a, b)
    ensures b in s
  {
    var w :| WalkFromTo(e, a, b, w);
    WalkClosed(e, s, a, b, w);
  }

  lemma {:induction false} WalkTrans<T(!new)>(e: set<(T, T)>, a: T, b: T, c: T, w: seq<T>)
    requires WalkFromTo(e, a, b, w) && Reach(e, b, c)
    ensures Reach(e, a, c)
    decreases |w|
  {
    if |w| > 1 {
      WalkTrans(e, w[1], b, c, w[1..]);
      ReachCons(e, a, w[1], c);
    }
  }

  lemma ReachTrans<T(!new)>(e: set<(T, T)>, a: T, b: T, c: T)
    requires Reach(e, a, b) && Reach(e, b, c)
    ensures Reach(e, a, c)
  {
    var w :| WalkFromTo(e, a, b, w);
    WalkTrans(e, a, b, c, w);
  }

  lemma {:induction false} WalkReversed<T(!new)>(e: set<(T, T)>, a: T, b: T, w: seq<T>)
    requires WalkFromTo(e, a, b, w)
    ensures Reach(Reversed(e), b, a)
    decreases |w|
  {
    if |w| == 1 {
      ReachRefl(Reversed(e), a);
    } else {
      WalkReversed(e, w[1], b, w[1..]);
      assert (w[0], w[1]) in e;
      assert (w[1], w[0]) in Reversed(e);
      ReachEdge(Reversed(e), w[1], a);
      ReachTrans(Reversed(e), b, w[1], a);
    }
  }

  lemma ReversedTwice<T(!new)>(e: set<(T, T)>)
    ensures Reversed(Reversed(e)) == e
  {
    forall edge | edge in e
      ensures edge in Reversed(Reversed(e))
    {
      assert (edge.1, edge.0) in Reversed(e);
    }
  }

  /** Descendants are the ancestors read backwards. */
  lemma ReachReversed<T(!new)>(e: set<(T, T)>, a: T, b: T)
    ensures Reach(e, a, b) <==> Reach(Reversed(e), b, a)
  {
    if Reach(e, a, b) {
      var w :| WalkFromTo(e, a, b, w);
      WalkReversed(e, a, b, w);
    }
    if Reach(Reversed(e), b, a) {
      var w :| WalkFromTo(Reversed(e), b, a, w);
      WalkReversed(Reversed(e), b, a, w);
      ReversedTwice(e);
    }
  }

  lemma {:induction false} WalkWithin<T(!new)>(e: set<(T, T)>, f: set<(T, T)>, s: set<T>, a: T, b: T, w: seq<T>)
    requires Closed(e, s) && a in s && WalkFromTo(e, a, b, w)
    requires forall edge :: edge in e && edge.0 in s ==> edge in f
    ensures Reach(f, a, b)
    decreases |w|
  {
    if |w| == 1 {
      ReachRefl(f, a);
    } else {
      assert (w[0], w[1]) in e;
      WalkWithin(e, f, s, w[1], b, w[1..]);
      ReachCons(f, a, w[1], b);
    }
  }

  /** Two graphs with the same edges out of a closed set reach the same nodes from it. */
  lemma ReachWithin<T(!new)>(e: set<(T, T)>, f: set<(T, T)>, s: set<T>, a: T, b: T)
    requires Closed(e, s) && a in s
    requires forall edge: (T, T) :: edge.0 in s ==> (edge in e <==> edge in f)
    ensures Reach(e, a, b) <==> Reach(f, a, b)
  {
    if Reach(e, a, b) {
      var w :| WalkFromTo(e, a, b, w);
      WalkWithin(e, f, s, a, b, w);
    }
    if Reach(f, a, b) {
      var w :| WalkFromTo(f, a, b, w);
      assert Closed(f, s);
      WalkWithin(f, e, s, a, b, w);
    }
  }

  lemma {:induction false} WalkRank<T(!new)>(e: set<(T, T)>, rank: map<T, nat>, a: T, b: T, w: seq<T>)
    requires Ranked(e, rank) && WalkFromTo(e, a, b, w) && a in rank
    ensures b in rank && rank[b] <= rank[a] && (|w| > 1 ==> rank[b] < rank[a])
    decreases |w|
  {
    if |w| > 1 {
      assert (w[0], w[1]) in e;
      WalkRank(e, rank, w[1], b, w[1..]);
    }
  }

  /** A well-founded graph has no cycle: no node is reached from one of its own successors. */
  lemma NoCycle<T(!new)>(e: set<(T, T)>, a: T, b: T)
    requires WellFounded(e) && (a, b) in e
    ensures !Reach(e, b, a)
  {
    var rank: map<T, nat> :| Ranked(e, rank);
    if Reach(e, b, a) {
      var w :| WalkFromTo(e, b, a, w);
      WalkRank(e, rank, b, a, w);
    }
  }

  ghost function Ends<T(!new)>(e: set<(T, T)>): set<T> {
    set edge | edge in e :: edge.1
  }

  /** The recursive query `SELECT root UNION SELECT next` as a worklist: rows
      still to be expanded wait in `pending`, expanded ones collect in `seen`. */
  method Closure<T(==, !new)>(e: set<(T, T)>, root: T) returns (seen: set<T>)
    ensures forall x :: x in seen <==> Reach(e, root, x)
  {
    seen := {};
    var pending := {root};
    ReachRefl(e, root);
    while pending != {}
      invariant seen !! pending
      invariant root in seen + pending
      invariant seen + pending <= {root} + Ends(e)
      invariant forall x :: x in seen + pending ==> Reach(e, root, x)
      invariant forall edge :: edge in e && edge.0 in seen ==> edge.1 in seen + pending
      decreases {root} + Ends(e) - seen
    {
      var node :| node in pending;
      forall x | x in Successors(e, node)
        ensures Reach(e, root, x)
      {
        ReachEdge(e, node, x);
        ReachTrans(e, root, node, x);
      }
      seen := seen + {node};
      pending := pending - {node} + (Successors(e, node) - seen);
    }
    forall x | Reach(e, root, x)
      ensures x in seen
    {
      ReachClosed(e, seen, root, x);
    }
  }
}
